/**
 * The bounded set of processed message ids. The set and its eviction queue together are shown to be
 * a plain window: an id is reported new exactly when it is not among the last `cap` accepted ids.
 */
module Dedupe {
  import opened Util

  /** The ids accepted as new by a sequence of calls, oldest first, judged by the window alone. */
  function Accepted(cap: nat, calls: seq<string>): seq<string> {
    if calls == [] then []
    else Admit(Accepted(cap, Front(calls)), cap, Last(calls))
  }

  function Admit(h: seq<string>, cap: nat, id: string): seq<string> {
    if id in Newest(h, cap) then h else h + [id]
  }

  /** Any two equal entries are more than `cap` places apart. */
  ghost predicate Spaced(h: seq<string>, cap: nat) {
    forall i, j :: 0 <= i < j < |h| && j - i <= cap ==> h[i] != h[j]
  }

  lemma AdmitSpaced(h: seq<string>, cap: nat, id: string)
    requires Spaced(h, cap)
    ensures Spaced(Admit(h, cap, id), cap)
  {
    var g := Admit(h, cap, id);
    forall i, j | 0 <= i < j < |g| && j - i <= cap ensures g[i] != g[j] {
      if j == |h| {
        var w := Newest(h, cap);
        assert g[i] == w[i - (|h| - |w|)];
      }
    }
  }

  lemma {:induction false} AcceptedSpaced(cap: nat, calls: seq<string>)
    ensures Spaced(Accepted(cap, calls), cap)
  {
    if calls != [] {
      AcceptedSpaced(cap, Front(calls));
      AdmitSpaced(Accepted(cap, Front(calls)), cap, Last(calls));
    }
  }

  /**
   * Between two acceptances of one id at least `cap` acceptances lie, and the last `cap` of them are
   * all of other ids, no two alike.
   */
  lemma CapOthersBetween(cap: nat, calls: seq<string>, i: nat, j: nat)
    requires var h := Accepted(cap, calls); i < j < |h| && h[i] == h[j]
    ensures
      var h := Accepted(cap, calls);
      && j - i - 1 >= cap
      && (forall k :: j - cap <= k < j ==> h[k] != h[i])
      && (forall k, l :: j - cap <= k < l < j ==> h[k] != h[l])
  {
    AcceptedSpaced(cap, calls);
  }

  /** Every id ever offered is accepted at some time, and nothing else is. */
  lemma {:induction false} AcceptedIds(cap: nat, calls: seq<string>, id: string)
    ensures id in Accepted(cap, calls) <==> id in calls
  {
    if calls != [] {
      AcceptedIds(cap, Front(calls), id);
      var h := Accepted(cap, Front(calls));
      assert calls == Front(calls) + [Last(calls)];
      assert forall x :: x in Newest(h, cap) ==> x in h;
    }
  }

  function Ids(order: seq<string>): set<string> {
    set id | id in order
  }

  ghost predicate Distinct(order: seq<string>) {
    forall i, j :: 0 <= i < j < |order| ==> order[i] != order[j]
  }

  lemma PushIds(order: seq<string>, id: string)
    requires Distinct(order) && id !in order
    ensures Ids(order + [id]) == Ids(order) + {id} && Distinct(order + [id])
  {
  }

  lemma DropIds(order: seq<string>)
    requires Distinct(order) && order != []
    ensures Ids(order[1..]) == Ids(order) - {order[0]} && Distinct(order[1..])
  {
    assert order == [order[0]] + order[1..];
  }

  /** One acceptance moves the window by one. */
  lemma WindowMoves(h: seq<string>, cap: nat, id: string)
    requires id !in Newest(h, cap)
    ensures
      var pushed := Newest(h, cap) + [id];
      && |pushed| <= cap + 1
      && Newest(Admit(h, cap, id), cap) == if |pushed| > cap then pushed[1..] else pushed
  {
  }

  /** The window after one more call. */
  lemma WindowAfterCall(cap: nat, calls: seq<string>, id: string)
    ensures
      var window := Newest(Accepted(cap, calls), cap);
      var pushed := window + [id];
      && |pushed| <= cap + 1
      && Newest(Accepted(cap, calls + [id]), cap) ==
           if id in window then window else if |pushed| > cap then pushed[1..] else pushed
  {
    assert Front(calls + [id]) == calls && Last(calls + [id]) == id;
    if id !in Newest(Accepted(cap, calls), cap) {
      WindowMoves(Accepted(cap, calls), cap, id);
    }
  }

  class IdSet {
    const cap: nat
    var seen: set<string>
    var order: seq<string>
    ghost var calls: seq<string>

    ghost predicate Valid()
      reads this
    {
      && seen == Ids(order)
      && order == Newest(Accepted(cap, calls), cap)
      && Distinct(order)
    }

    constructor (cap: nat)
      ensures Valid() && this.cap == cap && calls == []
    {
      this.cap := cap;
      seen, order, calls := {}, [], [];
    }

    /** Dedupe.Seen: true when the id was already processed; marks it otherwise. */
    method Seen(id: string) returns (dup: bool)
      requires Valid()
      modifies this
      ensures Valid() && calls == old(calls) + [id]
      ensures dup <==> id in Newest(Accepted(cap, old(calls)), cap)
    {
      WindowAfterCall(cap, calls, id);
      calls := calls + [id];
      if id in seen {
        return true;
      }
      PushIds(order, id);
      seen := seen + {id};
      order := order + [id];
      if |order| > cap {
        DropIds(order);
        var oldest := order[0];
        order := order[1..];
        seen := seen - {oldest};
      }
      return false;
    }

    /** Dedup.mark_seen: the same bookkeeping, answering true for a first sighting. */
    method MarkSeen(id: string) returns (first: bool)
      requires Valid()
      modifies this
      ensures Valid() && calls == old(calls) + [id]
      ensures first <==> id !in Newest(Accepted(cap, old(calls)), cap)
    {
      WindowAfterCall(cap, calls, id);
      calls := calls + [id];
      if id in seen {
        return false;
      }
      PushIds(order, id);
      seen := seen + {id};
      order := order + [id];
      Evict();
      return true;
    }

    /** The eviction loop of mark_seen. */
    method Evict()
      requires seen == Ids(order) && Distinct(order) && |order| <= cap + 1
      modifies this`seen, this`order
      ensures seen == Ids(order) && Distinct(order)
      ensures order == if |old(order)| > cap then old(order)[1..] else old(order)
    {
      ghost var full := order;
      while |order| > cap
        modifies this`seen, this`order
        invariant order == full || (|full| == cap + 1 && order == full[1..])
        invariant seen == Ids(order) && Distinct(order)
      {
        DropIds(order);
        var oldest := order[0];
        order := order[1..];
        seen := seen - {oldest};
      }
    }
  }
}
