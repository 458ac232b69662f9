/**
 * The room daemon's receive pipeline: dedupe, verify, materialize, buffer, notify. Against the full
 * history of verified items, the buffer is its newest 64 since the last clear, every buffered blob
 * has a cache file whose bytes hash to its address, and each subscriber sees an in-order selection.
 */
module Ingest {
  import opened Util
  import opened Items
  import opened Dedupe
  import DedupPath

  /** The digest function is a parameter: nothing but its fixed length is used. */
  type Hash = Bytes -> Digest

  datatype Envelope = Envelope(id: string, kind: Kind, filename: string, blob: Option<Digest>, data: Bytes)

  /** `path` is the name of the cache file in the blob directory. */
  datatype Item = Item(env: Envelope, path: Option<string>)

  datatype Subscriber = Subscriber(queue: seq<Item>, taken: seq<Item>, since: nat)

  const BUFFER_CAP := 64
  const DEDUPE_CAP := 4096
  const CHANNEL_CAP := 16

  /**
   * The daemon's fields `buffer`, `blobs`, `subs` and `accepted` (what dedupe has admitted), and
   * the history they are measured against: all verified items, and how many preceded the last clear.
   */
  datatype State = State(
    accepted: seq<string>, buffer: seq<Item>, blobs: map<string, Bytes>, subs: map<nat, Subscriber>,
    history: seq<Item>, cleared: nat, at: seq<nat>)

  datatype Event =
    | Receive(env: Envelope)
    | ClearTransient
    | Subscribe(k: nat)
    | Unsubscribe(k: nat)
    | Take(k: nat)

  predicate Verified(hash: Hash, env: Envelope) {
    env.kind == Text || (env.blob.Some? && hash(env.data) == env.blob.value)
  }

  function BlobName(env: Envelope): string
    requires env.blob.Some?
  {
    env.blob.value + if env.kind == Image then ".png" else DedupPath.Ext(env.filename)
  }

  function ItemOf(env: Envelope): Item
    requires env.kind != Text ==> env.blob.Some?
  {
    Item(env, if env.kind == Text then None else Some(BlobName(env)))
  }

  /** A full channel skips the item rather than block ingest. */
  function Offered(sub: Subscriber, item: Item): Subscriber {
    if |sub.queue| < CHANNEL_CAP then sub.(queue := sub.queue + [item]) else sub
  }

  function OfferedAll(subs: map<nat, Subscriber>, item: Item): map<nat, Subscriber> {
    map k | k in subs :: Offered(subs[k], item)
  }

  /** What follows an acceptance: verify, materialize, buffer, notify. */
  function Processed(hash: Hash, s: State, env: Envelope): State
    requires s.accepted != []
  {
    if !Verified(hash, env) then s
    else
      var item := ItemOf(env);
      s.(blobs := if env.kind == Text then s.blobs else s.blobs[BlobName(env) := env.data],
         buffer := Newest(s.buffer + [item], BUFFER_CAP),
         subs := OfferedAll(s.subs, item),
         history := s.history + [item],
         at := s.at + [|s.accepted| - 1])
  }

  function Ingested(hash: Hash, s: State, env: Envelope): State {
    if env.id in Newest(s.accepted, DEDUPE_CAP) then s
    else Processed(hash, s.(accepted := s.accepted + [env.id]), env)
  }

  function Step(hash: Hash, s: State, e: Event): State {
    match e
    case Receive(env) => Ingested(hash, s, env)
    case ClearTransient => s.(buffer := [], blobs := map[], cleared := |s.history|)
    case Subscribe(k) => if k in s.subs then s else s.(subs := s.subs[k := Subscriber([], [], |s.history|)])
    case Unsubscribe(k) => s.(subs := s.subs - {k})
    case Take(k) =>
      if k in s.subs && s.subs[k].queue != [] then
        var sub := s.subs[k];
        s.(subs := s.subs[k := sub.(queue := sub.queue[1..], taken := sub.taken + [sub.queue[0]])])
      else s
  }

  function Start(blobs: map<string, Bytes>): State {
    State([], [], blobs, map[], [], 0, [])
  }

  function Run(hash: Hash, s: State, es: seq<Event>): State {
    if es == [] then s else Step(hash, Run(hash, s, Front(es)), Last(es))
  }

  // ---- the buffer and the blob cache ----

  /** The item's cache file exists and its bytes hash to the item's address. */
  ghost predicate BlobHeld(hash: Hash, s: State, item: Item) {
    item.env.kind != Text ==>
      && item.env.blob.Some? && item.path == Some(BlobName(item.env))
      && item.path.value in s.blobs && hash(s.blobs[item.path.value]) == item.env.blob.value
  }

  ghost predicate BufferInv(hash: Hash, s: State) {
    && s.cleared <= |s.history|
    && s.buffer == Newest(s.history[s.cleared..], BUFFER_CAP)
    && forall i :: 0 <= i < |s.buffer| ==> BlobHeld(hash, s, s.buffer[i])
  }

  /** Two addresses that share a cache file name are the same address. */
  lemma NameGivesAddress(a: Envelope, b: Envelope)
    requires a.blob.Some? && b.blob.Some? && BlobName(a) == BlobName(b)
    ensures a.blob == b.blob
  {
    assert a.blob.value == BlobName(a)[..64] && b.blob.value == BlobName(b)[..64];
  }

  lemma ReceiveKeepsBuffer(hash: Hash, s: State, env: Envelope)
    requires BufferInv(hash, s)
    ensures BufferInv(hash, Ingested(hash, s, env))
  {
    var t := Ingested(hash, s, env);
    if t.history != s.history {
      var item := ItemOf(env);
      assert t.history[t.cleared..] == s.history[s.cleared..] + [item];
      NewestAppend(s.history[s.cleared..], BUFFER_CAP, item);
      forall i | 0 <= i < |t.buffer| ensures BlobHeld(hash, t, t.buffer[i]) {
        var x := t.buffer[i];
        if x in s.buffer && x.env.kind != Text && env.kind != Text {
          assert BlobHeld(hash, s, x);
          if BlobName(x.env) == BlobName(env) {
            NameGivesAddress(x.env, env);
          }
        } else if x in s.buffer {
          assert BlobHeld(hash, s, x);
        } else {
          assert x == item;
        }
      }
    }
  }

  /**
   * After any run: the buffer is the newest 64 verified items since the last clear, and every
   * buffered image or file has bytes on disk that hash to its address, through overwrites and clears.
   */
  lemma {:induction false} BufferRefinesHistory(hash: Hash, blobs: map<string, Bytes>, es: seq<Event>)
    ensures BufferInv(hash, Run(hash, Start(blobs), es))
  {
    if es != [] {
      BufferRefinesHistory(hash, blobs, Front(es));
      var s := Run(hash, Start(blobs), Front(es));
      match Last(es)
      case Receive(env) => ReceiveKeepsBuffer(hash, s, env);
      case ClearTransient =>
      case _ =>
        var t := Step(hash, s, Last(es));
        assert forall i :: 0 <= i < |t.buffer| ==> BlobHeld(hash, s, t.buffer[i]);
    }
  }

  // ---- subscribers ----

  ghost predicate SubOk(history: seq<Item>, sub: Subscriber) {
    && sub.since <= |history|
    && |sub.queue| <= CHANNEL_CAP
    && Subsequence(sub.taken + sub.queue, history[sub.since..])
  }

  ghost predicate SubscribersOk(s: State) {
    forall k :: k in s.subs ==> SubOk(s.history, s.subs[k])
  }

  lemma OfferedOk(history: seq<Item>, sub: Subscriber, item: Item)
    requires SubOk(history, sub)
    ensures SubOk(history + [item], Offered(sub, item))
  {
    var before := history[sub.since..];
    var after := (history + [item])[sub.since..];
    assert after == before + [item];
    var at: seq<nat> :| Embeds(at, sub.taken + sub.queue, before);
    var t := Offered(sub, item);
    if t == sub {
      assert Embeds(at, sub.taken + sub.queue, after);
    } else {
      assert t.taken + t.queue == (sub.taken + sub.queue) + [item];
      assert Embeds(at + [|before|], t.taken + t.queue, after);
    }
  }

  /**
   * After any run, what each subscriber has taken and still has queued is, together and in order, a
   * selection of the items ingested since it subscribed, none twice; its queue never exceeds 16.
   */
  lemma {:induction false} SubscribersSeeHistory(hash: Hash, blobs: map<string, Bytes>, es: seq<Event>)
    ensures SubscribersOk(Run(hash, Start(blobs), es))
  {
    if es != [] {
      SubscribersSeeHistory(hash, blobs, Front(es));
      var s := Run(hash, Start(blobs), Front(es));
      var t := Step(hash, s, Last(es));
      forall k | k in t.subs ensures SubOk(t.history, t.subs[k]) {
        match Last(es)
        case Receive(env) =>
          assert SubOk(s.history, s.subs[k]);
          if t.history != s.history {
            OfferedOk(s.history, s.subs[k], ItemOf(env));
          }
        case Subscribe(j) =>
          if k !in s.subs {
            assert Embeds([], [], t.history[|t.history|..]);
          }
        case Take(j) =>
          assert SubOk(s.history, s.subs[k]);
          assert t.subs[k].taken + t.subs[k].queue == s.subs[k].taken + s.subs[k].queue;
        case _ =>
      }
    }
  }

  // ---- when buffered ids are distinct ----

  /** `at` places each verified item among the accepted ids, in order. */
  ghost predicate Placed(s: State) {
    && Spaced(s.accepted, DEDUPE_CAP)
    && |s.at| == |s.history|
    && (forall i :: 0 <= i < |s.at| ==> s.at[i] < |s.accepted| && s.accepted[s.at[i]] == s.history[i].env.id)
    && (forall i, j :: 0 <= i < j < |s.at| ==> s.at[i] < s.at[j])
  }

  lemma {:induction false} RunPlaced(hash: Hash, blobs: map<string, Bytes>, es: seq<Event>)
    ensures Placed(Run(hash, Start(blobs), es))
  {
    if es != [] {
      RunPlaced(hash, blobs, Front(es));
      var s := Run(hash, Start(blobs), Front(es));
      if Last(es).Receive? {
        PlacedIngest(hash, s, Last(es).env);
      }
    }
  }

  lemma PlacedIngest(hash: Hash, s: State, env: Envelope)
    requires Placed(s)
    ensures Placed(Ingested(hash, s, env))
  {
    AdmitSpaced(s.accepted, DEDUPE_CAP, env.id);
  }

  lemma SameIdsAreFarApart(s: State, i: nat, j: nat)
    requires Placed(s) && i < j < |s.history| && s.history[i].env.id == s.history[j].env.id
    ensures s.at[j] - s.at[i] > DEDUPE_CAP
  {
  }

  /**
   * Two buffered items share an id only when more than 4096 acceptances separate them, so a buffer
   * whose items were accepted within a span of 4096 holds every id once.
   */
  lemma RepeatsAreFarApart(hash: Hash, blobs: map<string, Bytes>, es: seq<Event>, i: nat, j: nat)
    requires
      var s := Run(hash, Start(blobs), es);
      i < j < |s.history| && s.history[i].env.id == s.history[j].env.id
    ensures
      var s := Run(hash, Start(blobs), es);
      |s.at| == |s.history| && s.at[j] - s.at[i] > DEDUPE_CAP
  {
    RunPlaced(hash, blobs, es);
    SameIdsAreFarApart(Run(hash, Start(blobs), es), i, j);
  }

  // ---- few failures keep buffered ids distinct ----

  ghost predicate IdsDistinct(buffer: seq<Item>) {
    forall i, j :: 0 <= i < j < |buffer| ==> buffer[i].env.id != buffer[j].env.id
  }

  /** How many accepted messages did not verify. */
  function Failures(s: State): int {
    |s.accepted| - |s.history|
  }

  /** The fewest failures that can bring an id back while it is still buffered. */
  const FAILURES_TO_REPEAT := DEDUPE_CAP - BUFFER_CAP + 2

  lemma {:induction false} PlaceAtLeast(at: seq<nat>, i: nat)
    requires i < |at| && forall k, l :: 0 <= k < l < |at| ==> at[k] < at[l]
    ensures at[i] >= i
  {
    if i > 0 {
      PlaceAtLeast(at, i - 1);
    }
  }

  lemma {:induction false} PlaceAtMost(at: seq<nat>, m: nat, i: nat)
    requires i < |at| && (forall k, l :: 0 <= k < l < |at| ==> at[k] < at[l]) && forall k :: 0 <= k < |at| ==> at[k] < m
    ensures at[i] <= m - |at| + i
    decreases |at| - i
  {
    if i < |at| - 1 {
      PlaceAtMost(at, m, i + 1);
    }
  }

  /** Two verified items are no further apart among the accepted ones than by the items between and the failures. */
  lemma PlacesApart(s: State, i: nat, j: nat)
    requires Placed(s) && i <= j < |s.at|
    ensures s.at[j] - s.at[i] <= j - i + Failures(s)
  {
    PlaceAtLeast(s.at, i);
    PlaceAtMost(s.at, |s.accepted|, j);
  }

  lemma BufferIsTail(hash: Hash, s: State, i: nat)
    requires BufferInv(hash, s) && i < |s.buffer|
    ensures |s.buffer| <= BUFFER_CAP && |s.buffer| <= |s.history|
    ensures s.buffer[i] == s.history[|s.history| - |s.buffer| + i]
  {
    var since := s.history[s.cleared..];
    assert s.buffer[i] == since[|since| - |s.buffer| + i];
  }

  lemma RepeatTakesFailures(hash: Hash, s: State, i: nat, j: nat)
    requires Placed(s) && BufferInv(hash, s) && i < j < |s.buffer| && s.buffer[i].env.id == s.buffer[j].env.id
    ensures Failures(s) >= FAILURES_TO_REPEAT
  {
    BufferIsTail(hash, s, i);
    BufferIsTail(hash, s, j);
    var skip := |s.history| - |s.buffer|;
    CloseRepeatTakesFailures(s, skip + i, skip + j);
  }

  lemma CloseRepeatTakesFailures(s: State, i: nat, j: nat)
    requires Placed(s) && i < j < |s.history| && j - i < BUFFER_CAP && s.history[i].env.id == s.history[j].env.id
    ensures Failures(s) >= FAILURES_TO_REPEAT
  {
    SameIdsAreFarApart(s, i, j);
    PlacesApart(s, i, j);
  }

  /** With fewer than 4034 failures, in any run, the buffer never holds one id twice. */
  lemma FewFailuresDistinct(hash: Hash, blobs: map<string, Bytes>, es: seq<Event>)
    requires Failures(Run(hash, Start(blobs), es)) < FAILURES_TO_REPEAT
    ensures IdsDistinct(Run(hash, Start(blobs), es).buffer)
  {
    var s := Run(hash, Start(blobs), es);
    BufferRefinesHistory(hash, blobs, es);
    RunPlaced(hash, blobs, es);
    forall i, j | 0 <= i < j < |s.buffer| ensures s.buffer[i].env.id != s.buffer[j].env.id {
      if s.buffer[i].env.id == s.buffer[j].env.id {
        RepeatTakesFailures(hash, s, i, j);
        assert false;
      }
    }
  }

  lemma {:induction false} AllVerifiedNoFailures(hash: Hash, blobs: map<string, Bytes>, es: seq<Event>)
    requires forall i :: 0 <= i < |es| && es[i].Receive? ==> Verified(hash, es[i].env)
    ensures Failures(Run(hash, Start(blobs), es)) == 0
  {
    if es != [] {
      AllVerifiedNoFailures(hash, blobs, Front(es));
      StepFailures(hash, Run(hash, Start(blobs), Front(es)), Last(es));
    }
  }

  lemma StepFailures(hash: Hash, s: State, e: Event)
    requires e.Receive? ==> Verified(hash, e.env)
    ensures Failures(Step(hash, s, e)) == Failures(s)
  {
  }

  /** When every blob verifies, the buffer never holds one id twice. */
  lemma BufferedIdsDistinct(hash: Hash, blobs: map<string, Bytes>, es: seq<Event>)
    requires forall k :: 0 <= k < |es| && es[k].Receive? ==> Verified(hash, es[k].env)
    ensures IdsDistinct(Run(hash, Start(blobs), es).buffer)
  {
    AllVerifiedNoFailures(hash, blobs, es);
    FewFailuresDistinct(hash, blobs, es);
  }

  // ---- which receipt brings an id back ----

  /** The message verifies, its id has left the dedupe window, and an item that stays buffered has it. */
  predicate BringsBack(hash: Hash, s: State, env: Envelope) {
    && Verified(hash, env)
    && env.id !in Newest(s.accepted, DEDUPE_CAP)
    && exists k :: 0 <= k < |s.buffer| && |s.buffer| - k < BUFFER_CAP && s.buffer[k].env.id == env.id
  }

  lemma PushedBuffer(hash: Hash, s: State, env: Envelope, i: nat)
    requires Verified(hash, env) && env.id !in Newest(s.accepted, DEDUPE_CAP)
    requires i < |Ingested(hash, s, env).buffer|
    ensures
      var b := Ingested(hash, s, env).buffer;
      var skip := |s.buffer| + 1 - |b|;
      && skip == (if |s.buffer| < BUFFER_CAP then 0 else |s.buffer| + 1 - BUFFER_CAP)
      && b[i] == if i == |b| - 1 then ItemOf(env) else s.buffer[skip + i]
  {
    var pushed := s.buffer + [ItemOf(env)];
    assert Ingested(hash, s, env).buffer == Newest(pushed, BUFFER_CAP);
  }

  lemma BroughtBack(hash: Hash, s: State, env: Envelope)
    requires BringsBack(hash, s, env)
    ensures !IdsDistinct(Ingested(hash, s, env).buffer)
  {
    var k :| 0 <= k < |s.buffer| && |s.buffer| - k < BUFFER_CAP && s.buffer[k].env.id == env.id;
    var b := Ingested(hash, s, env).buffer;
    var skip := |s.buffer| + 1 - |b|;
    PushedBuffer(hash, s, env, |b| - 1);
    PushedBuffer(hash, s, env, k - skip);
    assert b[k - skip].env.id == b[|b| - 1].env.id;
  }

  lemma NotBroughtBack(hash: Hash, s: State, env: Envelope)
    requires IdsDistinct(s.buffer) && !BringsBack(hash, s, env)
    requires Verified(hash, env) && env.id !in Newest(s.accepted, DEDUPE_CAP)
    ensures IdsDistinct(Ingested(hash, s, env).buffer)
  {
    var b := Ingested(hash, s, env).buffer;
    forall i, j | 0 <= i < j < |b| ensures b[i].env.id != b[j].env.id {
      PushedBuffer(hash, s, env, i);
      PushedBuffer(hash, s, env, j);
    }
  }

  /** In any state whose buffer holds every id once: a receipt ends that if and only if it brings an id back. */
  lemma RepeatIff(hash: Hash, s: State, env: Envelope)
    requires IdsDistinct(s.buffer)
    ensures IdsDistinct(Ingested(hash, s, env).buffer) <==> !BringsBack(hash, s, env)
  {
    if BringsBack(hash, s, env) {
      BroughtBack(hash, s, env);
    } else if Verified(hash, env) && env.id !in Newest(s.accepted, DEDUPE_CAP) {
      NotBroughtBack(hash, s, env);
    }
  }

  ghost predicate AlwaysDistinct(hash: Hash, blobs: map<string, Bytes>, es: seq<Event>) {
    IdsDistinct(Run(hash, Start(blobs), es).buffer) && (es == [] || AlwaysDistinct(hash, blobs, Front(es)))
  }

  ghost predicate NeverBringsBack(hash: Hash, blobs: map<string, Bytes>, es: seq<Event>) {
    es == []
    || (&& NeverBringsBack(hash, blobs, Front(es))
        && (Last(es).Receive? ==> !BringsBack(hash, Run(hash, Start(blobs), Front(es)), Last(es).env)))
  }

  /** A run's buffer holds every id once at all times if and only if no receipt in it brings an id back. */
  lemma {:induction false} AlwaysDistinctIff(hash: Hash, blobs: map<string, Bytes>, es: seq<Event>)
    ensures AlwaysDistinct(hash, blobs, es) <==> NeverBringsBack(hash, blobs, es)
  {
    if es != [] {
      AlwaysDistinctIff(hash, blobs, Front(es));
      var s := Run(hash, Start(blobs), Front(es));
      if AlwaysDistinct(hash, blobs, Front(es)) && Last(es).Receive? {
        RepeatIff(hash, s, Last(es).env);
      }
    }
  }

  // ---- a flood of failing files ----

  /** Message `i` of a flood: a text, or a file without a blob reference, which never verifies. */
  function FloodEnv(texts: nat, i: nat): Envelope {
    Envelope(Decimal(i), if i < texts then Text else File, "", None, [])
  }

  /** The first `n` messages of a flood. */
  function Flood(texts: nat, n: nat): seq<Event> {
    if n == 0 then [] else Flood(texts, n - 1) + [Receive(FloodEnv(texts, n - 1))]
  }

  function FloodText(i: nat): Item {
    Item(Envelope(Decimal(i), Text, "", None, []), None)
  }

  lemma WindowAt(n: nat, k: nat)
    requires k < |Newest(Table(Decimal, n), DEDUPE_CAP)|
    ensures
      var window := Newest(Table(Decimal, n), DEDUPE_CAP);
      |window| <= n && window[k] == Decimal(n - |window| + k)
  {
  }

  lemma DecimalsDiffer(a: nat, b: nat)
    requires a != b
    ensures Decimal(a) != Decimal(b)
  {
    if Decimal(a) == Decimal(b) {
      DecimalInjective(a, b);
    }
  }

  lemma DecimalInWindow(n: nat, i: nat)
    ensures Decimal(i) in Newest(Table(Decimal, n), DEDUPE_CAP) <==> i < n && i + DEDUPE_CAP >= n
  {
    var window := Newest(Table(Decimal, n), DEDUPE_CAP);
    var skip := n - |window|;
    if i < n && i + DEDUPE_CAP >= n {
      WindowAt(n, i - skip);
    } else {
      forall k | 0 <= k < |window| ensures window[k] != Decimal(i) {
        WindowAt(n, k);
        DecimalsDiffer(skip + k, i);
      }
    }
  }

  function Least(a: nat, b: nat): nat {
    if a < b then a else b
  }

  /** What a flood of fewer than 64 texts leaves: all ids accepted, the texts buffered. */
  ghost predicate Flooded(s: State, texts: nat, n: nat) {
    && s.accepted == Table(Decimal, n)
    && s.buffer == Table(FloodText, Least(texts, n)) && |s.history| == Least(texts, n)
  }

  lemma FloodStep(hash: Hash, s: State, texts: nat, n: nat)
    requires texts < BUFFER_CAP && Flooded(s, texts, n)
    ensures Flooded(Ingested(hash, s, FloodEnv(texts, n)), texts, n + 1)
  {
    DecimalInWindow(n, n);
    TablePush(Decimal, n);
    if n < texts {
      TablePush(FloodText, n);
      assert ItemOf(FloodEnv(texts, n)) == FloodText(n);
    }
  }

  lemma {:induction false} FloodState(hash: Hash, texts: nat, n: nat)
    requires texts < BUFFER_CAP
    ensures Flooded(Run(hash, Start(map[]), Flood(texts, n)), texts, n)
  {
    if n > 0 {
      FloodState(hash, texts, n - 1);
      assert Front(Flood(texts, n)) == Flood(texts, n - 1);
      FloodStep(hash, Run(hash, Start(map[]), Flood(texts, n - 1)), texts, n - 1);
    }
  }

  lemma FloodAgain(hash: Hash, s: State, texts: nat, n: nat)
    requires 1 <= texts < BUFFER_CAP && texts <= n && Flooded(s, texts, n)
    ensures
      var r := Ingested(hash, s, FloodEnv(texts, 0));
      && r.buffer == Table(FloodText, texts) + (if n > DEDUPE_CAP then [FloodText(0)] else [])
      && Failures(r) == n - texts
  {
    DecimalInWindow(n, 0);
    assert ItemOf(FloodEnv(texts, 0)) == FloodText(0);
    assert |Table(FloodText, texts) + [FloodText(0)]| <= BUFFER_CAP;
    assert Table(FloodText, texts) + [] == Table(FloodText, texts);
  }

  /** The first text of a flood arrives again: it is buffered twice if and only if over 4096 messages came. */
  lemma FloodRepeatsIff(hash: Hash, texts: nat, n: nat)
    requires 1 <= texts < BUFFER_CAP && texts <= n
    ensures
      var s := Run(hash, Start(map[]), Flood(texts, n) + [Receive(FloodEnv(texts, 0))]);
      && s.buffer == Table(FloodText, texts) + (if n > DEDUPE_CAP then [FloodText(0)] else [])
      && Failures(s) == n - texts
  {
    assert Front(Flood(texts, n) + [Receive(FloodEnv(texts, 0))]) == Flood(texts, n);
    FloodState(hash, texts, n);
    FloodAgain(hash, Run(hash, Start(map[]), Flood(texts, n)), texts, n);
  }

  /** Every run with at most `m` failures has its buffered ids distinct. */
  ghost predicate DistinctUpTo(hash: Hash, m: nat) {
    forall blobs, es ::
      Failures(Run(hash, Start(blobs), es)) <= m ==> IdsDistinct(Run(hash, Start(blobs), es).buffer)
  }

  /** The bound is exact: up to 4033 failures no run repeats a buffered id, and with 4034 one does. */
  lemma DistinctUpToIff(hash: Hash, m: nat)
    ensures DistinctUpTo(hash, m) <==> m < FAILURES_TO_REPEAT
  {
    if m < FAILURES_TO_REPEAT {
      forall blobs, es | Failures(Run(hash, Start(blobs), es)) <= m
        ensures IdsDistinct(Run(hash, Start(blobs), es).buffer)
      {
        FewFailuresDistinct(hash, blobs, es);
      }
    } else {
      var n := BUFFER_CAP - 1 + FAILURES_TO_REPEAT;
      FloodRepeatsIff(hash, BUFFER_CAP - 1, n);
      var s := Run(hash, Start(map[]), Flood(BUFFER_CAP - 1, n) + [Receive(FloodEnv(BUFFER_CAP - 1, 0))]);
      assert s.buffer[0] == s.buffer[BUFFER_CAP - 1];
    }
  }

  // ---- the daemon object ----

  /** matchesKind: an unknown kind, "file" among them, matches everything. */
  predicate Matches(item: Item, kind: string) {
    if kind == "" || kind == "any" then true
    else if kind == "text" then item.env.kind == Text
    else if kind == "image" then item.env.kind == Image
    else true
  }

  /** `r` is the newest item of `buffer` that `want` selects, or nothing when it selects none. */
  ghost predicate NewestMatch(buffer: seq<Item>, want: Item -> bool, r: Option<Item>) {
    if r.None? then forall i :: 0 <= i < |buffer| ==> !want(buffer[i])
    else exists i :: NewestAt(buffer, want, i) && buffer[i] == r.value
  }

  ghost predicate NewestAt(buffer: seq<Item>, want: Item -> bool, i: int) {
    0 <= i < |buffer| && want(buffer[i]) && forall j :: i < j < |buffer| ==> !want(buffer[j])
  }

  class Daemon {
    const hash: Hash
    var dedupe: IdSet
    var buffer: seq<Item>
    var blobs: map<string, Bytes>
    var subs: map<nat, Subscriber>
    ghost var history: seq<Item>
    ghost var cleared: nat
    ghost var at: seq<nat>

    ghost predicate Valid()
      reads this, dedupe
    {
      dedupe.Valid() && dedupe.cap == DEDUPE_CAP
    }

    ghost function Model(): State
      reads this, dedupe
    {
      State(Accepted(dedupe.cap, dedupe.calls), buffer, blobs, subs, history, cleared, at)
    }

    constructor (hash: Hash, blobs: map<string, Bytes>)
      ensures Valid() && fresh(dedupe) && this.hash == hash && Model() == Start(blobs)
    {
      this.hash := hash;
      dedupe := new IdSet(DEDUPE_CAP);
      buffer, subs, this.blobs := [], map[], blobs;
      history, cleared, at := [], 0, [];
    }

    method Receive(env: Envelope)
      requires Valid()
      modifies this`buffer, this`blobs, this`subs, this`history, this`at, dedupe
      ensures Valid() && dedupe == old(dedupe)
      ensures Model() == Ingested(hash, old(Model()), env)
    {
      assert Front(dedupe.calls + [env.id]) == dedupe.calls;
      var dup := dedupe.Seen(env.id);
      if dup {
        return;
      }
      assert Model() == old(Model()).(accepted := old(Model()).accepted + [env.id]);
      Process(env);
    }

    method Process(env: Envelope)
      requires Valid() && Model().accepted != []
      modifies this`buffer, this`blobs, this`subs, this`history, this`at
      ensures Model() == Processed(hash, old(Model()), env)
    {
      var ok, path := Materialize(env);
      if !ok {
        return;
      }
      var item := Item(env, path);
      assert item == ItemOf(env);
      Push(item);
      Notify(item);
      at := at + [|Model().accepted| - 1];
      history := history + [item];
    }

    /** An image or file is verified against its address and written to the cache. */
    method Materialize(env: Envelope) returns (ok: bool, path: Option<string>)
      modifies this`blobs
      ensures ok == Verified(hash, env) && (ok ==> Item(env, path) == ItemOf(env))
      ensures blobs == if ok && env.kind != Text then old(blobs)[BlobName(env) := env.data] else old(blobs)
    {
      path := None;
      if env.kind == Image || env.kind == File {
        if env.blob.None? || hash(env.data) != env.blob.value {
          return false, None;
        }
        var name := env.blob.value + (if env.kind == Image then ".png" else DedupPath.Ext(env.filename));
        blobs := blobs[name := env.data];
        path := Some(name);
      }
      ok := true;
    }

    method Push(item: Item)
      modifies this`buffer
      ensures buffer == Newest(old(buffer) + [item], BUFFER_CAP)
    {
      buffer := buffer + [item];
      if |buffer| > BUFFER_CAP {
        buffer := buffer[|buffer| - BUFFER_CAP..];
      }
    }

    /** Offers the item to one subscriber after another. */
    method Notify(item: Item)
      modifies this`subs
      ensures subs == OfferedAll(old(subs), item)
    {
      ghost var subs0 := subs;
      var todo := subs.Keys;
      while todo != {}
        invariant todo <= subs0.Keys && subs.Keys == subs0.Keys
        invariant forall k :: k in subs0 ==>
          subs[k] == if k in todo then subs0[k] else Offered(subs0[k], item)
        decreases |todo|
      {
        var k :| k in todo;
        if |subs[k].queue| < CHANNEL_CAP {
          subs := subs[k := subs[k].(queue := subs[k].queue + [item])];
        }
        todo := todo - {k};
      }
    }

    method Clear()
      modifies this`buffer, this`blobs, this`cleared
      ensures Model() == Step(hash, old(Model()), ClearTransient)
    {
      buffer, blobs := [], map[];
      cleared := |history|;
    }

    /** The newest buffered item of the kind, if there is one. */
    method Latest(kind: string) returns (r: Option<Item>)
      ensures NewestMatch(buffer, (item: Item) => Matches(item, kind), r)
    {
      var i := |buffer| - 1;
      while i >= 0
        invariant -1 <= i < |buffer|
        invariant forall j :: i < j < |buffer| ==> !Matches(buffer[j], kind)
      {
        if Matches(buffer[i], kind) {
          assert NewestAt(buffer, (item: Item) => Matches(item, kind), i);
          return Some(buffer[i]);
        }
        i := i - 1;
      }
      return None;
    }

    /** The newest buffered item with the id, if there is one. */
    method FindById(id: string) returns (r: Option<Item>)
      ensures NewestMatch(buffer, (item: Item) => item.env.id == id, r)
    {
      var i := |buffer| - 1;
      while i >= 0
        invariant -1 <= i < |buffer|
        invariant forall j :: i < j < |buffer| ==> buffer[j].env.id != id
      {
        if buffer[i].env.id == id {
          assert NewestAt(buffer, (item: Item) => item.env.id == id, i);
          return Some(buffer[i]);
        }
        i := i - 1;
      }
      return None;
    }
  }
}
