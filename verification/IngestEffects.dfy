/**
 * What a receipt does, said by its contents: which messages become items, where their bytes go, and
 * which subscriber is given which item.
 */
module IngestEffects {
  import opened Util
  import opened Items
  import opened Ingest
  import DedupPath

  // ---- what becomes an item ----

  /** The message is new to the last 4096 accepted ids. */
  predicate IsNew(s: State, env: Envelope) {
    env.id !in Newest(s.accepted, 4096)
  }

  /** A text, or a blob whose bytes hash to the address it came with. */
  predicate IsGood(hash: Hash, env: Envelope) {
    match env.kind
    case Text => true
    case _ => env.blob.Some? && env.blob.value == hash(env.data)
  }

  /** Where the bytes of an image or a file go. */
  function CacheName(hash: Hash, env: Envelope): string {
    hash(env.data) + if env.kind == Image then ['.', 'p', 'n', 'g'] else DedupPath.Ext(env.filename)
  }

  /** The item of a good message: its envelope, and where its bytes are, if it has any. */
  function GoodItem(hash: Hash, env: Envelope): Item {
    Item(env, if env.kind == Text then None else Some(CacheName(hash, env)))
  }

  /**
   * A message is accepted if and only if it is new, and becomes the newest item if and only if it is
   * also good; only then its bytes are cached, under their hash, and nothing else is.
   */
  lemma ReceiptMakesItemIff(hash: Hash, s: State, env: Envelope)
    ensures
      var t := Step(hash, s, Receive(env));
      && t.accepted == (if IsNew(s, env) then s.accepted + [env.id] else s.accepted)
      && t.history == (if IsNew(s, env) && IsGood(hash, env) then s.history + [GoodItem(hash, env)] else s.history)
      && t.blobs == (if IsNew(s, env) && IsGood(hash, env) && env.kind != Text
                     then s.blobs[CacheName(hash, env) := env.data] else s.blobs)
      && t.buffer == (if IsNew(s, env) && IsGood(hash, env)
                      then Newest(s.buffer + [GoodItem(hash, env)], 64) else s.buffer)
      && t.cleared == s.cleared && t.subs.Keys == s.subs.Keys
  {
  }

  /** Which items a request for a kind is about: its own kind for text and image, every item otherwise. */
  lemma KindsSelect(item: Item, kind: string)
    ensures Matches(item, kind) <==>
      match kind
      case "text" => item.env.kind.Text?
      case "image" => item.env.kind.Image?
      case _ => true
  {
  }

  // ---- clearing ----

  ghost predicate NoClears(es: seq<Event>) {
    forall i :: 0 <= i < |es| ==> !es[i].ClearTransient?
  }

  lemma RunPush(hash: Hash, s: State, es: seq<Event>, e: Event)
    ensures Run(hash, s, es + [e]) == Step(hash, Run(hash, s, es), e)
  {
    assert Front(es + [e]) == es;
  }

  lemma {:induction false} ClearedStays(hash: Hash, s: State, es: seq<Event>)
    requires NoClears(es)
    ensures Run(hash, s, es).cleared == s.cleared && s.history <= Run(hash, s, es).history
  {
    if |es| > 0 {
      ClearedStays(hash, s, Front(es));
      assert !es[|es| - 1].ClearTransient?;
      StepExtends(hash, Run(hash, s, Front(es)), Last(es));
    }
  }

  lemma StepExtends(hash: Hash, s: State, e: Event)
    ensures s.history <= Step(hash, s, e).history
    ensures !e.ClearTransient? ==> Step(hash, s, e).cleared == s.cleared
  {
  }

  lemma {:induction false} RunConcat(hash: Hash, s: State, es: seq<Event>, fs: seq<Event>)
    ensures Run(hash, s, es + fs) == Run(hash, Run(hash, s, es), fs)
  {
    if |fs| == 0 {
      assert es + fs == es;
    } else {
      RunConcat(hash, s, es, Front(fs));
      assert Front(es + fs) == es + Front(fs) && Last(es + fs) == Last(fs);
    }
  }

  /**
   * A clear, at any time of any run, empties the buffer and the cache; what is buffered afterwards is
   * the newest 64 of the items that came after it.
   */
  lemma BufferSinceClear(hash: Hash, blobs: map<string, Bytes>, es: seq<Event>, fs: seq<Event>)
    requires NoClears(fs)
    ensures
      var at := Run(hash, Start(blobs), es);
      var cleared := Run(hash, Start(blobs), es + [ClearTransient]);
      var r := Run(hash, Start(blobs), es + [ClearTransient] + fs);
      && |cleared.buffer| == 0 && |cleared.blobs| == 0 && cleared.history == at.history
      && at.history <= r.history && r.buffer == Newest(r.history[|at.history|..], 64)
  {
    RunPush(hash, Start(blobs), es, ClearTransient);
    RunConcat(hash, Start(blobs), es + [ClearTransient], fs);
    ClearedStays(hash, Run(hash, Start(blobs), es + [ClearTransient]), fs);
    BufferRefinesHistory(hash, blobs, es + [ClearTransient] + fs);
  }

  // ---- who is given what ----

  /**
   * Along a run, for subscriber `k`: the places in the history of the items that came when its queue
   * had fewer than 16, those that came when it had 16, and how many it took out.
   */
  datatype Trace = Trace(given: seq<nat>, missed: seq<nat>, takes: nat)

  const NO_TRACE := Trace([], [], 0)

  function TraceStep(tr: Trace, s: State, t: State, e: Event, k: nat): Trace {
    match e
    case Receive(env) =>
      if k !in s.subs || |t.history| == |s.history| then tr
      else if |s.subs[k].queue| < 16 then tr.(given := tr.given + [|s.history|])
      else tr.(missed := tr.missed + [|s.history|])
    case Take(j) => if j == k && k in s.subs && |s.subs[k].queue| >= 1 then tr.(takes := tr.takes + 1) else tr
    case Subscribe(j) => if j == k && k !in s.subs then NO_TRACE else tr
    case Unsubscribe(j) => if j == k then NO_TRACE else tr
    case ClearTransient => tr
  }

  function TraceOf(hash: Hash, blobs: map<string, Bytes>, es: seq<Event>, k: nat): Trace {
    if |es| == 0 then NO_TRACE
    else TraceStep(TraceOf(hash, blobs, Front(es), k), Run(hash, Start(blobs), Front(es)),
                   Run(hash, Start(blobs), es), Last(es), k)
  }

  ghost predicate Increasing(xs: seq<nat>) {
    forall i, j :: 0 <= i < j < |xs| ==> xs[i] < xs[j]
  }

  /** Each item since the subscription is given or missed, in order, and never both. */
  ghost predicate Accounted(history: seq<Item>, sub: Subscriber, tr: Trace) {
    && sub.since <= |history|
    && Increasing(tr.given) && Increasing(tr.missed)
    && (forall i :: i in tr.given || i in tr.missed <==> sub.since <= i < |history|)
    && (forall i :: i in tr.given ==> i !in tr.missed)
    && |sub.taken + sub.queue| == |tr.given|
    && (forall i :: 0 <= i < |tr.given| ==>
         tr.given[i] < |history| && (sub.taken + sub.queue)[i] == history[tr.given[i]])
    && |sub.taken| == tr.takes
    && (|tr.missed| == 0 ==> sub.taken + sub.queue == history[sub.since..])
  }

  lemma AccountGiven(history: seq<Item>, sub: Subscriber, tr: Trace, item: Item)
    requires Accounted(history, sub, tr)
    ensures Accounted(history + [item], sub.(queue := sub.queue + [item]), tr.(given := tr.given + [|history|]))
  {
    var got, more := sub.taken + sub.queue, sub.taken + (sub.queue + [item]);
    assert more == got + [item];
    assert (history + [item])[sub.since..] == history[sub.since..] + [item];
    var given := tr.given + [|history|];
    forall i | 0 <= i < |given| ensures given[i] < |history| + 1 && more[i] == (history + [item])[given[i]] {
      assert i < |tr.given| ==> more[i] == got[i];
    }
    forall i, j | 0 <= i < j < |given| ensures given[i] < given[j] {
      assert tr.given[i] in tr.given;
    }
  }

  lemma AccountMissed(history: seq<Item>, sub: Subscriber, tr: Trace, item: Item)
    requires Accounted(history, sub, tr)
    ensures Accounted(history + [item], sub, tr.(missed := tr.missed + [|history|]))
  {
    var missed := tr.missed + [|history|];
    forall i, j | 0 <= i < j < |missed| ensures missed[i] < missed[j] {
      assert tr.missed[i] in tr.missed;
    }
  }

  lemma AccountTaken(history: seq<Item>, sub: Subscriber, tr: Trace)
    requires Accounted(history, sub, tr) && |sub.queue| >= 1
    ensures Accounted(history, sub.(queue := sub.queue[1..], taken := sub.taken + [sub.queue[0]]),
                      tr.(takes := tr.takes + 1))
  {
    assert (sub.taken + [sub.queue[0]]) + sub.queue[1..] == sub.taken + sub.queue;
  }

  /** What one receipt does to one subscriber. */
  lemma ReceiptForSubscriber(hash: Hash, s: State, env: Envelope, k: nat)
    requires k in s.subs
    ensures
      var t := Step(hash, s, Receive(env));
      k in t.subs
      && if |t.history| == |s.history| then t.history == s.history && t.subs[k] == s.subs[k]
         else
           && t.history == s.history + [GoodItem(hash, env)]
           && t.subs[k] == (if |s.subs[k].queue| < 16
                            then s.subs[k].(queue := s.subs[k].queue + [GoodItem(hash, env)]) else s.subs[k])
  {
  }

  lemma StepAccounts(hash: Hash, s: State, e: Event, tr: Trace, k: nat)
    requires k in s.subs ==> Accounted(s.history, s.subs[k], tr)
    requires k in Step(hash, s, e).subs
    ensures
      var t := Step(hash, s, e);
      Accounted(t.history, t.subs[k], TraceStep(tr, s, t, e, k))
  {
    var t := Step(hash, s, e);
    if e.Receive? {
      ReceiptForSubscriber(hash, s, e.env, k);
      if |t.history| != |s.history| {
        if |s.subs[k].queue| < 16 {
          AccountGiven(s.history, s.subs[k], tr, GoodItem(hash, e.env));
        } else {
          AccountMissed(s.history, s.subs[k], tr, GoodItem(hash, e.env));
        }
      }
    } else if e == Take(k) && |s.subs[k].queue| >= 1 {
      AccountTaken(s.history, s.subs[k], tr);
    }
  }

  /**
   * Over every run: each item that came since a subscription was given to the subscriber, or found 16
   * items in its queue, and never both; what it took and has queued is exactly what it was given, in
   * order, and it took the oldest ones.
   */
  lemma {:induction false} EveryItemAccounted(hash: Hash, blobs: map<string, Bytes>, es: seq<Event>, k: nat)
    requires k in Run(hash, Start(blobs), es).subs
    ensures
      var s := Run(hash, Start(blobs), es);
      Accounted(s.history, s.subs[k], TraceOf(hash, blobs, es, k))
  {
    if |es| > 0 {
      var s := Run(hash, Start(blobs), Front(es));
      if k in s.subs {
        EveryItemAccounted(hash, blobs, Front(es), k);
      }
      StepAccounts(hash, s, Last(es), TraceOf(hash, blobs, Front(es), k), k);
    }
  }

  /** A subscriber that never had a full queue has got everything since its subscription, in order. */
  lemma NeverFullGetsAll(hash: Hash, blobs: map<string, Bytes>, es: seq<Event>, k: nat)
    requires k in Run(hash, Start(blobs), es).subs && |TraceOf(hash, blobs, es, k).missed| == 0
    ensures
      var s := Run(hash, Start(blobs), es);
      var sub := s.subs[k];
      sub.since <= |s.history| && sub.taken + sub.queue == s.history[sub.since..]
  {
    EveryItemAccounted(hash, blobs, es, k);
  }

  /** A subscription starts with nothing, from the items to come. */
  lemma SubscriptionStarts(hash: Hash, s: State, k: nat)
    requires k !in s.subs
    ensures
      var t := Step(hash, s, Subscribe(k));
      k in t.subs && t.subs[k].since == |s.history| && |t.subs[k].queue| == 0 && |t.subs[k].taken| == 0
    ensures k !in Step(hash, Step(hash, s, Subscribe(k)), Unsubscribe(k)).subs
  {
  }
}
