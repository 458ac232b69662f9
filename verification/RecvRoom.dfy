/**
 * The same request at the room daemon, which looks at its buffer first and subscribes afterwards. An
 * item is pushed and the subscribed channels are noted in one critical section; the channels are
 * served later, one by one. What the request can miss is characterised exactly.
 */
module RecvRoom {
  import opened Util
  import opened Items
  import R = RecvLatest

  /** Items are numbered in the order they are pushed. */
  type Item = nat
  type Req = nat

  const BUFFER_CAP := 64
  const CHANNEL_CAP := 16

  /**
   * `at` and `since` are how many items had been pushed at the look into the buffer and at the
   * subscription; `dropped` are the items that found the channel full.
   */
  datatype Request =
    | Asked(want: R.Want)
    | Checked(want: R.Want, at: nat)
    | Waiting(want: R.Want, at: nat, since: nat, queue: seq<Item>, dropped: set<Item>)
    | Answered(item: Item)

  /** `sends` holds, per item, the noted channels it has still to be offered to. */
  datatype State = State(
    pushed: seq<Kind>, buffer: seq<Item>, sends: map<Item, set<Req>>, requests: map<Req, Request>)

  datatype Step =
    | Ingest(kind: Kind)
    | Offer(t: Item, r: Req)
    | Clear
    | Ask(r: Req, want: R.Want)
    | Check(r: Req)
    | Subscribe(r: Req)
    | Take(r: Req)

  predicate Wanted(s: State, want: R.Want, t: Item) {
    t < |s.pushed| && R.Matches(want, s.pushed[t])
  }

  function Subscribers(s: State): set<Req> {
    set r | r in s.requests && s.requests[r].Waiting?
  }

  /** `latest`: the newest buffered item that the request wants. */
  function Latest(s: State, want: R.Want, n: nat): (r: Option<Item>)
    requires n <= |s.buffer|
    ensures r.None? ==> forall i :: 0 <= i < n ==> !Wanted(s, want, s.buffer[i])
  {
    if n == 0 then None
    else if Wanted(s, want, s.buffer[n - 1]) then Some(s.buffer[n - 1])
    else Latest(s, want, n - 1)
  }

  predicate Enabled(s: State, e: Step) {
    match e
    case Ingest(kind) => true
    case Offer(t, r) => t in s.sends && r in s.sends[t] && r in s.requests
    case Clear => true
    case Ask(r, want) => r !in s.requests
    case Check(r) => r in s.requests && s.requests[r].Asked?
    case Subscribe(r) => r in s.requests && s.requests[r].Checked?
    case Take(r) => r in s.requests && s.requests[r].Waiting? && |s.requests[r].queue| >= 1
  }

  /** A non-blocking send; the channel of an answered request is not read any more. */
  function Offered(q: Request, t: Item): Request {
    if !q.Waiting? then q
    else if |q.queue| < CHANNEL_CAP then q.(queue := q.queue + [t])
    else q.(dropped := q.dropped + {t})
  }

  function Next(s: State, e: Step): State
    requires Enabled(s, e)
  {
    match e
    case Ingest(kind) =>
      var t := |s.pushed|;
      s.(pushed := s.pushed + [kind], buffer := Newest(s.buffer + [t], BUFFER_CAP),
         sends := s.sends[t := Subscribers(s)])
    case Offer(t, r) =>
      s.(sends := s.sends[t := s.sends[t] - {r}], requests := s.requests[r := Offered(s.requests[r], t)])
    case Clear => s.(buffer := [])
    case Ask(r, want) => s.(requests := s.requests[r := Asked(want)])
    case Check(r) =>
      var want := s.requests[r].want;
      var found := Latest(s, want, |s.buffer|);
      s.(requests := s.requests[r := if found.Some? then Answered(found.value) else Checked(want, |s.pushed|)])
    case Subscribe(r) =>
      var q := s.requests[r];
      s.(requests := s.requests[r := Waiting(q.want, q.at, |s.pushed|, [], {})])
    case Take(r) =>
      var q := s.requests[r];
      s.(requests := s.requests[r :=
        if Wanted(s, q.want, q.queue[0]) then Answered(q.queue[0]) else q.(queue := q.queue[1..])])
  }

  const Start := State([], [], map[], map[])

  /** A run; a step that is not enabled when its turn comes is skipped. */
  function Run(es: seq<Step>): State {
    if |es| == 0 then Start
    else
      var s := Run(Front(es));
      if Enabled(s, Last(es)) then Next(s, Last(es)) else s
  }

  // ---- what holds at every moment ----

  /** The item has still to be offered to the request. */
  predicate Pending(s: State, r: Req, t: Item) {
    t in s.sends && r in s.sends[t]
  }

  /** The item will reach the request, or waits in its channel. */
  predicate Outstanding(s: State, r: Req, t: Item)
    requires r in s.requests && s.requests[r].Waiting?
  {
    Pending(s, r, t) || t in s.requests[r].queue
  }

  /** Every wanted item in the buffer was pushed after the request had looked. */
  ghost predicate NothingEarlier(s: State, want: R.Want, at: nat) {
    at <= |s.pushed| && forall t :: t in s.buffer && Wanted(s, want, t) ==> at <= t
  }

  ghost predicate NumbersOk(s: State) {
    && (forall t :: t in s.buffer ==> t < |s.pushed|)
    && (forall t :: t in s.sends ==> t < |s.pushed|)
    && (forall t, r :: Pending(s, r, t) ==> r in s.requests && (s.requests[r].Waiting? || s.requests[r].Answered?))
  }

  /** Items from the subscription on are pending, queued or dropped, each in one place; earlier ones nowhere. */
  ghost predicate WaiterOk(s: State, r: Req)
    requires r in s.requests && s.requests[r].Waiting?
  {
    var q := s.requests[r];
    && q.at <= q.since <= |s.pushed| && NothingEarlier(s, q.want, q.at)
    && (forall t: Item :: Outstanding(s, r, t) || t in q.dropped ==> q.since <= t < |s.pushed|)
    && (forall t: Item :: q.since <= t && Wanted(s, q.want, t) ==> Outstanding(s, r, t) || t in q.dropped)
    && (forall t :: t in q.dropped ==> !Outstanding(s, r, t))
    && (forall t: Item :: Pending(s, r, t) ==> t !in q.queue)
  }

  ghost predicate RequestOk(s: State, r: Req)
    requires r in s.requests
  {
    match s.requests[r]
    case Checked(want, at) => NothingEarlier(s, want, at)
    case Waiting(_, _, _, _, _) => WaiterOk(s, r)
    case _ => true
  }

  ghost predicate Inv(s: State) {
    NumbersOk(s) && forall r :: r in s.requests ==> RequestOk(s, r)
  }

  lemma NumbersKeep(s: State, e: Step)
    requires NumbersOk(s) && Enabled(s, e)
    ensures NumbersOk(Next(s, e))
  {
    var k := Next(s, e);
    forall t | t in k.buffer ensures t < |k.pushed| {
      assert t in s.buffer || (e.Ingest? && t == |s.pushed|);
    }
    forall t, r | Pending(k, r, t)
      ensures r in k.requests && (k.requests[r].Waiting? || k.requests[r].Answered?)
    {
      assert Pending(s, r, t) || (e.Ingest? && t == |s.pushed| && r in Subscribers(s));
    }
  }

  lemma IngestKeepsEarlier(s: State, kind: Kind, want: R.Want, at: nat)
    requires NothingEarlier(s, want, at)
    ensures NothingEarlier(Next(s, Ingest(kind)), want, at)
  {
    var k := Next(s, Ingest(kind));
    forall t | t in k.buffer && Wanted(k, want, t) ensures at <= t {
      assert t == |s.pushed| || (t in s.buffer && Wanted(s, want, t));
    }
  }

  lemma IngestKeeps(s: State, kind: Kind, r: Req)
    requires Inv(s) && r in s.requests
    ensures RequestOk(Next(s, Ingest(kind)), r)
  {
    var k, newest := Next(s, Ingest(kind)), |s.pushed|;
    assert RequestOk(s, r);
    if s.requests[r].Waiting? {
      var q := s.requests[r];
      IngestKeepsEarlier(s, kind, q.want, q.at);
      assert forall t :: Pending(k, r, t) <==> Pending(s, r, t) || t == newest;
      assert forall t :: Outstanding(k, r, t) <==> Outstanding(s, r, t) || t == newest;
      forall t: Item | q.since <= t && Wanted(k, q.want, t) ensures Outstanding(k, r, t) || t in q.dropped {
        assert t == newest || Wanted(s, q.want, t);
      }
      forall t: Item | Outstanding(k, r, t) || t in q.dropped ensures q.since <= t < |k.pushed| {
        assert t == newest || Outstanding(s, r, t) || t in q.dropped;
      }
      forall t: Item | t in q.queue ensures !Pending(k, r, t) {
        assert Outstanding(s, r, t);
      }
      forall t: Item | t in q.dropped ensures !Outstanding(k, r, t) {
        assert !Outstanding(s, r, t) && q.since <= t < newest;
      }
    } else if s.requests[r].Checked? {
      IngestKeepsEarlier(s, kind, s.requests[r].want, s.requests[r].at);
    }
  }

  lemma OfferKeeps(s: State, t: Item, r: Req, u: Req)
    requires Inv(s) && Enabled(s, Offer(t, r)) && u in s.requests
    ensures RequestOk(Next(s, Offer(t, r)), u)
  {
    var k := Next(s, Offer(t, r));
    assert RequestOk(s, u);
    assert forall x :: Pending(k, u, x) <==> Pending(s, u, x) && !(x == t && u == r);
    if k.requests[u].Waiting? {
      assert Pending(s, r, t);
      assert forall x :: Wanted(k, k.requests[u].want, x) <==> Wanted(s, s.requests[u].want, x);
      var full := u == r && |s.requests[u].queue| >= CHANNEL_CAP;
      assert forall x :: Outstanding(k, u, x) <==> Outstanding(s, u, x) && !(full && x == t);
    }
  }

  lemma CheckKeeps(s: State, r: Req)
    requires Inv(s) && Enabled(s, Check(r))
    ensures RequestOk(Next(s, Check(r)), r)
  {
    var k := Next(s, Check(r));
    if k.requests[r].Checked? {
      forall t | t in k.buffer ensures !Wanted(k, k.requests[r].want, t) {
        var i :| 0 <= i < |s.buffer| && s.buffer[i] == t;
      }
    }
  }

  lemma SubscribeKeeps(s: State, r: Req)
    requires Inv(s) && Enabled(s, Subscribe(r))
    ensures RequestOk(Next(s, Subscribe(r)), r)
    ensures forall t :: !Outstanding(Next(s, Subscribe(r)), r, t)
  {
    var k := Next(s, Subscribe(r));
    assert RequestOk(s, r);
    forall t ensures !Outstanding(k, r, t) && !Pending(k, r, t) {
      assert !Pending(s, r, t);
    }
    assert NothingEarlier(k, k.requests[r].want, k.requests[r].at) by {
      assert forall t :: Wanted(k, k.requests[r].want, t) <==> Wanted(s, s.requests[r].want, t);
    }
  }

  lemma TakeKeeps(s: State, r: Req)
    requires Inv(s) && Enabled(s, Take(r))
    ensures RequestOk(Next(s, Take(r)), r)
  {
    var k := Next(s, Take(r));
    assert RequestOk(s, r);
    if k.requests[r].Waiting? {
      var q, head := s.requests[r].queue, s.requests[r].queue[0];
      assert q == [head] + q[1..];
      assert forall x :: Wanted(k, k.requests[r].want, x) <==> Wanted(s, s.requests[r].want, x);
      assert forall x :: Pending(k, r, x) <==> Pending(s, r, x);
      assert forall x :: Outstanding(k, r, x) ==> Outstanding(s, r, x);
      assert forall x :: x != head && Outstanding(s, r, x) ==> Outstanding(k, r, x);
    }
  }

  /** A step of another request, or a clear, leaves this one as it is. */
  lemma OthersKeep(s: State, e: Step, u: Req)
    requires Inv(s) && Enabled(s, e) && u in s.requests && !e.Ingest? && !e.Offer?
    requires Next(s, e).requests[u] == s.requests[u]
    ensures RequestOk(Next(s, e), u)
  {
    var k := Next(s, e);
    assert RequestOk(s, u);
    assert k.sends == s.sends && k.pushed == s.pushed;
    if k.requests[u].Waiting? {
      assert forall x :: Wanted(k, k.requests[u].want, x) <==> Wanted(s, s.requests[u].want, x);
      assert forall x :: Pending(k, u, x) <==> Pending(s, u, x);
      assert forall x :: Outstanding(k, u, x) <==> Outstanding(s, u, x);
    } else if k.requests[u].Checked? {
      assert forall x :: Wanted(k, k.requests[u].want, x) <==> Wanted(s, s.requests[u].want, x);
    }
  }

  lemma StepKeeps(s: State, e: Step)
    requires Inv(s) && Enabled(s, e)
    ensures Inv(Next(s, e))
  {
    var k := Next(s, e);
    NumbersKeep(s, e);
    forall r | r in k.requests ensures RequestOk(k, r) {
      match e
      case Ingest(kind) => IngestKeeps(s, kind, r);
      case Offer(t, u) => OfferKeeps(s, t, u, r);
      case Check(u) => if u == r { CheckKeeps(s, r); } else { OthersKeep(s, e, r); }
      case Subscribe(u) => if u == r { SubscribeKeeps(s, r); } else { OthersKeep(s, e, r); }
      case Take(u) => if u == r { TakeKeeps(s, r); } else { OthersKeep(s, e, r); }
      case Ask(u, want) => if u != r { OthersKeep(s, e, r); }
      case Clear => OthersKeep(s, e, r);
    }
  }

  lemma {:induction false} RunKeeps(es: seq<Step>)
    ensures Inv(Run(es))
  {
    if |es| >= 1 {
      RunKeeps(Front(es));
      if Enabled(Run(Front(es)), Last(es)) {
        StepKeeps(Run(Front(es)), Last(es));
      }
    }
  }

  // ---- what can be missed ----

  /**
   * Under every interleaving: a wanted item in the buffer will not reach a waiting request if and only
   * if it was pushed between the request's look into the buffer and its subscription, or it found the
   * request's channel full.
   */
  lemma MissedIff(es: seq<Step>, r: Req, t: Item)
    requires
      var s := Run(es);
      r in s.requests && s.requests[r].Waiting? && t in s.buffer && Wanted(s, s.requests[r].want, t)
    ensures
      var s := Run(es);
      var q := s.requests[r];
      !Outstanding(s, r, t) <==> q.at <= t < q.since || t in q.dropped
  {
    RunKeeps(es);
    assert RequestOk(Run(es), r);
  }

  /**
   * At the moment of the subscription, after a fruitless look and any steps in between: the request
   * starts to wait with a wanted item in the buffer that will not reach it, if and only if a wanted
   * item that is still in the buffer was pushed between the two.
   */
  lemma SubscribeMissesIff(es: seq<Step>, r: Req)
    requires r in Run(es).requests && Run(es).requests[r].Checked?
    ensures
      var s := Run(es);
      var want, k := s.requests[r].want, Next(s, Subscribe(r));
      && k.requests[r] == Waiting(want, s.requests[r].at, |s.pushed|, [], {})
      && ((exists t :: t in k.buffer && Wanted(k, want, t) && !Outstanding(k, r, t)) <==>
            (exists t :: t in s.buffer && Wanted(s, want, t) && s.requests[r].at <= t < |s.pushed|))
  {
    RunKeeps(es);
    var s := Run(es);
    var k := Next(s, Subscribe(r));
    assert RequestOk(s, r);
    SubscribeKeeps(s, r);
    assert forall t :: Wanted(k, s.requests[r].want, t) <==> Wanted(s, s.requests[r].want, t);
  }

  /** What a waiting request misses it misses for good, whatever happens until it is answered. */
  lemma MissedForGood(es: seq<Step>, e: Step, r: Req, t: Item)
    requires
      var s := Run(es);
      && Enabled(s, e) && r in s.requests && s.requests[r].Waiting? && Next(s, e).requests[r].Waiting?
      && t < |s.pushed| && !Outstanding(s, r, t)
    ensures !Outstanding(Next(Run(es), e), r, t)
  {
    RunKeeps(es);
    var s := Run(es);
    var k := Next(s, e);
    assert Pending(k, r, t) ==> Pending(s, r, t);
  }

  /** A look, an item, and a subscription leave the request waiting with the item in the buffer. */
  lemma CheckFirstLosesWakeUp(want: R.Want, kind: Kind)
    requires R.Matches(want, kind)
    ensures
      var s := Run([Ask(0, want), Check(0), Ingest(kind), Subscribe(0)]);
      && s.requests == map[0 := Waiting(want, 0, 1, [], {})]
      && s.buffer == [0] && Wanted(s, want, 0) && !Outstanding(s, 0, 0)
  {
    var es := [Ask(0, want), Check(0), Ingest(kind), Subscribe(0)];
    assert Front(es) == es[..3] && Front(es[..3]) == es[..2] && Front(es[..2]) == es[..1] && Front(es[..1]) == [];
    assert Run(es[..1]) == State([], [], map[], map[0 := Asked(want)]);
    assert Run(es[..2]) == State([], [], map[], map[0 := Checked(want, 0)]);
    assert Subscribers(Run(es[..2])) == {};
    assert Run(es[..3]) == State([kind], [0], map[0 := {}], map[0 := Checked(want, 0)]);
  }

  // ---- buffer, channels and answers ----

  /** The steps of a run that were possible when their turn came. */
  function Done(es: seq<Step>): seq<Step> {
    if |es| == 0 then []
    else if Enabled(Run(Front(es)), Last(es)) then Done(Front(es)) + [Last(es)]
    else Done(Front(es))
  }

  /** The kinds of all items received. */
  function Kinds(steps: seq<Step>): seq<Kind> {
    if |steps| == 0 then []
    else if Last(steps).Ingest? then Kinds(Front(steps)) + [Last(steps).kind]
    else Kinds(Front(steps))
  }

  /** The items received since the last clear. */
  function SinceClear(steps: seq<Step>): seq<Item> {
    if |steps| == 0 then []
    else
      match Last(steps)
      case Ingest(kind) => SinceClear(Front(steps)) + [|Kinds(Front(steps))|]
      case Clear => []
      case _ => SinceClear(Front(steps))
  }

  /** Items are numbered as they are received, and the buffer holds the newest 64 since the last clear. */
  lemma {:induction false} BufferIsHistory(es: seq<Step>)
    ensures Run(es).pushed == Kinds(Done(es))
    ensures Run(es).buffer == Newest(SinceClear(Done(es)), 64)
  {
    if |es| >= 1 {
      BufferIsHistory(Front(es));
      if Enabled(Run(Front(es)), Last(es)) {
        var steps := Done(Front(es));
        assert Front(steps + [Last(es)]) == steps;
        if Last(es).Ingest? {
          NewestAppend(SinceClear(steps), 64, |Kinds(steps)|);
        }
      }
    }
  }

  lemma RunPush(es: seq<Step>, e: Step)
    requires Enabled(Run(es), e)
    ensures Run(es + [e]) == Next(Run(es), e)
  {
    assert Front(es + [e]) == es;
  }

  /**
   * At its turn an item goes to the end of a waiting request's channel if fewer than 16 wait there, and
   * is dropped if and only if there are 16 or more; no channel ever holds more.
   */
  lemma DroppedIffFull(es: seq<Step>, t: Item, r: Req)
    requires Enabled(Run(es), Offer(t, r)) && Run(es).requests[r].Waiting?
    ensures
      var s, k := Run(es), Run(es + [Offer(t, r)]);
      && r in k.requests && k.requests[r].Waiting?
      && (t in k.requests[r].dropped <==> |s.requests[r].queue| >= 16)
      && k.requests[r].queue == s.requests[r].queue + (if |s.requests[r].queue| < 16 then [t] else [])
      && forall u :: u != r && u in s.requests ==> u in k.requests && k.requests[u] == s.requests[u]
  {
    RunKeeps(es);
    assert RequestOk(Run(es), r);
    assert Pending(Run(es), r, t);
    RunPush(es, Offer(t, r));
  }

  /** The item at place `i` of the buffer is wanted and none behind it is. */
  ghost predicate NewestWanted(s: State, want: R.Want, i: nat) {
    i < |s.buffer| && Wanted(s, want, s.buffer[i]) && forall j :: i < j < |s.buffer| ==> !Wanted(s, want, s.buffer[j])
  }

  lemma {:induction false} LatestIsNewest(s: State, want: R.Want, n: nat, i: nat)
    requires i < n <= |s.buffer| && NewestWanted(s, want, i)
    ensures Latest(s, want, n) == Some(s.buffer[i])
    decreases n
  {
    if i < n - 1 {
      LatestIsNewest(s, want, n - 1, i);
    }
  }

  lemma {:induction false} FoundIsWanted(s: State, want: R.Want, n: nat)
    requires n <= |s.buffer| && Latest(s, want, n).Some?
    ensures exists i :: 0 <= i < n && Wanted(s, want, s.buffer[i])
  {
    if !Wanted(s, want, s.buffer[n - 1]) {
      FoundIsWanted(s, want, n - 1);
    }
  }

  lemma {:induction false} SameLatest(s: State, k: State, want: R.Want, n: nat)
    requires n <= |s.buffer| && k.buffer == s.buffer && k.pushed == s.pushed
    ensures Latest(k, want, n) == Latest(s, want, n)
  {
    if n > 0 {
      SameLatest(s, k, want, n - 1);
    }
  }

  /**
   * In every reachable state a new request is answered at once with the newest wanted item of the
   * buffer, and goes on to subscribe if and only if there is none.
   */
  lemma AskedIsAnswered(es: seq<Step>, r: Req, want: R.Want)
    requires r !in Run(es).requests
    ensures
      var s, k := Run(es), Run(es + [Ask(r, want)] + [Check(r)]);
      && r in k.requests
      && (forall i: nat :: NewestWanted(s, want, i) ==> k.requests[r] == Answered(s.buffer[i]))
      && (k.requests[r] == Checked(want, |s.pushed|) <==>
            forall i :: 0 <= i < |s.buffer| ==> !Wanted(s, want, s.buffer[i]))
  {
    var s := Run(es);
    RunPush(es, Ask(r, want));
    RunPush(es + [Ask(r, want)], Check(r));
    SameLatest(s, Run(es + [Ask(r, want)]), want, |s.buffer|);
    forall i: nat | NewestWanted(s, want, i) ensures Latest(s, want, |s.buffer|) == Some(s.buffer[i]) {
      LatestIsNewest(s, want, |s.buffer|, i);
    }
    if Latest(s, want, |s.buffer|).Some? {
      FoundIsWanted(s, want, |s.buffer|);
    }
  }

  lemma IngestPends(es: seq<Step>, kind: Kind, r: Req)
    requires r in Run(es).requests && Run(es).requests[r].Waiting?
    ensures
      var s, k := Run(es), Run(es + [Ingest(kind)]);
      && Enabled(k, Offer(|s.pushed|, r)) && k.requests == s.requests
      && forall want :: Wanted(k, want, |s.pushed|) <==> R.Matches(want, kind)
  {
    RunPush(es, Ingest(kind));
    assert r in Subscribers(Run(es));
  }

  /**
   * The next item of the right kind answers a waiting request whose channel is empty; one of another
   * kind is passed over.
   */
  lemma ArrivalAnswersIff(es: seq<Step>, r: Req, kind: Kind)
    requires r in Run(es).requests && Run(es).requests[r].Waiting? && |Run(es).requests[r].queue| == 0
    ensures
      var s := Run(es);
      var t, q := |s.pushed|, s.requests[r];
      var k := Run(es + [Ingest(kind)] + [Offer(t, r)] + [Take(r)]);
      && r in k.requests
      && k.requests[r] == if R.Matches(q.want, kind) then Answered(t) else q
  {
    var s := Run(es);
    var t, q := |s.pushed|, s.requests[r];
    var es1 := es + [Ingest(kind)];
    IngestPends(es, kind, r);
    RunPush(es1, Offer(t, r));
    var es2 := es1 + [Offer(t, r)];
    var k := Run(es2);
    assert k.requests[r] == q.(queue := [t]);
    assert Wanted(k, q.want, t) <==> Wanted(Run(es1), q.want, t);
    RunPush(es2, Take(r));
  }
}
