/**
 * Waiting for the next item without missing one. mesh-rs pushes an item into the ring and only later
 * sends its event, in many tasks at once; a request subscribes first and then looks at the ring.
 */
module RecvLatest {
  import opened Util
  import opened Items

  datatype Want = Any | OnlyText | OnlyImage

  type Task = nat
  type Req = nat

  const RING_CAP := 64

  /** An announcement being handled: its item is pushed, then its event is sent. */
  datatype Handling = Begun | Pushed | Sent

  /** Events of the broadcast channel; `Other` stands for toasts and peer changes. */
  datatype Event = ItemEvent(task: Task) | Other

  /** A request: subscribed at a place of the event log, waiting from there, or answered. */
  datatype Request =
    | Fresh(want: Want)
    | Subscribed(want: Want, pos: nat)
    | Waiting(want: Want, pos: nat)
    | Answered(item: Task)

  /** `kinds` gives each announcement's item; `ring` holds the newest items, oldest first. */
  datatype State = State(
    kinds: map<Task, Kind>, handling: map<Task, Handling>, ring: seq<Task>, log: seq<Event>,
    requests: map<Req, Request>)

  datatype Step =
    | Announce(t: Task, kind: Kind)
    | Push(t: Task)
    | Emit(t: Task)
    | Note                             // some other event is sent
    | Clear                            // clear_transient empties the ring
    | Ask(r: Req, want: Want)
    | Subscribe(r: Req)
    | Check(r: Req)
    | Receive(r: Req)                  // a waiting request takes the next event of its log

  predicate Matches(want: Want, k: Kind) {
    want == Any || (want == OnlyText && k == Text) || (want == OnlyImage && k == Image)
  }

  predicate Wanted(s: State, want: Want, t: Task) {
    t in s.kinds && Matches(want, s.kinds[t])
  }

  /** `latest`: the newest item of the ring that the request wants. */
  function Latest(s: State, want: Want, n: nat): Option<Task>
    requires n <= |s.ring|
  {
    if n == 0 then None
    else if Wanted(s, want, s.ring[n - 1]) then Some(s.ring[n - 1])
    else Latest(s, want, n - 1)
  }

  predicate Enabled(s: State, e: Step) {
    match e
    case Announce(t, kind) => t !in s.kinds && t !in s.handling
    case Push(t) => t in s.handling && s.handling[t] == Begun
    case Emit(t) => t in s.handling && s.handling[t] == Pushed
    case Note => true
    case Clear => true
    case Ask(r, want) => r !in s.requests
    case Subscribe(r) => r in s.requests && s.requests[r].Fresh?
    case Check(r) => r in s.requests && s.requests[r].Subscribed?
    case Receive(r) => r in s.requests && s.requests[r].Waiting? && s.requests[r].pos < |s.log|
  }

  function Taken(s: State, want: Want, pos: nat): Request
    requires pos < |s.log|
  {
    var ev := s.log[pos];
    if ev.ItemEvent? && Wanted(s, want, ev.task) then Answered(ev.task) else Waiting(want, pos + 1)
  }

  function Next(s: State, e: Step): State
    requires Enabled(s, e)
  {
    match e
    case Announce(t, kind) => s.(kinds := s.kinds[t := kind], handling := s.handling[t := Begun])
    case Push(t) => s.(ring := Newest(s.ring + [t], RING_CAP), handling := s.handling[t := Pushed])
    case Emit(t) => s.(log := s.log + [ItemEvent(t)], handling := s.handling[t := Sent])
    case Note => s.(log := s.log + [Other])
    case Clear => s.(ring := [])
    case Ask(r, want) => s.(requests := s.requests[r := Fresh(want)])
    case Subscribe(r) => s.(requests := s.requests[r := Subscribed(s.requests[r].want, |s.log|)])
    case Check(r) =>
      var q := s.requests[r];
      var found := Latest(s, q.want, |s.ring|);
      s.(requests := s.requests[r := if found.Some? then Answered(found.value) else Waiting(q.want, q.pos)])
    case Receive(r) =>
      s.(requests := s.requests[r := Taken(s, s.requests[r].want, s.requests[r].pos)])
  }

  const Start := State(map[], map[], [], [], map[])

  /** A run; a step that is not enabled when its turn comes is skipped. */
  function Run(es: seq<Step>): State {
    if es == [] then Start
    else
      var s := Run(Front(es));
      if Enabled(s, Last(es)) then Next(s, Last(es)) else s
  }

  // ---- what holds at every moment ----

  /** The event of item `t` is among those from place `pos` on. */
  predicate QueuedFrom(s: State, t: Task, pos: nat) {
    exists i :: pos <= i < |s.log| && s.log[i] == ItemEvent(t)
  }

  ghost predicate TasksOk(s: State) {
    && (forall t :: t in s.handling <==> t in s.kinds)
    && (forall t :: t in s.ring ==> t in s.handling && s.handling[t] != Begun)
    && (forall i :: 0 <= i < |s.log| && s.log[i].ItemEvent? ==>
         s.log[i].task in s.handling && s.handling[s.log[i].task] == Sent)
    && (forall t :: t in s.handling && s.handling[t] == Sent ==> QueuedFrom(s, t, 0))
  }

  /** A wanted item in the ring has its event still to come, or still queued for the request. */
  ghost predicate Covered(s: State, want: Want, pos: nat)
    requires forall t :: t in s.ring ==> t in s.handling
  {
    forall t :: t in s.ring && Wanted(s, want, t) ==> s.handling[t] == Pushed || QueuedFrom(s, t, pos)
  }

  ghost predicate WaitersOk(s: State)
    requires forall t :: t in s.ring ==> t in s.handling
  {
    && (forall r :: r in s.requests && s.requests[r].Subscribed? ==> s.requests[r].pos <= |s.log|)
    && (forall r :: r in s.requests && s.requests[r].Waiting? ==>
         s.requests[r].pos <= |s.log| && Covered(s, s.requests[r].want, s.requests[r].pos))
    && (forall r :: r in s.requests && s.requests[r].Answered? ==> s.requests[r].item in s.kinds)
  }

  ghost predicate Inv(s: State) {
    TasksOk(s) && WaitersOk(s)
  }

  lemma QueueGrows(s: State, k: State, ev: Event, t: Task, pos: nat)
    requires k.log == s.log + [ev] && QueuedFrom(s, t, pos)
    ensures QueuedFrom(k, t, pos)
  {
    var i :| pos <= i < |s.log| && s.log[i] == ItemEvent(t);
    assert k.log[i] == ItemEvent(t);
  }

  lemma StepKeepsTasks(s: State, e: Step)
    requires Inv(s) && Enabled(s, e)
    ensures TasksOk(Next(s, e))
  {
    var k := Next(s, e);
    if e.Emit? || e.Note? {
      forall t | t in k.handling && k.handling[t] == Sent ensures QueuedFrom(k, t, 0) {
        if e.Emit? && e.t == t {
          assert k.log[|s.log|] == ItemEvent(t);
        } else {
          QueueGrows(s, k, k.log[|s.log|], t, 0);
        }
      }
    } else {
      assert k.log == s.log;
      forall t | t in k.handling && k.handling[t] == Sent ensures QueuedFrom(k, t, 0) {
        assert QueuedFrom(s, t, 0);
      }
    }
  }

  lemma CoveredStays(s: State, e: Step, want: Want, pos: nat)
    requires Inv(s) && Enabled(s, e) && TasksOk(Next(s, e)) && pos <= |s.log| && Covered(s, want, pos)
    ensures Covered(Next(s, e), want, pos)
  {
    var k := Next(s, e);
    forall t | t in k.ring && Wanted(k, want, t) ensures k.handling[t] == Pushed || QueuedFrom(k, t, pos) {
      if e.Emit? && e.t == t {
        assert k.log[|s.log|] == ItemEvent(t);
      } else if t in s.ring {
        assert s.handling[t] == Pushed || QueuedFrom(s, t, pos);
        if QueuedFrom(s, t, pos) && (e.Emit? || e.Note?) {
          QueueGrows(s, k, k.log[|s.log|], t, pos);
        }
      }
    }
  }

  lemma NothingFound(s: State, want: Want, n: nat)
    requires n <= |s.ring|
    ensures Latest(s, want, n).None? ==> forall i :: 0 <= i < n ==> !Wanted(s, want, s.ring[i])
    ensures Latest(s, want, n).Some? ==> Latest(s, want, n).value in s.kinds
  {
    if n > 0 && !Wanted(s, want, s.ring[n - 1]) {
      NothingFound(s, want, n - 1);
    }
  }

  lemma StepKeepsWaiters(s: State, e: Step)
    requires Inv(s) && Enabled(s, e) && TasksOk(Next(s, e))
    ensures WaitersOk(Next(s, e))
  {
    var k := Next(s, e);
    forall r | r in k.requests && k.requests[r].Waiting?
      ensures k.requests[r].pos <= |k.log| && Covered(k, k.requests[r].want, k.requests[r].pos)
    {
      var q := k.requests[r];
      if e.Check? && e.r == r {
        NothingFound(s, q.want, |s.ring|);
      } else if e.Receive? && e.r == r {
        var p := s.requests[r];
        assert Covered(s, p.want, p.pos);
        forall t | t in k.ring && Wanted(k, q.want, t) ensures k.handling[t] == Pushed || QueuedFrom(k, t, q.pos) {
          if QueuedFrom(s, t, p.pos) {
            var i :| p.pos <= i < |s.log| && s.log[i] == ItemEvent(t);
            assert i != p.pos;
          }
        }
      } else {
        CoveredStays(s, e, q.want, q.pos);
      }
    }
    if e.Check? {
      NothingFound(s, s.requests[e.r].want, |s.ring|);
    }
  }

  lemma {:induction false} RunKeeps(es: seq<Step>)
    ensures Inv(Run(es))
  {
    if es != [] {
      RunKeeps(Front(es));
      if Enabled(Run(Front(es)), Last(es)) {
        StepKeepsTasks(Run(Front(es)), Last(es));
        StepKeepsWaiters(Run(Front(es)), Last(es));
      }
    }
  }

  /**
   * No lost wake-up, under every interleaving: when a request waits and no event it wants is queued
   * for it, then every item it wants that is in the ring has an event still to be sent, which the
   * request will see because it lies after its place in the log.
   */
  lemma NoLostWakeUp(es: seq<Step>, r: Req)
    requires r in Run(es).requests && Run(es).requests[r].Waiting?
    requires
      var s := Run(es);
      var q := s.requests[r];
      forall i :: q.pos <= i < |s.log| && s.log[i].ItemEvent? ==> !Wanted(s, q.want, s.log[i].task)
    ensures
      var s := Run(es);
      var q := s.requests[r];
      && q.pos <= |s.log|
      && forall t :: t in s.ring && Wanted(s, q.want, t) ==> t in s.handling && s.handling[t] == Pushed
  {
    RunKeeps(es);
  }

  /** The request's next `n` receives, one after another, stopping when it is answered. */
  function Received(s: State, want: Want, pos: nat, n: nat): Request
    requires pos + n <= |s.log|
    decreases n
  {
    if n == 0 then Waiting(want, pos)
    else
      var q := Taken(s, want, pos);
      if q.Waiting? then Received(s, want, pos + 1, n - 1) else q
  }

  /** Going through its queue, a request is answered by the first event it wants, if there is one. */
  lemma {:induction false} QueueAnswers(s: State, want: Want, pos: nat, i: nat)
    requires pos <= i < |s.log| && s.log[i].ItemEvent? && Wanted(s, want, s.log[i].task)
    requires forall j :: pos <= j < i && s.log[j].ItemEvent? ==> !Wanted(s, want, s.log[j].task)
    ensures Received(s, want, pos, |s.log| - pos) == Answered(s.log[i].task)
    decreases i - pos
  {
    if pos < i {
      QueueAnswers(s, want, pos + 1, i);
    }
  }

  // ---- ring, log and answers as history ----

  /** The steps of a run that were possible when their turn came. */
  function Done(es: seq<Step>): seq<Step> {
    if |es| == 0 then []
    else if Enabled(Run(Front(es)), Last(es)) then Done(Front(es)) + [Last(es)]
    else Done(Front(es))
  }

  /** The items pushed since the last clear. */
  function PushedSince(steps: seq<Step>): seq<Task> {
    if |steps| == 0 then []
    else
      match Last(steps)
      case Push(t) => PushedSince(Front(steps)) + [t]
      case Clear => []
      case _ => PushedSince(Front(steps))
  }

  /** The events sent. */
  function Emitted(steps: seq<Step>): seq<Event> {
    if |steps| == 0 then []
    else
      match Last(steps)
      case Emit(t) => Emitted(Front(steps)) + [ItemEvent(t)]
      case Note => Emitted(Front(steps)) + [Other]
      case _ => Emitted(Front(steps))
  }

  /** The ring holds the newest 64 items pushed since the last clear, the log all events in their order. */
  lemma {:induction false} RingAndLogAreHistory(es: seq<Step>)
    ensures Run(es).ring == Newest(PushedSince(Done(es)), 64)
    ensures Run(es).log == Emitted(Done(es))
  {
    if |es| >= 1 {
      RingAndLogAreHistory(Front(es));
      if Enabled(Run(Front(es)), Last(es)) {
        var steps := Done(Front(es));
        assert Front(steps + [Last(es)]) == steps;
        if Last(es).Push? {
          NewestAppend(PushedSince(steps), 64, Last(es).t);
        }
      }
    }
  }

  /** The item at place `i` of the ring is wanted and none behind it is. */
  ghost predicate NewestWanted(s: State, want: Want, i: nat) {
    i < |s.ring| && Wanted(s, want, s.ring[i]) && forall j :: i < j < |s.ring| ==> !Wanted(s, want, s.ring[j])
  }

  lemma {:induction false} LatestIsNewest(s: State, want: Want, n: nat, i: nat)
    requires i < n <= |s.ring| && NewestWanted(s, want, i)
    ensures Latest(s, want, n) == Some(s.ring[i])
    decreases n
  {
    if i < n - 1 {
      LatestIsNewest(s, want, n - 1, i);
    }
  }

  lemma RunPush(es: seq<Step>, e: Step)
    requires Enabled(Run(es), e)
    ensures Run(es + [e]) == Next(Run(es), e)
  {
    assert Front(es + [e]) == es;
  }

  /** Ask, subscribe and look, one right after the other. */
  function AskNow(r: Req, want: Want): seq<Step> {
    [Ask(r, want), Subscribe(r), Check(r)]
  }

  lemma AskSubscribe(es: seq<Step>, r: Req, want: Want)
    requires r !in Run(es).requests
    ensures
      var s, k := Run(es), Run(es + [Ask(r, want)] + [Subscribe(r)]);
      && r in k.requests && k.requests[r] == Subscribed(want, |s.log|)
      && k.ring == s.ring && k.kinds == s.kinds && k.log == s.log
  {
    RunPush(es, Ask(r, want));
    RunPush(es + [Ask(r, want)], Subscribe(r));
  }

  lemma AskNowEnds(es: seq<Step>, r: Req, want: Want)
    requires r !in Run(es).requests
    ensures
      var s, k := Run(es), Run(es + AskNow(r, want));
      var found := Latest(s, want, |s.ring|);
      && r in k.requests && k.log == s.log
      && k.requests[r] == if found.Some? then Answered(found.value) else Waiting(want, |s.log|)
  {
    var s := Run(es);
    var es2 := es + [Ask(r, want)] + [Subscribe(r)];
    AskSubscribe(es, r, want);
    RunPush(es2, Check(r));
    SameLatest(s, Run(es2), want, |s.ring|);
    assert es + AskNow(r, want) == es2 + [Check(r)];
  }

  lemma {:induction false} SameLatest(s: State, k: State, want: Want, n: nat)
    requires n <= |s.ring| && k.ring == s.ring && k.kinds == s.kinds
    ensures Latest(k, want, n) == Latest(s, want, n)
  {
    if n > 0 {
      SameLatest(s, k, want, n - 1);
    }
  }

  /**
   * In every reachable state a new request is answered at once with the newest wanted item of the ring,
   * and starts to wait, behind everything sent so far, if and only if there is none.
   */
  lemma AskedIsAnswered(es: seq<Step>, r: Req, want: Want)
    requires r !in Run(es).requests
    ensures
      var s, k := Run(es), Run(es + AskNow(r, want));
      && r in k.requests
      && (forall i: nat :: NewestWanted(s, want, i) ==> k.requests[r] == Answered(s.ring[i]))
      && (k.requests[r] == Waiting(want, |k.log|) <==> forall i :: 0 <= i < |s.ring| ==> !Wanted(s, want, s.ring[i]))
  {
    AskNowEnds(es, r, want);
    var s := Run(es);
    NothingFound(s, want, |s.ring|);
    forall i: nat | NewestWanted(s, want, i) ensures Latest(s, want, |s.ring|) == Some(s.ring[i]) {
      LatestIsNewest(s, want, |s.ring|, i);
    }
    if Latest(s, want, |s.ring|).Some? {
      FoundIsWanted(s, want, |s.ring|);
    }
  }

  lemma {:induction false} FoundIsWanted(s: State, want: Want, n: nat)
    requires n <= |s.ring| && Latest(s, want, n).Some?
    ensures exists i :: 0 <= i < n && Wanted(s, want, s.ring[i])
  {
    if !Wanted(s, want, s.ring[n - 1]) {
      FoundIsWanted(s, want, n - 1);
    }
  }

  /** A whole announcement, and one receive of the request. */
  function Arrival(t: Task, kind: Kind, r: Req): seq<Step> {
    [Announce(t, kind), Push(t), Emit(t), Receive(r)]
  }

  /**
   * The next item of the right kind answers a waiting request that has read its queue; one of another
   * kind is passed over.
   */
  lemma ArrivalAnswersIff(es: seq<Step>, r: Req, want: Want, t: Task, kind: Kind)
    requires t !in Run(es).kinds
    requires r in Run(es).requests && Run(es).requests[r] == Waiting(want, |Run(es).log|)
    ensures
      var k := Run(es + Arrival(t, kind, r));
      && r in k.requests
      && k.requests[r] == if Matches(want, kind) then Answered(t) else Waiting(want, |k.log|)
  {
    RunKeeps(es);
    var s := Run(es);
    RunPush(es, Announce(t, kind));
    var es1 := es + [Announce(t, kind)];
    RunPush(es1, Push(t));
    var es2 := es1 + [Push(t)];
    RunPush(es2, Emit(t));
    var es3 := es2 + [Emit(t)];
    RunPush(es3, Receive(r));
    assert es + Arrival(t, kind, r) == es3 + [Receive(r)];
    assert Run(es3).log == s.log + [ItemEvent(t)] && Run(es3).kinds[t] == kind;
  }
}
