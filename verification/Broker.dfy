/**
 * The room server's hub: each broadcast snapshots its recipients and then hands the frame to one
 * after another, while other senders broadcast, writers drain, and sessions come and go.
 */
module Broker {
  import opened Util

  type Id = nat

  const QUEUE_CAP := 256

  /** A queued frame, tagged with its sender and its place among the sender's frames. */
  datatype Frame = Frame(from: Id, nr: nat, bytes: Bytes)

  /**
   * `sent` are the frames read from the client, `reached` the count kept for each of them, `pending`
   * the recipients the present broadcast has still to serve; `queue` waits for the writer, `out` is written.
   */
  datatype Session = Session(
    room: string, queue: seq<Frame>, out: seq<Frame>,
    sent: seq<Bytes>, reached: seq<nat>, pending: Option<set<Id>>)

  datatype Hub = Hub(sessions: map<Id, Session>, rooms: map<string, set<Id>>)

  datatype Step =
    | Join(s: Id, room: string)
    | Leave(s: Id)
    | Begin(s: Id, bytes: Bytes)   // snapshot under the read lock
    | Hand(s: Id, to: Id)          // one non-blocking channel send
    | Finish(s: Id)                // Broadcast returns
    | Drain(s: Id)                 // the writer takes a frame

  function Members(rooms: map<string, set<Id>>, room: string): set<Id> {
    if room in rooms then rooms[room] else {}
  }

  function AddMember(rooms: map<string, set<Id>>, room: string, s: Id): map<string, set<Id>> {
    rooms[room := Members(rooms, room) + {s}]
  }

  function RemoveMember(rooms: map<string, set<Id>>, room: string, s: Id): map<string, set<Id>> {
    if room !in rooms then rooms
    else if rooms[room] - {s} == {} then rooms - {room}
    else rooms[room := rooms[room] - {s}]
  }

  predicate Enabled(h: Hub, e: Step) {
    match e
    case Join(s, room) => s !in h.sessions
    case Leave(s) => s in h.sessions && h.sessions[s].pending.None?
    case Begin(s, bytes) => s in h.sessions && h.sessions[s].pending.None? && s in Members(h.rooms, h.sessions[s].room)
    case Hand(s, to) =>
      s in h.sessions && to in h.sessions && h.sessions[s].pending.Some? && to in h.sessions[s].pending.value
    case Finish(s) => s in h.sessions && h.sessions[s].pending == Some({})
    case Drain(s) => s in h.sessions && h.sessions[s].queue != []
  }

  function Offer(t: Session, f: Frame): Session {
    if |t.queue| < QUEUE_CAP then t.(queue := t.queue + [f]) else t
  }

  function CountOne(s: Session, to: Id, taken: bool): Session
    requires s.pending.Some? && s.reached != []
  {
    s.(pending := Some(s.pending.value - {to}),
       reached := Front(s.reached) + [Last(s.reached) + if taken then 1 else 0])
  }

  function Handed(h: Hub, s: Id, to: Id): Hub
    requires Enabled(h, Hand(s, to)) && s != to && h.sessions[s].sent != [] && h.sessions[s].reached != []
  {
    var a, t := h.sessions[s], h.sessions[to];
    h.(sessions := h.sessions[to := Offer(t, Frame(s, |a.sent| - 1, Last(a.sent)))]
                             [s := CountOne(a, to, |t.queue| < QUEUE_CAP)])
  }

  function Next(h: Hub, e: Step): Hub
    requires Enabled(h, e) && Inv(h)
  {
    match e
    case Join(s, room) =>
      Hub(h.sessions[s := Session(room, [], [], [], [], None)], AddMember(h.rooms, room, s))
    case Leave(s) => h.(rooms := RemoveMember(h.rooms, h.sessions[s].room, s))
    case Begin(s, bytes) =>
      var a := h.sessions[s];
      h.(sessions := h.sessions[s := a.(sent := a.sent + [bytes], reached := a.reached + [0],
                                        pending := Some(Members(h.rooms, a.room) - {s}))])
    case Hand(s, to) => assert PendingOk(h, s); Handed(h, s, to)
    case Finish(s) => h.(sessions := h.sessions[s := h.sessions[s].(pending := None)])
    case Drain(s) =>
      var a := h.sessions[s];
      h.(sessions := h.sessions[s := a.(queue := a.queue[1..], out := a.out + [a.queue[0]])])
  }

  // ---- what holds at every moment ----

  /** Everything the session was ever given, in order. */
  function Got(t: Session): seq<Frame> {
    t.out + t.queue
  }

  predicate Has(t: Session, s: Id, nr: nat) {
    exists i :: 0 <= i < |Got(t)| && Got(t)[i].from == s && Got(t)[i].nr == nr
  }

  /** Recipients of broadcast `nr` of sender `s`. */
  function Holders(h: Hub, s: Id, nr: nat): set<Id> {
    set t | t in h.sessions && Has(h.sessions[t], s, nr)
  }

  ghost predicate RoomsOk(h: Hub) {
    && (forall r :: r in h.rooms ==> h.rooms[r] != {})
    && (forall r, s :: r in h.rooms && s in h.rooms[r] ==> s in h.sessions && h.sessions[s].room == r)
  }

  ghost predicate PendingOk(h: Hub, s: Id)
    requires s in h.sessions
  {
    var a := h.sessions[s];
    && |a.reached| == |a.sent|
    && (a.pending.Some? ==>
         && a.sent != [] && s !in a.pending.value
         && forall t :: t in a.pending.value ==>
              t in h.sessions && h.sessions[t].room == a.room && !Has(h.sessions[t], s, |a.sent| - 1))
  }

  /** A frame in the hands of `t`: another member's, of the same room, as that member sent it. */
  ghost predicate FrameOk(h: Hub, t: Id, f: Frame)
    requires t in h.sessions
  {
    && f.from != t && f.from in h.sessions && h.sessions[f.from].room == h.sessions[t].room
    && f.nr < |h.sessions[f.from].sent| && f.bytes == h.sessions[f.from].sent[f.nr]
  }

  ghost predicate GotOk(h: Hub, t: Id)
    requires t in h.sessions
  {
    var g := Got(h.sessions[t]);
    && |h.sessions[t].queue| <= QUEUE_CAP
    && (forall i :: 0 <= i < |g| ==> FrameOk(h, t, g[i]))
    && (forall i, j :: 0 <= i < j < |g| && g[i].from == g[j].from ==> g[i].nr < g[j].nr)
  }

  ghost predicate CountsOk(h: Hub, s: Id)
    requires s in h.sessions
  {
    var a := h.sessions[s];
    forall nr :: 0 <= nr < |a.reached| ==> a.reached[nr] == |Holders(h, s, nr)|
  }

  ghost predicate Inv(h: Hub) {
    && RoomsOk(h)
    && (forall s :: s in h.sessions ==> PendingOk(h, s) && GotOk(h, s) && CountsOk(h, s))
  }

  ghost predicate SessionsOk(h: Hub) {
    forall s :: s in h.sessions ==> PendingOk(h, s) && GotOk(h, s) && CountsOk(h, s)
  }

  /** `k` has the sessions of `h`, with the same rooms and the same frames in hand. */
  ghost predicate SameGot(h: Hub, k: Hub) {
    && k.sessions.Keys == h.sessions.Keys
    && forall t :: t in h.sessions ==>
         Got(k.sessions[t]) == Got(h.sessions[t]) && k.sessions[t].room == h.sessions[t].room
  }

  lemma SameHolders(h: Hub, k: Hub, s: Id, nr: nat)
    requires SameGot(h, k)
    ensures Holders(k, s, nr) == Holders(h, s, nr)
  {
    assert forall t :: t in h.sessions ==> (Has(k.sessions[t], s, nr) <==> Has(h.sessions[t], s, nr));
  }

  lemma JoinKeeps(h: Hub, s: Id, room: string)
    requires Inv(h) && s !in h.sessions
    ensures SessionsOk(Next(h, Join(s, room)))
  {
    var k := Next(h, Join(s, room));
    assert Got(k.sessions[s]) == [];
    forall t | t in k.sessions ensures PendingOk(k, t) && GotOk(k, t) && CountsOk(k, t) {
      if t != s {
        assert PendingOk(h, t) && GotOk(h, t) && CountsOk(h, t);
        forall i | 0 <= i < |Got(k.sessions[t])| ensures FrameOk(k, t, Got(k.sessions[t])[i]) {
          assert FrameOk(h, t, Got(h.sessions[t])[i]);
        }
        forall nr: nat ensures Holders(k, t, nr) == Holders(h, t, nr) {
          assert !Has(k.sessions[s], t, nr);
        }
      }
    }
  }

  lemma BeginKeepsSession(h: Hub, s: Id, bytes: Bytes, t: Id)
    requires Inv(h) && Enabled(h, Begin(s, bytes)) && t in h.sessions
    ensures
      var k := Next(h, Begin(s, bytes));
      SameGot(h, k) && GotOk(k, t) && (t != s ==> PendingOk(k, t) && CountsOk(k, t))
  {
    var k := Next(h, Begin(s, bytes));
    assert PendingOk(h, t) && GotOk(h, t) && CountsOk(h, t);
    forall i | 0 <= i < |Got(k.sessions[t])| ensures FrameOk(k, t, Got(k.sessions[t])[i]) {
      assert FrameOk(h, t, Got(h.sessions[t])[i]);
    }
    forall nr: nat | nr < |h.sessions[t].reached| ensures Holders(k, t, nr) == Holders(h, t, nr) {
      SameHolders(h, k, t, nr);
    }
  }

  lemma BeginKeepsSender(h: Hub, s: Id, bytes: Bytes)
    requires Inv(h) && Enabled(h, Begin(s, bytes)) && SameGot(h, Next(h, Begin(s, bytes)))
    ensures PendingOk(Next(h, Begin(s, bytes)), s) && CountsOk(Next(h, Begin(s, bytes)), s)
  {
    var k := Next(h, Begin(s, bytes));
    assert PendingOk(h, s) && CountsOk(h, s);
    NoneHoldsNext(h, s);
    forall nr: nat | nr <= |h.sessions[s].reached| ensures Holders(k, s, nr) == Holders(h, s, nr) {
      SameHolders(h, k, s, nr);
    }
  }

  lemma BeginKeeps(h: Hub, s: Id, bytes: Bytes)
    requires Inv(h) && Enabled(h, Begin(s, bytes))
    ensures SessionsOk(Next(h, Begin(s, bytes)))
  {
    var k := Next(h, Begin(s, bytes));
    forall t | t in k.sessions ensures PendingOk(k, t) && GotOk(k, t) && CountsOk(k, t) {
      BeginKeepsSession(h, s, bytes, t);
      BeginKeepsSender(h, s, bytes);
    }
  }

  /** Nobody holds a frame that has not been sent. */
  lemma NoneHoldsNext(h: Hub, s: Id)
    requires Inv(h) && s in h.sessions
    ensures Holders(h, s, |h.sessions[s].sent|) == {}
    ensures forall t :: t in h.sessions ==> !Has(h.sessions[t], s, |h.sessions[s].sent|)
  {
    forall t | t in h.sessions ensures !Has(h.sessions[t], s, |h.sessions[s].sent|) {
      assert GotOk(h, t);
      forall i | 0 <= i < |Got(h.sessions[t])| ensures FrameOk(h, t, Got(h.sessions[t])[i]) {}
    }
  }

  /** `t` keeps its record from `h` to `k`, except that its broadcast may end and its queue may drain. */
  ghost predicate Quiet(h: Hub, k: Hub, t: Id)
    requires t in h.sessions && t in k.sessions
  {
    var a, b := h.sessions[t], k.sessions[t];
    && b.sent == a.sent && b.reached == a.reached && (b.pending == a.pending || b.pending.None?)
    && |b.queue| <= |a.queue|
  }

  lemma QuietSession(h: Hub, k: Hub, t: Id)
    requires SessionsOk(h) && SameGot(h, k) && t in h.sessions
    requires forall u :: u in h.sessions ==> Quiet(h, k, u)
    ensures PendingOk(k, t) && GotOk(k, t) && CountsOk(k, t)
  {
    assert PendingOk(h, t) && GotOk(h, t) && CountsOk(h, t);
    forall i | 0 <= i < |Got(k.sessions[t])| ensures FrameOk(k, t, Got(k.sessions[t])[i]) {
      assert FrameOk(h, t, Got(h.sessions[t])[i]);
      assert Quiet(h, k, Got(h.sessions[t])[i].from);
    }
    forall nr: nat ensures Holders(k, t, nr) == Holders(h, t, nr) {
      SameHolders(h, k, t, nr);
    }
    assert Quiet(h, k, t);
  }

  lemma StepIsQuiet(h: Hub, e: Step)
    requires Inv(h) && Enabled(h, e) && (e.Leave? || e.Finish? || e.Drain?)
    ensures SameGot(h, Next(h, e))
    ensures forall u :: u in h.sessions ==> Quiet(h, Next(h, e), u)
  {
    if e.Drain? {
      assert Got(Next(h, e).sessions[e.s]) == Got(h.sessions[e.s]);
    }
  }

  lemma QuietKeeps(h: Hub, e: Step)
    requires Inv(h) && Enabled(h, e) && (e.Leave? || e.Finish? || e.Drain?)
    ensures SessionsOk(Next(h, e))
  {
    StepIsQuiet(h, e);
    var k := Next(h, e);
    forall t | t in k.sessions ensures PendingOk(k, t) && GotOk(k, t) && CountsOk(k, t) {
      QuietSession(h, k, t);
    }
  }

  /** What a hand-over changes in what sessions hold: `to` gains the sender's newest frame, if it fits. */
  lemma HandGot(h: Hub, s: Id, to: Id)
    requires Inv(h) && Enabled(h, Hand(s, to))
    ensures
      var k := Next(h, Hand(s, to));
      var a, t := h.sessions[s], h.sessions[to];
      var f := Frame(s, |a.sent| - 1, Last(a.sent));
      && s != to && k.sessions.Keys == h.sessions.Keys
      && (forall u :: u in h.sessions && u != to ==> Got(k.sessions[u]) == Got(h.sessions[u]))
      && Got(k.sessions[to]) == (if |t.queue| < QUEUE_CAP then Got(t) + [f] else Got(t))
      && (forall u :: u in h.sessions ==>
           k.sessions[u].room == h.sessions[u].room && k.sessions[u].sent == h.sessions[u].sent)
  {
    assert PendingOk(h, s);
  }

  lemma HandHas(h: Hub, s: Id, to: Id, u: Id, nr: nat, v: Id)
    requires Inv(h) && Enabled(h, Hand(s, to)) && v in h.sessions
    ensures
      Has(Next(h, Hand(s, to)).sessions[v], u, nr) <==>
        Has(h.sessions[v], u, nr)
        || (v == to && u == s && nr == |h.sessions[s].sent| - 1 && |h.sessions[to].queue| < QUEUE_CAP)
  {
    HandGot(h, s, to);
    var k := Next(h, Hand(s, to));
    if v == to && |h.sessions[to].queue| < QUEUE_CAP {
      var f := Frame(s, |h.sessions[s].sent| - 1, Last(h.sessions[s].sent));
      HasPush(h.sessions[to], k.sessions[to], f, u, nr);
    } else {
      assert Got(k.sessions[v]) == Got(h.sessions[v]);
    }
  }

  lemma HandHolders(h: Hub, s: Id, to: Id, u: Id, nr: nat)
    requires Inv(h) && Enabled(h, Hand(s, to))
    ensures
      var k := Next(h, Hand(s, to));
      Holders(k, u, nr) ==
        Holders(h, u, nr) +
        (if u == s && nr == |h.sessions[s].sent| - 1 && |h.sessions[to].queue| < QUEUE_CAP then {to} else {})
  {
    var k := Next(h, Hand(s, to));
    var gained := if u == s && nr == |h.sessions[s].sent| - 1 && |h.sessions[to].queue| < QUEUE_CAP then {to} else {};
    forall v ensures v in Holders(k, u, nr) <==> v in Holders(h, u, nr) + gained {
      if v in h.sessions {
        HandHas(h, s, to, u, nr, v);
      }
    }
  }

  lemma HasPush(t: Session, r: Session, f: Frame, u: Id, nr: nat)
    requires Got(r) == Got(t) + [f]
    ensures Has(r, u, nr) <==> Has(t, u, nr) || (f.from == u && f.nr == nr)
  {
    if Has(t, u, nr) {
      var i :| 0 <= i < |Got(t)| && Got(t)[i].from == u && Got(t)[i].nr == nr;
      assert Got(r)[i] == Got(t)[i];
    }
    if f.from == u && f.nr == nr {
      assert Got(r)[|Got(t)|] == f;
    }
  }

  lemma HandKeepsCount(h: Hub, s: Id, to: Id, u: Id, nr: nat)
    requires Inv(h) && Enabled(h, Hand(s, to)) && u in h.sessions && nr < |h.sessions[u].reached|
    ensures
      var k := Next(h, Hand(s, to));
      && u in k.sessions && |k.sessions[u].reached| == |h.sessions[u].reached|
      && k.sessions[u].reached[nr] == |Holders(k, u, nr)|
  {
    assert CountsOk(h, u);
    HandHolders(h, s, to, u, nr);
    HandReached(h, s, to, u, nr);
  }

  lemma HandKeepsCounts(h: Hub, s: Id, to: Id, u: Id)
    requires Inv(h) && Enabled(h, Hand(s, to)) && u in h.sessions
    ensures u in Next(h, Hand(s, to)).sessions && CountsOk(Next(h, Hand(s, to)), u)
  {
    var k := Next(h, Hand(s, to));
    HandGot(h, s, to);
    forall nr | 0 <= nr < |k.sessions[u].reached| ensures k.sessions[u].reached[nr] == |Holders(k, u, nr)| {
      assert |k.sessions[u].reached| == |h.sessions[u].reached|;
      HandKeepsCount(h, s, to, u, nr);
    }
  }

  /** The counter moves exactly with the enqueue. */
  lemma HandReached(h: Hub, s: Id, to: Id, u: Id, nr: nat)
    requires Inv(h) && Enabled(h, Hand(s, to)) && u in h.sessions && nr < |h.sessions[u].reached|
    ensures
      var k := Next(h, Hand(s, to));
      var a := h.sessions[s];
      && |k.sessions[u].reached| == |h.sessions[u].reached|
      && (u == s && nr == |a.sent| - 1 ==> to !in Holders(h, u, nr))
      && k.sessions[u].reached[nr] == h.sessions[u].reached[nr] +
           (if u == s && nr == |a.sent| - 1 && |h.sessions[to].queue| < QUEUE_CAP then 1 else 0)
  {
    assert PendingOk(h, s);
  }

  /** Who has still to be served has not got the frame. */
  lemma StillUnserved(h: Hub, s: Id, to: Id, u: Id, t: Id)
    requires Inv(h) && Enabled(h, Hand(s, to)) && u in h.sessions
    requires
      var b := Next(h, Hand(s, to)).sessions[u];
      b.pending.Some? && t in b.pending.value
    ensures
      var k := Next(h, Hand(s, to));
      && u in k.sessions && t in h.sessions && t in k.sessions
      && !Has(k.sessions[t], u, |h.sessions[u].sent| - 1)
  {
    HandGot(h, s, to);
    assert PendingOk(h, u);
    assert t in h.sessions && !Has(h.sessions[t], u, |h.sessions[u].sent| - 1);
    HandHas(h, s, to, u, |h.sessions[u].sent| - 1, t);
  }

  lemma HandPending(h: Hub, s: Id, to: Id, u: Id)
    requires Inv(h) && Enabled(h, Hand(s, to)) && u in h.sessions
    ensures
      var k := Next(h, Hand(s, to));
      && u in k.sessions && |k.sessions[u].reached| == |h.sessions[u].reached|
      && k.sessions[u].pending ==
           (if u == s then Some(h.sessions[s].pending.value - {to}) else h.sessions[u].pending)
  {
    assert PendingOk(h, s);
  }

  lemma HandKeepsPending(h: Hub, s: Id, to: Id, u: Id)
    requires Inv(h) && Enabled(h, Hand(s, to)) && u in h.sessions
    ensures u in Next(h, Hand(s, to)).sessions && PendingOk(Next(h, Hand(s, to)), u)
  {
    HandGot(h, s, to);
    HandPending(h, s, to, u);
    var k := Next(h, Hand(s, to));
    assert PendingOk(h, u);
    var b := k.sessions[u];
    if b.pending.Some? {
      forall t | t in b.pending.value
        ensures t in k.sessions && k.sessions[t].room == b.room && !Has(k.sessions[t], u, |b.sent| - 1)
      {
        StillUnserved(h, s, to, u, t);
      }
    }
  }

  lemma HandKeepsFrames(h: Hub, s: Id, to: Id, u: Id, i: nat)
    requires Inv(h) && Enabled(h, Hand(s, to)) && u in h.sessions
    requires u in Next(h, Hand(s, to)).sessions && i < |Got(Next(h, Hand(s, to)).sessions[u])|
    ensures FrameOk(Next(h, Hand(s, to)), u, Got(Next(h, Hand(s, to)).sessions[u])[i])
  {
    HandGot(h, s, to);
    assert PendingOk(h, s) && GotOk(h, u);
    var g := Got(h.sessions[u]);
    if i < |g| {
      assert FrameOk(h, u, g[i]) && Got(Next(h, Hand(s, to)).sessions[u])[i] == g[i];
    }
  }

  /** The newest frame comes behind all that the recipient has from this sender. */
  lemma NewestIsBehind(h: Hub, s: Id, to: Id, i: nat)
    requires Inv(h) && Enabled(h, Hand(s, to)) && i < |Got(h.sessions[to])| && Got(h.sessions[to])[i].from == s
    ensures Got(h.sessions[to])[i].nr < |h.sessions[s].sent| - 1
  {
    assert PendingOk(h, s) && GotOk(h, to);
    var f := Got(h.sessions[to])[i];
    assert FrameOk(h, to, f);
    assert !Has(h.sessions[to], s, |h.sessions[s].sent| - 1);
  }

  lemma HandKeepsOrder(h: Hub, s: Id, to: Id, u: Id, i: nat, j: nat)
    requires Inv(h) && Enabled(h, Hand(s, to)) && u in h.sessions && u in Next(h, Hand(s, to)).sessions
    requires
      var g' := Got(Next(h, Hand(s, to)).sessions[u]);
      i < j < |g'| && g'[i].from == g'[j].from
    ensures
      var g' := Got(Next(h, Hand(s, to)).sessions[u]);
      g'[i].nr < g'[j].nr
  {
    HandGot(h, s, to);
    assert GotOk(h, u);
    var g, g' := Got(h.sessions[u]), Got(Next(h, Hand(s, to)).sessions[u]);
    assert g'[i] == g[i];
    if j == |g| {
      NewestIsBehind(h, s, to, i);
    }
  }

  lemma HandKeepsGot(h: Hub, s: Id, to: Id, u: Id)
    requires Inv(h) && Enabled(h, Hand(s, to)) && u in h.sessions
    ensures u in Next(h, Hand(s, to)).sessions && GotOk(Next(h, Hand(s, to)), u)
  {
    HandGot(h, s, to);
    var k := Next(h, Hand(s, to));
    assert GotOk(h, u);
    var g' := Got(k.sessions[u]);
    forall i | 0 <= i < |g'| ensures FrameOk(k, u, g'[i]) {
      HandKeepsFrames(h, s, to, u, i);
    }
    forall i, j | 0 <= i < j < |g'| && g'[i].from == g'[j].from ensures g'[i].nr < g'[j].nr {
      HandKeepsOrder(h, s, to, u, i, j);
    }
  }

  lemma RoomsKeep(h: Hub, e: Step)
    requires Inv(h) && Enabled(h, e)
    ensures RoomsOk(Next(h, e))
  {
    if e.Hand? {
      HandGot(h, e.s, e.to);
    }
  }

  lemma StepKeeps(h: Hub, e: Step)
    requires Inv(h) && Enabled(h, e)
    ensures Inv(Next(h, e))
  {
    RoomsKeep(h, e);
    match e
    case Join(s, room) => JoinKeeps(h, s, room);
    case Begin(s, bytes) => BeginKeeps(h, s, bytes);
    case Hand(s, to) =>
      HandGot(h, s, to);
      forall u | u in h.sessions
        ensures PendingOk(Next(h, e), u) && GotOk(Next(h, e), u) && CountsOk(Next(h, e), u)
      {
        HandKeepsPending(h, s, to, u);
        HandKeepsGot(h, s, to, u);
        HandKeepsCounts(h, s, to, u);
      }
    case _ => QuietKeeps(h, e);
  }

  // ---- runs ----

  /** A run from the empty hub; a step that is not enabled when its turn comes is skipped. */
  ghost function Run(es: seq<Step>): (h: Hub)
    ensures Inv(h)
  {
    if es == [] then Hub(map[], map[])
    else
      var h := Run(Front(es));
      if Enabled(h, Last(es)) then StepKeeps(h, Last(es)); Next(h, Last(es)) else h
  }

  /** The frames of `g` that came from `s`. */
  function FromSender(g: seq<Frame>, s: Id): seq<Frame> {
    if g == [] then []
    else FromSender(Front(g), s) + (if Last(g).from == s then [Last(g)] else [])
  }

  function Payloads(g: seq<Frame>): seq<Bytes> {
    seq(|g|, i requires 0 <= i < |g| => g[i].bytes)
  }

  function Numbers(g: seq<Frame>): seq<nat> {
    seq(|g|, i requires 0 <= i < |g| => g[i].nr)
  }

  lemma {:induction false} FromSenderOrdered(h: Hub, t: Id, s: Id, g: seq<Frame>)
    requires t in h.sessions && s in h.sessions && GotOk(h, t) && g <= Got(h.sessions[t])
    ensures Embeds(Numbers(FromSender(g, s)), Payloads(FromSender(g, s)), h.sessions[s].sent)
    ensures forall i :: 0 <= i < |FromSender(g, s)| ==> FromSender(g, s)[i] in g && FromSender(g, s)[i].from == s
  {
    if g != [] {
      FromSenderOrdered(h, t, s, Front(g));
      var p, r := FromSender(Front(g), s), FromSender(g, s);
      var all := Got(h.sessions[t]);
      assert all[|g| - 1] == Last(g) && FrameOk(h, t, Last(g));
      if Last(g).from == s {
        forall i | 0 <= i < |p| ensures p[i].nr < Last(g).nr {
          var k :| 0 <= k < |Front(g)| && Front(g)[k] == p[i];
          assert all[k] == p[i];
        }
        EmbedsPush(Numbers(p), Payloads(p), h.sessions[s].sent, Last(g).nr);
        assert Numbers(r) == Numbers(p) + [Last(g).nr] && Payloads(r) == Payloads(p) + [Last(g).bytes];
      } else {
        assert r == p;
      }
    }
  }

  /**
   * Delivery, under every interleaving: what a session has received from one sender is an in-order
   * selection of that sender's frames, each at most once; nothing is its own, everything comes from
   * its room, and its queue stays within 256.
   */
  lemma DeliveryInOrder(es: seq<Step>, t: Id, s: Id)
    requires t in Run(es).sessions && s in Run(es).sessions
    ensures
      var h := Run(es);
      var g := Got(h.sessions[t]);
      && Subsequence(Payloads(FromSender(g, s)), h.sessions[s].sent)
      && |h.sessions[t].queue| <= QUEUE_CAP
      && (forall i :: 0 <= i < |g| ==> g[i].from != t && g[i].from in h.sessions)
      && (FromSender(g, s) != [] ==> s != t && h.sessions[s].room == h.sessions[t].room)
      && (forall i, j :: 0 <= i < j < |g| && g[i].from == g[j].from ==> g[i].nr != g[j].nr)
  {
    var h := Run(es);
    assert GotOk(h, t);
    var g := Got(h.sessions[t]);
    FromSenderOrdered(h, t, s, g);
    forall i | 0 <= i < |g| ensures g[i].from != t && g[i].from in h.sessions {
      assert FrameOk(h, t, g[i]);
    }
    if FromSender(g, s) != [] {
      var k :| 0 <= k < |g| && g[k] == FromSender(g, s)[0];
      assert FrameOk(h, t, g[k]);
    }
  }

  /** The count Broadcast returns is the number of sessions that were given the frame. */
  lemma CountIsRecipients(es: seq<Step>, s: Id)
    requires Enabled(Run(es), Finish(s))
    ensures
      var h := Run(es);
      var a := h.sessions[s];
      a.reached != [] && a.sent != [] && Last(a.reached) == |Holders(h, s, |a.sent| - 1)|
  {
    assert PendingOk(Run(es), s) && CountsOk(Run(es), s);
  }

  // ---- the hub object, one broadcast at a time ----

  class Member {
    const room: string
    var queue: seq<Bytes>

    constructor (room: string)
      ensures this.room == room && queue == []
    {
      this.room, this.queue := room, [];
    }

    /** A non-blocking send on the outbound channel. */
    method TrySend(frame: Bytes) returns (ok: bool)
      modifies this`queue
      ensures ok <==> |old(queue)| < QUEUE_CAP
      ensures queue == if ok then old(queue) + [frame] else old(queue)
    {
      ok := |queue| < QUEUE_CAP;
      if ok {
        queue := queue + [frame];
      }
    }
  }

  /** A queue after the frame was offered to it. */
  predicate Given(after: seq<Bytes>, before: seq<Bytes>, frame: Bytes) {
    after == if |before| < QUEUE_CAP then before + [frame] else before
  }

  /** How many of the members have space in their queues. */
  function Open(members: seq<Member>): nat
    reads members
  {
    if members == [] then 0
    else (if |members[0].queue| < QUEUE_CAP then 1 else 0) + Open(members[1..])
  }

  /** The members with space in their queues. */
  function WithSpace(members: set<Member>): set<Member>
    reads members
  {
    set m | m in members && |m.queue| < QUEUE_CAP
  }

  function Elements(members: seq<Member>): set<Member> {
    set m | m in members
  }

  lemma ElementsSplit(members: seq<Member>)
    requires |members| >= 1
    ensures Elements(members) == {members[0]} + Elements(members[1..])
  {
    assert members == [members[0]] + members[1..];
  }

  lemma WithSpaceSplit(first: Member, rest: set<Member>)
    ensures WithSpace({first} + rest) == (if |first.queue| < QUEUE_CAP then {first} else {}) + WithSpace(rest)
  {
  }

  lemma {:induction false} OpenCounts(members: seq<Member>)
    requires forall i, j :: 0 <= i < j < |members| ==> members[i] != members[j]
    ensures Open(members) == |WithSpace(Elements(members))|
  {
    if members != [] {
      var first, rest := members[0], members[1..];
      OpenCounts(rest);
      ElementsSplit(members);
      assert first !in Elements(rest);
      WithSpaceSplit(first, Elements(rest));
    }
  }

  /** The delivery loop over a snapshot of recipients. */
  method DeliverEach(targets: seq<Member>, frame: Bytes) returns (n: nat)
    requires forall i, j :: 0 <= i < j < |targets| ==> targets[i] != targets[j]
    modifies targets
    ensures forall i :: 0 <= i < |targets| ==> Given(targets[i].queue, old(targets[i].queue), frame)
    ensures n == old(Open(targets))
  {
    n := 0;
    var i := 0;
    while i < |targets|
      invariant 0 <= i <= |targets|
      invariant forall k :: 0 <= k < i ==> Given(targets[k].queue, old(targets[k].queue), frame)
      invariant forall k :: i <= k < |targets| ==> targets[k].queue == old(targets[k].queue)
      invariant n + old(Open(targets[i..])) == old(Open(targets))
    {
      assert targets[i..][0] == targets[i] && targets[i..][1..] == targets[i + 1..];
      assert old(Open(targets[i..])) ==
        (if |old(targets[i].queue)| < QUEUE_CAP then 1 else 0) + old(Open(targets[i + 1..]));
      var ok := targets[i].TrySend(frame);
      if ok {
        n := n + 1;
      }
      i := i + 1;
    }
  }

  class HubObject {
    var rooms: map<string, set<Member>>

    ghost predicate Valid()
      reads this
    {
      && (forall r :: r in rooms ==> rooms[r] != {})
      && (forall r, m :: r in rooms && m in rooms[r] ==> m.room == r)
    }

    function In(room: string): set<Member>
      reads this
    {
      if room in rooms then rooms[room] else {}
    }

    constructor ()
      ensures Valid() && rooms == map[]
    {
      rooms := map[];
    }

    method Register(m: Member)
      requires Valid()
      modifies this
      ensures Valid()
      ensures In(m.room) == old(In(m.room)) + {m}
      ensures forall r :: r != m.room ==> In(r) == old(In(r))
    {
      var members := {};
      if m.room in rooms {
        members := rooms[m.room];
      }
      rooms := rooms[m.room := members + {m}];
    }

    method Unregister(m: Member)
      requires Valid()
      modifies this
      ensures Valid()
      ensures In(m.room) == old(In(m.room)) - {m}
      ensures forall r :: r != m.room ==> In(r) == old(In(r))
    {
      if m.room !in rooms {
        return;
      }
      rooms := rooms[m.room := rooms[m.room] - {m}];
      if rooms[m.room] == {} {
        rooms := rooms - {m.room};
      }
    }

    /** The recipients of a broadcast, in the order the map yields them. */
    method Snapshot(room: string, from: Member) returns (targets: seq<Member>)
      ensures forall i, j :: 0 <= i < j < |targets| ==> targets[i] != targets[j]
      ensures forall m :: m in targets <==> m in In(room) && m != from
      ensures |targets| == |In(room) - {from}|
    {
      targets := [];
      var todo := In(room) - {from};
      while todo != {}
        invariant forall i, j :: 0 <= i < j < |targets| ==> targets[i] != targets[j]
        invariant forall m :: m in targets ==> m !in todo
        invariant todo <= In(room) - {from}
        invariant forall m :: m in In(room) - {from} <==> m in todo || m in targets
        invariant |targets| + |todo| == |In(room) - {from}|
        decreases |todo|
      {
        var m :| m in todo;
        targets := targets + [m];
        todo := todo - {m};
      }
    }

    /** Every other member of the room is offered the frame, once; the count is how many took it. */
    method Broadcast(room: string, from: Member, frame: Bytes) returns (n: nat)
      modifies In(room)
      ensures forall m :: m in In(room) && m != from ==> Given(m.queue, old(m.queue), frame)
      ensures from in In(room) ==> from.queue == old(from.queue)
      ensures n == |old(WithSpace(In(room) - {from}))|
    {
      var targets := Snapshot(room, from);
      OpenCounts(targets);
      assert In(room) - {from} == Elements(targets);
      n := DeliverEach(targets, frame);
    }

    method RoomCount(room: string) returns (n: nat)
      ensures n == |In(room)|
    {
      n := if room in rooms then |rooms[room]| else 0;
    }
  }
}
