/**
 * Who is served by a broadcast, and who is not: for each broadcast its snapshot of recipients and the
 * full queues it met are recorded along the run of the hub.
 */
module BrokerFans {
  import opened Util
  import opened Broker

  /** A broadcast's snapshot of recipients, and those of them whose queues were full at their turn. */
  datatype Fan = Fan(targets: set<Id>, full: set<Id>)

  /** The broadcasts so far, by sender and number. */
  type Fans = map<(Id, nat), Fan>

  function RecordStep(a: Fans, h: Hub, e: Step): Fans
    requires Enabled(h, e)
  {
    match e
    case Begin(s, bytes) =>
      a[(s, |h.sessions[s].sent|) := Fan(Members(h.rooms, h.sessions[s].room) - {s}, {})]
    case Hand(s, to) =>
      var key := (s, if |h.sessions[s].sent| == 0 then 0 else |h.sessions[s].sent| - 1);
      if key in a && |h.sessions[to].queue| >= QUEUE_CAP then a[key := a[key].(full := a[key].full + {to})] else a
    case _ => a
  }

  ghost function Record(es: seq<Step>): Fans {
    if es == [] then map[]
    else
      var a, h := Record(Front(es)), Run(Front(es));
      if Enabled(h, Last(es)) then RecordStep(a, h, Last(es)) else a
  }

  /** The recipients of broadcast `nr` still to be served. */
  function Left(h: Hub, s: Id, nr: nat): set<Id> {
    if s in h.sessions && h.sessions[s].pending.Some? && nr + 1 == |h.sessions[s].sent|
    then h.sessions[s].pending.value else {}
  }

  /** Everyone of the snapshot holds the frame, had no space for it, or is still to be served. */
  ghost predicate FanOk(h: Hub, a: Fans, s: Id, nr: nat) {
    (s, nr) in a && Shared(a[(s, nr)], Holders(h, s, nr), Left(h, s, nr))
  }

  /** The snapshot is made up of the holders, the full ones and those left; nobody full is also another. */
  predicate Shared(fan: Fan, holders: set<Id>, left: set<Id>) {
    fan.targets == holders + fan.full + left && fan.full !! holders && fan.full !! left
  }

  ghost predicate FansOk(h: Hub, a: Fans) {
    forall s, nr: nat :: s in h.sessions && nr < |h.sessions[s].sent| ==> FanOk(h, a, s, nr)
  }

  lemma BeginRecords(h: Hub, a: Fans, s: Id, bytes: Bytes, u: Id, nr: nat)
    requires Inv(h) && FansOk(h, a) && Enabled(h, Begin(s, bytes))
    requires
      var k := Next(h, Begin(s, bytes));
      u in k.sessions && nr < |k.sessions[u].sent|
    ensures FanOk(Next(h, Begin(s, bytes)), RecordStep(a, h, Begin(s, bytes)), u, nr)
  {
    var k := Next(h, Begin(s, bytes));
    BeginKeepsSession(h, s, bytes, s);
    SameHolders(h, k, u, nr);
    assert Left(k, u, nr) == if u == s && nr == |h.sessions[s].sent| then Members(h.rooms, h.sessions[s].room) - {s}
                             else Left(h, u, nr);
    if u == s && nr == |h.sessions[s].sent| {
      NoneHoldsNext(h, s);
    } else {
      assert FanOk(h, a, u, nr);
    }
  }

  /** One recipient moves from those still to be served to the holders, or to the full ones. */
  lemma SharedMoves(fan: Fan, fan': Fan, holders: set<Id>, holders': set<Id>, left: set<Id>, left': set<Id>,
      to: Id, taken: bool)
    requires Shared(fan, holders, left) && to in left && to !in holders
    requires holders' == holders + (if taken then {to} else {}) && left' == left - {to}
    requires fan' == if taken then fan else fan.(full := fan.full + {to})
    ensures Shared(fan', holders', left')
  {
  }

  lemma HandRecorded(h: Hub, a: Fans, s: Id, to: Id, u: Id, nr: nat)
    requires Inv(h) && Enabled(h, Hand(s, to)) && u in h.sessions && (u, nr) in a && |h.sessions[s].sent| >= 1
    ensures
      var r := RecordStep(a, h, Hand(s, to));
      var hit := u == s && nr + 1 == |h.sessions[s].sent| && |h.sessions[to].queue| >= QUEUE_CAP;
      (u, nr) in r && r[(u, nr)] == if hit then a[(u, nr)].(full := a[(u, nr)].full + {to}) else a[(u, nr)]
  {
  }

  /** What a hand-over does to the three parts of a broadcast's snapshot. */
  lemma HandParts(h: Hub, a: Fans, s: Id, to: Id, u: Id, nr: nat)
    requires Inv(h) && Enabled(h, Hand(s, to)) && u in h.sessions && (u, nr) in a
    ensures
      var k, r := Next(h, Hand(s, to)), RecordStep(a, h, Hand(s, to));
      var turn, taken := u == s && nr + 1 == |h.sessions[s].sent|, |h.sessions[to].queue| < QUEUE_CAP;
      && Holders(k, u, nr) == Holders(h, u, nr) + (if turn && taken then {to} else {})
      && Left(k, u, nr) == Left(h, u, nr) - (if turn then {to} else {})
      && (u, nr) in r
      && r[(u, nr)] == if turn && !taken then a[(u, nr)].(full := a[(u, nr)].full + {to}) else a[(u, nr)]
  {
    assert PendingOk(h, s);
    HandRecorded(h, a, s, to, u, nr);
    HandHolders(h, s, to, u, nr);
    HandLeft(h, s, to, u, nr);
  }

  /** The recipient at its turn is still to be served and does not hold the frame. */
  lemma TurnIsLeft(h: Hub, s: Id, to: Id)
    requires Inv(h) && Enabled(h, Hand(s, to))
    ensures |h.sessions[s].sent| >= 1
    ensures to in Left(h, s, |h.sessions[s].sent| - 1) && to !in Holders(h, s, |h.sessions[s].sent| - 1)
  {
    assert PendingOk(h, s);
  }

  lemma HandRecordsTurn(h: Hub, a: Fans, s: Id, to: Id, nr: nat)
    requires Inv(h) && Enabled(h, Hand(s, to)) && FanOk(h, a, s, nr) && nr + 1 == |h.sessions[s].sent|
    ensures FanOk(Next(h, Hand(s, to)), RecordStep(a, h, Hand(s, to)), s, nr)
  {
    HandParts(h, a, s, to, s, nr);
    TurnIsLeft(h, s, to);
    var k, r := Next(h, Hand(s, to)), RecordStep(a, h, Hand(s, to));
    SharedMoves(a[(s, nr)], r[(s, nr)], Holders(h, s, nr), Holders(k, s, nr), Left(h, s, nr), Left(k, s, nr),
                to, |h.sessions[to].queue| < QUEUE_CAP);
  }

  lemma HandRecordsOther(h: Hub, a: Fans, s: Id, to: Id, u: Id, nr: nat)
    requires Inv(h) && Enabled(h, Hand(s, to)) && u in h.sessions && FanOk(h, a, u, nr)
    requires u != s || nr + 1 != |h.sessions[s].sent|
    ensures FanOk(Next(h, Hand(s, to)), RecordStep(a, h, Hand(s, to)), u, nr)
  {
    HandParts(h, a, s, to, u, nr);
    SameParts(h, Next(h, Hand(s, to)), a, RecordStep(a, h, Hand(s, to)), u, nr);
  }

  lemma SameParts(h: Hub, k: Hub, a: Fans, r: Fans, u: Id, nr: nat)
    requires FanOk(h, a, u, nr) && (u, nr) in r && r[(u, nr)] == a[(u, nr)]
    requires Holders(k, u, nr) == Holders(h, u, nr) + {} && Left(k, u, nr) == Left(h, u, nr) - {}
    ensures FanOk(k, r, u, nr)
  {
  }

  lemma HandLeft(h: Hub, s: Id, to: Id, u: Id, nr: nat)
    requires Inv(h) && Enabled(h, Hand(s, to)) && u in h.sessions
    ensures Left(Next(h, Hand(s, to)), u, nr) ==
      Left(h, u, nr) - (if u == s && nr + 1 == |h.sessions[s].sent| then {to} else {})
  {
    assert PendingOk(h, s);
  }

  lemma JoinRecords(h: Hub, a: Fans, s: Id, room: string, u: Id, nr: nat)
    requires Inv(h) && FansOk(h, a) && Enabled(h, Join(s, room))
    requires u in h.sessions && nr < |h.sessions[u].sent|
    ensures FanOk(Next(h, Join(s, room)), a, u, nr)
  {
    var k := Next(h, Join(s, room));
    assert Got(k.sessions[s]) == [] && !Has(k.sessions[s], u, nr);
    assert Holders(k, u, nr) == Holders(h, u, nr);
    assert FanOk(h, a, u, nr);
  }

  lemma HandRecords(h: Hub, a: Fans, s: Id, to: Id, u: Id, nr: nat)
    requires Inv(h) && FansOk(h, a) && Enabled(h, Hand(s, to))
    requires
      var k := Next(h, Hand(s, to));
      u in k.sessions && nr < |k.sessions[u].sent|
    ensures FanOk(Next(h, Hand(s, to)), RecordStep(a, h, Hand(s, to)), u, nr)
  {
    HandGot(h, s, to);
    assert FanOk(h, a, u, nr);
    if u == s && nr + 1 == |h.sessions[s].sent| {
      HandRecordsTurn(h, a, s, to, nr);
    } else {
      HandRecordsOther(h, a, s, to, u, nr);
    }
  }

  lemma QuietLeft(h: Hub, e: Step, u: Id, nr: nat)
    requires Inv(h) && Enabled(h, e) && (e.Leave? || e.Finish? || e.Drain?)
    ensures SameGot(h, Next(h, e)) && Left(Next(h, e), u, nr) == Left(h, u, nr)
  {
    if e.Drain? {
      assert Got(Next(h, e).sessions[e.s]) == Got(h.sessions[e.s]);
    }
  }

  lemma QuietRecords(h: Hub, a: Fans, e: Step, u: Id, nr: nat)
    requires Inv(h) && Enabled(h, e) && (e.Leave? || e.Finish? || e.Drain?) && FanOk(h, a, u, nr)
    ensures FanOk(Next(h, e), a, u, nr)
  {
    QuietLeft(h, e, u, nr);
    SameHolders(h, Next(h, e), u, nr);
  }

  lemma StepRecords(h: Hub, a: Fans, e: Step)
    requires Inv(h) && FansOk(h, a) && Enabled(h, e)
    ensures FansOk(Next(h, e), RecordStep(a, h, e))
  {
    var k := Next(h, e);
    forall u, nr: nat | u in k.sessions && nr < |k.sessions[u].sent| ensures FanOk(k, RecordStep(a, h, e), u, nr) {
      match e
      case Begin(s, bytes) => BeginRecords(h, a, s, bytes, u, nr);
      case Hand(s, to) => HandRecords(h, a, s, to, u, nr);
      case Join(s, room) => JoinRecords(h, a, s, room, u, nr);
      case _ =>
        QuietLeft(h, e, u, nr);
        assert FanOk(h, a, u, nr);
        QuietRecords(h, a, e, u, nr);
    }
  }

  lemma {:induction false} RunRecords(es: seq<Step>)
    ensures FansOk(Run(es), Record(es))
  {
    if es != [] {
      RunRecords(Front(es));
      var h := Run(Front(es));
      if Enabled(h, Last(es)) {
        StepRecords(h, Record(Front(es)), Last(es));
      }
    }
  }

  /**
   * Nobody is forgotten, under every interleaving: once a broadcast has served its snapshot, each of
   * its members has been given the frame or had a full queue at its turn, and never both; the count is
   * how many were given it.
   */
  lemma EveryTargetServed(es: seq<Step>, s: Id, nr: nat)
    requires s in Run(es).sessions && nr < |Run(es).sessions[s].sent| && Left(Run(es), s, nr) == {}
    ensures
      var h := Run(es);
      && (s, nr) in Record(es)
      && var fan := Record(es)[(s, nr)];
      && fan.targets == Holders(h, s, nr) + fan.full && fan.full !! Holders(h, s, nr)
      && nr < |h.sessions[s].reached| && h.sessions[s].reached[nr] == |fan.targets| - |fan.full|
  {
    RunRecords(es);
    var h := Run(es);
    assert FanOk(h, Record(es), s, nr);
    assert PendingOk(h, s) && CountsOk(h, s);
  }
}
