/**
 * The hub's state as its history: who is in a room, what each client has sent, how much each writer has
 * written and which broadcasts are under way, all read off the steps that took place.
 */
module BrokerHistory {
  import opened Util
  import opened Broker

  /** The steps of a run that were possible when their turn came. */
  ghost function Done(es: seq<Step>): seq<Step> {
    if |es| == 0 then []
    else if Enabled(Run(Front(es)), Last(es)) then Done(Front(es)) + [Last(es)]
    else Done(Front(es))
  }

  /** Who joined the room and has not left. */
  function Inside(steps: seq<Step>, room: string): set<Id> {
    if |steps| == 0 then {}
    else
      var before := Inside(Front(steps), room);
      match Last(steps)
      case Join(s, r) => if r == room then before + {s} else before
      case Leave(s) => before - {s}
      case _ => before
  }

  /** The frames read from client `s`. */
  function BegunBy(steps: seq<Step>, s: Id): seq<Bytes> {
    if |steps| == 0 then []
    else
      var before := BegunBy(Front(steps), s);
      match Last(steps)
      case Begin(u, bytes) => if u == s then before + [bytes] else before
      case _ => before
  }

  /** How many frames the writer of `s` has taken. */
  function Drains(steps: seq<Step>, s: Id): nat {
    if |steps| == 0 then 0
    else Drains(Front(steps), s) + if Last(steps) == Drain(s) then 1 else 0
  }

  /** A broadcast of `s` has begun and not returned. */
  predicate Busy(steps: seq<Step>, s: Id) {
    |steps| >= 1
    && match Last(steps)
       case Begin(u, bytes) => u == s || Busy(Front(steps), s)
       case Finish(u) => u != s && Busy(Front(steps), s)
       case _ => Busy(Front(steps), s)
  }

  lemma DonePush(es: seq<Step>)
    requires |es| >= 1 && Enabled(Run(Front(es)), Last(es))
    ensures |Done(es)| >= 1 && Front(Done(es)) == Done(Front(es)) && Last(Done(es)) == Last(es)
    ensures Run(es) == Next(Run(Front(es)), Last(es))
  {
  }

  ghost predicate SessionIsHistory(h: Hub, steps: seq<Step>, s: Id) {
    if s in h.sessions then
      && h.sessions[s].sent == BegunBy(steps, s)
      && |h.sessions[s].out| == Drains(steps, s)
      && (h.sessions[s].pending.Some? <==> Busy(steps, s))
    else
      |BegunBy(steps, s)| == 0 && Drains(steps, s) == 0 && !Busy(steps, s)
  }

  lemma StepIsHistory(h: Hub, steps: seq<Step>, e: Step, s: Id)
    requires Inv(h) && Enabled(h, e) && SessionIsHistory(h, steps, s)
    ensures SessionIsHistory(Next(h, e), steps + [e], s)
  {
    assert Front(steps + [e]) == steps && Last(steps + [e]) == e;
    if e.Hand? {
      HandGot(h, e.s, e.to);
      assert PendingOk(h, e.s);
    }
  }

  /**
   * In every reachable state the frames a client has sent are those its broadcasts began with, in order,
   * its writer has written as many frames as it has taken, and it is broadcasting exactly between the
   * begin and the return.
   */
  lemma {:induction false} SessionsAreHistory(es: seq<Step>, s: Id)
    ensures SessionIsHistory(Run(es), Done(es), s)
  {
    if |es| >= 1 {
      SessionsAreHistory(Front(es), s);
      if Enabled(Run(Front(es)), Last(es)) {
        StepIsHistory(Run(Front(es)), Done(Front(es)), Last(es), s);
        DonePush(es);
      }
    }
  }

  lemma StepMoves(h: Hub, steps: seq<Step>, e: Step, room: string)
    requires Inv(h) && Enabled(h, e) && Members(h.rooms, room) == Inside(steps, room)
    ensures Members(Next(h, e).rooms, room) == Inside(steps + [e], room)
  {
    assert Front(steps + [e]) == steps && Last(steps + [e]) == e;
    if e.Hand? {
      assert PendingOk(h, e.s);
    }
  }

  /** A room's members, the recipients of its broadcasts, are those who joined it and have not left. */
  lemma {:induction false} MembersAreInside(es: seq<Step>, room: string)
    ensures Members(Run(es).rooms, room) == Inside(Done(es), room)
    ensures room in Run(es).rooms <==> |Inside(Done(es), room)| >= 1
  {
    if |es| >= 1 {
      MembersAreInside(Front(es), room);
      if Enabled(Run(Front(es)), Last(es)) {
        StepMoves(Run(Front(es)), Done(Front(es)), Last(es), room);
        DonePush(es);
      }
    }
    assert Inv(Run(es));
    if room in Run(es).rooms {
      var m :| m in Run(es).rooms[room];
    }
  }
}
