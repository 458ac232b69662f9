/**
 * What the steps of the LAN transport bring about in every reachable state: who becomes and who stays
 * a live connection, when a dial routine is over, and that a discovered peer gets connected.
 */
module LanEffects {
  import opened Util
  import opened LanPeers

  /** The connection that holds the peer `p`. */
  ghost predicate Connected(n: Node, p: Fp, c: ConnId) {
    Live(n, c) && n.conns[c].cert == Some(p)
  }

  /** Everything but the connection `c` is as before: the others, and the dialer. */
  ghost predicate OthersStay(n: Node, r: Node, c: ConnId) {
    && (forall d :: d != c ==> (d in r.conns <==> d in n.conns) && (Live(r, d) <==> Live(n, d)))
    && (forall d :: d != c && d in n.conns ==> r.conns[d] == n.conns[d])
    && r.dialing == n.dialing && r.dials == n.dials && r.fp == n.fp
  }

  lemma NameStays(fp: Fp, es: seq<Step>)
    ensures Run(Start(fp), es).fp == fp
  {
    DialerInvariant(fp, es);
  }

  /**
   * A connection that registers becomes live if and only if it shows a certificate, not the node's own,
   * and no other connection of the same peer is live; it is refused otherwise.
   */
  lemma RegistersIff(fp: Fp, es: seq<Step>, c: ConnId)
    requires Enabled(Run(Start(fp), es), Register(c))
    ensures
      var n, r := Run(Start(fp), es), Next(Run(Start(fp), es), Register(c));
      var cert := n.conns[c].cert;
      && OthersStay(n, r, c) && c in r.conns && r.conns[c].cert == cert
      && (Live(r, c) <==> cert.Some? && cert.value != fp && forall d :: !Connected(n, cert.value, d))
      && (!Live(r, c) ==> r.conns[c].phase == Refused && r.peers == n.peers)
  {
    NameStays(fp, es);
    TableIsLiveConnections(fp, es);
    StepKeepsOwnership(Run(Start(fp), es), Register(c));
    var n := Run(Start(fp), es);
    var cert := n.conns[c].cert;
    assert !Live(n, c) && c !in n.swept;
    if cert.Some? && cert.value in n.peers {
      assert Connected(n, cert.value, n.peers[cert.value]);
    }
  }

  /** After its cleanup a connection is not live, and nothing else changes. */
  lemma ExitsForGood(fp: Fp, es: seq<Step>, c: ConnId)
    requires Enabled(Run(Start(fp), es), Exit(c))
    ensures
      var n, r := Run(Start(fp), es), Next(Run(Start(fp), es), Exit(c));
      OthersStay(n, r, c) && c in r.conns && r.conns[c].phase == Exited && !Live(r, c)
  {
  }

  /** Close leaves no live connection and an empty table; handlers and dial routines go on. */
  lemma CloseLeavesNone(fp: Fp, es: seq<Step>)
    ensures
      var n, r := Run(Start(fp), es), Next(Run(Start(fp), es), Close);
      && |r.peers| == 0 && (forall c :: !Live(r, c))
      && r.conns == n.conns && r.dials == n.dials && r.dialing == n.dialing
  {
  }

  /** Each of the three ends of a dial routine ends it, frees its target, and touches nothing else. */
  lemma RoutineEnds(fp: Fp, es: seq<Step>, e: Step)
    requires (e.NoAddress? || e.DialFailed? || e.Return?) && Enabled(Run(Start(fp), es), e)
    ensures
      var n, r := Run(Start(fp), es), Next(Run(Start(fp), es), e);
      && e.id in n.dials && e.id !in r.dials && n.dials[e.id] !in r.dialing
      && (forall p :: p != n.dials[e.id] ==> (p in r.dialing <==> p in n.dialing))
      && (forall i :: i != e.id && i in n.dials ==> i in r.dials && r.dials[i] == n.dials[i])
      && r.conns == n.conns && r.peers == n.peers
  {
  }

  lemma RunPush(fp: Fp, es: seq<Step>, e: Step)
    requires Enabled(Run(Start(fp), es), e)
    ensures Run(Start(fp), es + [e]) == Next(Run(Start(fp), es), e)
  {
    assert Front(es + [e]) == es;
  }

  /** Nothing is under way for the peer `p`: no live connection to it and no dial routine. */
  ghost predicate Unknown(n: Node, p: Fp) {
    (forall c :: !Connected(n, p, c)) && (forall i :: i in n.dials ==> n.dials[i] != p)
  }

  ghost predicate Unused(n: Node, id: DialId, c: ConnId) {
    id !in n.dials && c !in n.conns && forall d :: d in n.conns ==> n.conns[d].dialedBy != Some(id)
  }

  /** After the discovery the routine is alive and may dial. */
  lemma DiscoveryReserves(fp: Fp, es: seq<Step>, p: Fp, id: DialId, c: ConnId)
    requires fp < p && Unknown(Run(Start(fp), es), p) && Unused(Run(Start(fp), es), id, c)
    ensures
      var n, r := Run(Start(fp), es), Run(Start(fp), es + [Discover(p, id)]);
      && r == n.(dialing := n.dialing + {p}, dials := n.dials[id := p])
      && Unused(r.(dials := n.dials), id, c) && DialPending(r, id) && forall d :: !Connected(r, p, d)
  {
    DialerInvariant(fp, es);
    TableIsLiveConnections(fp, es);
    RunPush(fp, es, Discover(p, id));
    var n, r := Run(Start(fp), es), Run(Start(fp), es + [Discover(p, id)]);
    if p in n.peers {
      assert Connected(n, p, n.peers[p]);
    }
    assert forall d :: Connected(r, p, d) <==> Connected(n, p, d);
  }

  /**
   * A peer with a larger fingerprint, not connected and not being dialed, is connected by one discovery:
   * the dial it starts, once answered by that peer, ends in the table and is live.
   */
  lemma DiscoveryConnects(fp: Fp, es: seq<Step>, p: Fp, id: DialId, c: ConnId)
    requires fp < p && Unknown(Run(Start(fp), es), p) && Unused(Run(Start(fp), es), id, c)
    ensures
      var r := Run(Start(fp), es + [Discover(p, id)] + [Dialed(id, c, Some(p))] + [Register(c)]);
      Connected(r, p, c) && p in r.peers && r.peers[p] == c && p in r.dialing && Holds(r, c, id)
  {
    DiscoveryReserves(fp, es, p, id, c);
    var es1 := es + [Discover(p, id)];
    var es2 := es1 + [Dialed(id, c, Some(p))];
    TableIsLiveConnections(fp, es1);
    RunPush(fp, es1, Dialed(id, c, Some(p)));
    var n1, n2 := Run(Start(fp), es1), Run(Start(fp), es2);
    assert n2.conns[c] == Conn(Some(p), Arrived, Some(id));
    assert forall d :: Connected(n2, p, d) ==> Connected(n1, p, d);
    RegistersIff(fp, es2, c);
    RunPush(fp, es2, Register(c));
    TableIsLiveConnections(fp, es2 + [Register(c)]);
  }

  /** An accepted connection of a peer that is not connected ends in the table as well, whoever is larger. */
  lemma AcceptConnects(fp: Fp, es: seq<Step>, p: Fp, c: ConnId)
    requires p != fp && c !in Run(Start(fp), es).conns && forall d :: !Connected(Run(Start(fp), es), p, d)
    ensures
      var r := Run(Start(fp), es + [Accepted(c, Some(p))] + [Register(c)]);
      Connected(r, p, c) && p in r.peers && r.peers[p] == c
  {
    var n, es1 := Run(Start(fp), es), es + [Accepted(c, Some(p))];
    TableIsLiveConnections(fp, es);
    RunPush(fp, es, Accepted(c, Some(p)));
    var n1 := Run(Start(fp), es1);
    assert forall d :: Connected(n1, p, d) ==> Connected(n, p, d);
    RegistersIff(fp, es1, c);
    RunPush(fp, es1, Register(c));
    TableIsLiveConnections(fp, es1 + [Register(c)]);
  }

  /** A routine that finds no address, or whose dial fails, leaves the node as it was before the discovery. */
  lemma FailedDialLeavesNoTrace(fp: Fp, es: seq<Step>, p: Fp, id: DialId, e: Step)
    requires fp < p && Unknown(Run(Start(fp), es), p) && Unused(Run(Start(fp), es), id, id)
    requires e == NoAddress(id) || e == DialFailed(id)
    ensures Run(Start(fp), es + [Discover(p, id)] + [e]) == Run(Start(fp), es)
  {
    DiscoveryReserves(fp, es, p, id, id);
    DialerInvariant(fp, es);
    var n, r := Run(Start(fp), es), Run(Start(fp), es + [Discover(p, id)]);
    RunPush(fp, es + [Discover(p, id)], e);
    assert p !in n.dialing;
    assert r.dialing - {p} == n.dialing;
    assert Removed(r.dials, id) == n.dials;
  }

  /** Once the connection a discovery made has exited and its routine has returned, the peer is unknown again. */
  lemma GonePeerIsUnknown(fp: Fp, es: seq<Step>, c: ConnId, id: DialId)
    requires Live(Run(Start(fp), es), c) && Holds(Run(Start(fp), es), c, id)
    requires
      var n := Run(Start(fp), es);
      n.conns[c].cert.Some? && id in n.dials && n.conns[c].cert == Some(n.dials[id])
    ensures
      var n, r := Run(Start(fp), es), Run(Start(fp), es + [Exit(c)] + [Return(id)]);
      var p := n.dials[id];
      && Unknown(r, p) && p !in r.peers && ShouldDial(r, p)
      && (forall d :: d != c ==> (Live(r, d) <==> Live(n, d)))
  {
    var n, es1 := Run(Start(fp), es), es + [Exit(c)];
    var p := n.dials[id];
    TableIsLiveConnections(fp, es);
    DialerInvariant(fp, es);
    RunPush(fp, es, Exit(c));
    var n1 := Run(Start(fp), es1);
    ExitsForGood(fp, es, c);
    assert n1.conns[c].phase == Exited && n1.conns[c].dialedBy == Some(id);
    RunPush(fp, es1, Return(id));
    RoutineEnds(fp, es1, Return(id));
    DialerInvariant(fp, es1 + [Return(id)]);
    TableIsLiveConnections(fp, es1 + [Return(id)]);
    var r := Run(Start(fp), es1 + [Return(id)]);
    assert forall d :: d != c ==> (Live(r, d) <==> Live(n, d));
    assert forall d :: Connected(n, p, d) ==> p in n.peers && n.peers[p] == d;
    assert Connected(n, p, c);
    assert forall d :: Connected(r, p, d) ==> Connected(n, p, d);
  }
}
