/**
 * The LAN transport's peer table and dialer. One node: connections arrive, register, are refused and
 * clean up in any interleaving, also across Close. The network: nodes with distinct fingerprints,
 * where only the smaller side dials.
 */
module LanPeers {
  import opened Util

  /** A certificate fingerprint; fixed-length hexadecimal text, so ordered like a number. */
  type Fp = nat
  type ConnId = nat
  type DialId = nat

  /** Where the handler of a connection is; `cert` is the peer's certificate, if it showed one. */
  datatype Phase = Arrived | Registered | Refused | Exited
  datatype Conn = Conn(cert: Option<Fp>, phase: Phase, dialedBy: Option<DialId>)

  /** A dial routine is alive from its reservation until its deferred clearDialing. */
  datatype Node = Node(
    fp: Fp,
    peers: map<Fp, ConnId>,
    dialing: set<Fp>,
    conns: map<ConnId, Conn>,   // every connection ever handled
    swept: set<ConnId>,         // registered when Close emptied the table
    dials: map<DialId, Fp>)     // dial routines alive, with their target

  datatype Step =
    | Discover(fp: Fp, id: DialId)                    // handleEntry on a same-room entry, up to the spawn
    | NoAddress(id: DialId)                           // pickAddr found nothing: give the reservation up
    | DialFailed(id: DialId)
    | Dialed(id: DialId, c: ConnId, cert: Option<Fp>) // the dial connected, to whoever answers there
    | Accepted(c: ConnId, cert: Option<Fp>)
    | Register(c: ConnId)                             // handleConn up to its read loop
    | Exit(c: ConnId)                                 // handleConn's deferred cleanup
    | Return(id: DialId)                              // handleConn returned: the dial's deferred clearDialing
    | Close

  function RegisteredConns(conns: map<ConnId, Conn>): set<ConnId> {
    set c | c in conns && conns[c].phase == Registered
  }

  function Removed<K, V>(m: map<K, V>, k: K): map<K, V> {
    m - {k}
  }

  predicate ShouldDial(n: Node, fp: Fp) {
    n.fp < fp && fp !in n.peers && fp !in n.dialing
  }

  /** clearDialing, and the end of the routine that calls it. */
  function EndDial(n: Node, id: DialId): Node
    requires id in n.dials
  {
    n.(dialing := n.dialing - {n.dials[id]}, dials := Removed(n.dials, id))
  }

  /** Registration: no certificate, our own, or a peer already in the table closes the connection. */
  function RegisterConn(n: Node, c: ConnId): Node
    requires c in n.conns
  {
    var k := n.conns[c];
    if k.cert.None? || k.cert.value == n.fp || (k.cert.value in n.peers && n.peers[k.cert.value] != c)
    then n.(conns := n.conns[c := k.(phase := Refused)])
    else n.(conns := n.conns[c := k.(phase := Registered)], peers := n.peers[k.cert.value := c])
  }

  /** Cleanup: the table entry goes only if it still is this connection. */
  function ExitConn(n: Node, c: ConnId): Node
    requires c in n.conns && n.conns[c].cert.Some?
  {
    var k := n.conns[c];
    var fp := k.cert.value;
    var peers := if fp in n.peers && n.peers[fp] == c then Removed(n.peers, fp) else n.peers;
    n.(conns := n.conns[c := k.(phase := Exited)], peers := peers)
  }

  predicate DialPending(n: Node, id: DialId) {
    id in n.dials && forall c :: c in n.conns ==> n.conns[c].dialedBy != Some(id)
  }

  /** The handler of the routine's connection has returned, refused or cleaned up. */
  predicate HandlerReturned(n: Node, id: DialId) {
    id in n.dials
    && exists c :: c in n.conns && n.conns[c].dialedBy == Some(id)
                     && (n.conns[c].phase == Refused || n.conns[c].phase == Exited)
  }

  predicate Enabled(n: Node, e: Step) {
    match e
    case Discover(fp, id) => id !in n.dials && (forall c :: c in n.conns ==> n.conns[c].dialedBy != Some(id))
    case NoAddress(id) => DialPending(n, id)
    case DialFailed(id) => DialPending(n, id)
    case Dialed(id, c, cert) => DialPending(n, id) && c !in n.conns
    case Accepted(c, cert) => c !in n.conns
    case Register(c) => c in n.conns && n.conns[c].phase == Arrived
    case Exit(c) => c in n.conns && n.conns[c].phase == Registered && n.conns[c].cert.Some?
    case Return(id) => HandlerReturned(n, id)
    case Close => true
  }

  function Next(n: Node, e: Step): Node
    requires Enabled(n, e)
  {
    match e
    case Discover(fp, id) =>
      if ShouldDial(n, fp) then n.(dialing := n.dialing + {fp}, dials := n.dials[id := fp]) else n
    case NoAddress(id) => EndDial(n, id)
    case DialFailed(id) => EndDial(n, id)
    case Dialed(id, c, cert) => n.(conns := n.conns[c := Conn(cert, Arrived, Some(id))])
    case Accepted(c, cert) => n.(conns := n.conns[c := Conn(cert, Arrived, None)])
    case Register(c) => RegisterConn(n, c)
    case Exit(c) => ExitConn(n, c)
    case Return(id) => EndDial(n, id)
    case Close => n.(peers := map[], swept := n.swept + RegisteredConns(n.conns))
  }

  function Start(fp: Fp): Node {
    Node(fp, map[], {}, map[], {}, map[])
  }

  /** A run: every step that is not enabled when its turn comes is skipped. */
  function Run(n: Node, es: seq<Step>): Node {
    if es == [] then n
    else
      var m := Run(n, Front(es));
      if Enabled(m, Last(es)) then Next(m, Last(es)) else m
  }

  // ---- who owns a table entry ----

  /** The connection's handler is registered, not cleaned up, and was not swept by Close. */
  ghost predicate Live(n: Node, c: ConnId) {
    c in n.conns && n.conns[c].phase == Registered && c !in n.swept
  }

  /** The table holds exactly the live connections, each under its certificate's fingerprint. */
  ghost predicate Ownership(n: Node) {
    && (forall fp, c :: fp in n.peers && n.peers[fp] == c <==> Live(n, c) && n.conns[c].cert == Some(fp))
    && (forall c :: c in n.conns && n.conns[c].phase == Registered ==>
         n.conns[c].cert.Some? && n.conns[c].cert.value != n.fp)
    && (forall c :: c in n.swept ==> c in n.conns && n.conns[c].phase != Arrived)
  }

  lemma RegisterKeepsOwnership(n: Node, c: ConnId)
    requires Ownership(n) && Enabled(n, Register(c))
    ensures Ownership(Next(n, Register(c)))
  {
    assert Next(n, Register(c)).swept == n.swept && c !in n.swept;
  }

  lemma ExitKeepsOwnership(n: Node, c: ConnId)
    requires Ownership(n) && Enabled(n, Exit(c))
    ensures Ownership(Next(n, Exit(c)))
  {
    assert Next(n, Exit(c)).swept == n.swept;
  }

  lemma StepKeepsOwnership(n: Node, e: Step)
    requires Ownership(n) && Enabled(n, e)
    ensures Ownership(Next(n, e))
  {
    var r := Next(n, e);
    match e
    case Register(c) => RegisterKeepsOwnership(n, c);
    case Exit(c) => ExitKeepsOwnership(n, c);
    case Close => assert forall c :: !Live(r, c);
    case _ =>
      assert forall c :: Live(r, c) <==> Live(n, c);
      SameTableKeepsOwnership(n, r);
  }

  /** Nothing changes but connections that are not live, and the dialer. */
  lemma SameTableKeepsOwnership(n: Node, r: Node)
    requires Ownership(n) && r.fp == n.fp && r.peers == n.peers && r.swept == n.swept
    requires forall c :: c in n.conns ==> c in r.conns && r.conns[c] == n.conns[c]
    requires forall c :: c in r.conns && c !in n.conns ==> r.conns[c].phase == Arrived
    ensures Ownership(r)
  {
    assert forall c :: Live(r, c) <==> Live(n, c);
  }

  /**
   * Under every interleaving, Close included: `peers[fp] = c` holds if and only if c's handler is
   * registered, not cleaned up, not swept by Close, and c's certificate has fingerprint fp.
   */
  lemma {:induction false} TableIsLiveConnections(fp: Fp, es: seq<Step>)
    ensures Ownership(Run(Start(fp), es))
  {
    if es != [] {
      TableIsLiveConnections(fp, Front(es));
      if Enabled(Run(Start(fp), Front(es)), Last(es)) {
        StepKeepsOwnership(Run(Start(fp), Front(es)), Last(es));
      }
    }
  }

  /** There is at most one live connection per peer, and none to the node itself. */
  lemma OneConnectionPerPeer(fp: Fp, es: seq<Step>, c: ConnId, d: ConnId)
    requires
      var n := Run(Start(fp), es);
      Live(n, c) && Live(n, d) && n.conns[c].cert == n.conns[d].cert
    ensures c == d
    ensures
      var n := Run(Start(fp), es);
      n.conns[c].cert.Some? && n.conns[c].cert.value != n.fp
  {
    TableIsLiveConnections(fp, es);
    var n := Run(Start(fp), es);
    assert n.peers[n.conns[c].cert.value] == c;
  }

  /** What the cleanup of `c` does to the table `peers`. */
  ghost predicate OwnCleanup(n: Node, r: Node, c: ConnId) {
    && (forall p :: p in n.peers && n.peers[p] != c ==> p in r.peers && r.peers[p] == n.peers[p])
    && (forall p :: p in r.peers ==> p in n.peers && r.peers[p] == n.peers[p] && r.peers[p] != c)
    && (r.peers != n.peers <==> Live(n, c))
  }

  lemma CleanupStep(n: Node, c: ConnId)
    requires Ownership(n) && Enabled(n, Exit(c))
    ensures OwnCleanup(n, Next(n, Exit(c)), c)
  {
    var r := Next(n, Exit(c));
    var p := n.conns[c].cert.value;
    assert r.peers == if p in n.peers && n.peers[p] == c then Removed(n.peers, p) else n.peers;
    assert forall q :: q in n.peers && n.peers[q] == c ==> q == p;
  }

  /**
   * A cleanup, however late, removes the entry of its own connection or nothing: entries of other
   * connections stay, and it removes its own exactly when the connection is live.
   */
  lemma CleanupIsOwn(fp: Fp, es: seq<Step>, c: ConnId)
    requires Enabled(Run(Start(fp), es), Exit(c))
    ensures OwnCleanup(Run(Start(fp), es), Next(Run(Start(fp), es), Exit(c)), c)
  {
    TableIsLiveConnections(fp, es);
    CleanupStep(Run(Start(fp), es), c);
  }

  // ---- the dialer ----

  /** A connection whose handler is still running inside a dial routine. */
  ghost predicate Holds(n: Node, c: ConnId, id: DialId) {
    c in n.conns && n.conns[c].dialedBy == Some(id) && (n.conns[c].phase == Arrived || n.conns[c].phase == Registered)
  }

  /** `dialing` is the set of targets of the routines alive; targets are larger and all different. */
  ghost predicate TargetsOk(n: Node) {
    && (forall fp :: fp in n.dialing <==> exists id :: id in n.dials && n.dials[id] == fp)
    && (forall i, j :: i in n.dials && j in n.dials && n.dials[i] == n.dials[j] ==> i == j)
    && (forall i :: i in n.dials ==> n.fp < n.dials[i])
  }

  ghost predicate DialedBy(n: Node, c: ConnId, id: DialId) {
    c in n.conns && n.conns[c].dialedBy == Some(id)
  }

  /** A routine whose connection is still handled is alive, and a routine has one connection at most. */
  ghost predicate HandlersOk(n: Node) {
    && (forall c, id :: Holds(n, c, id) ==> id in n.dials)
    && (forall c, d, id :: DialedBy(n, c, id) && DialedBy(n, d, id) ==> c == d)
  }

  lemma EndDialKeeps(n: Node, id: DialId)
    requires id in n.dials && TargetsOk(n)
    ensures
      var r := EndDial(n, id);
      TargetsOk(r) && n.dials[id] !in r.dialing && r.dials == Removed(n.dials, id)
  {
    var r := EndDial(n, id);
    forall fp | fp in r.dialing ensures exists i :: i in r.dials && r.dials[i] == fp {
      var i :| i in n.dials && n.dials[i] == fp;
      assert i in r.dials;
    }
  }

  lemma DiscoverKeepsTargets(n: Node, fp: Fp, id: DialId)
    requires TargetsOk(n) && Enabled(n, Discover(fp, id))
    ensures TargetsOk(Next(n, Discover(fp, id)))
  {
    var r := Next(n, Discover(fp, id));
    if ShouldDial(n, fp) {
      forall p | p in r.dialing ensures exists i :: i in r.dials && r.dials[i] == p {
        if p == fp {
          assert r.dials[id] == fp;
        } else {
          var i :| i in n.dials && n.dials[i] == p;
          assert i in r.dials;
        }
      }
    }
  }

  lemma StepKeepsTargets(n: Node, e: Step)
    requires TargetsOk(n) && Enabled(n, e)
    ensures TargetsOk(Next(n, e))
  {
    match e
    case Discover(fp, id) => DiscoverKeepsTargets(n, fp, id);
    case NoAddress(id) => EndDialKeeps(n, id);
    case DialFailed(id) => EndDialKeeps(n, id);
    case Return(id) => EndDialKeeps(n, id);
    case _ =>
  }

  lemma StepKeepsHandlers(n: Node, e: Step)
    requires HandlersOk(n) && Enabled(n, e)
    ensures HandlersOk(Next(n, e))
  {
    var r := Next(n, e);
    if e.Return? {
      var d :| d in n.conns && n.conns[d].dialedBy == Some(e.id)
               && (n.conns[d].phase == Refused || n.conns[d].phase == Exited);
      assert DialedBy(n, d, e.id);
      assert forall c :: Holds(n, c, e.id) ==> DialedBy(n, c, e.id);
    }
    forall c, id | Holds(r, c, id) ensures id in r.dials {
      assert Holds(n, c, id) || (e.Dialed? && e.c == c && e.id == id);
    }
    forall c, d, id | DialedBy(r, c, id) && DialedBy(r, d, id) ensures c == d {
      assert DialedBy(n, c, id) || (e.Dialed? && e.c == c && e.id == id);
      assert DialedBy(n, d, id) || (e.Dialed? && e.c == d && e.id == id);
    }
  }

  ghost predicate DialerOk(n: Node) {
    TargetsOk(n) && HandlersOk(n)
  }

  lemma DialerStep(n: Node, e: Step)
    requires DialerOk(n) && Enabled(n, e)
    ensures DialerOk(Next(n, e)) && Next(n, e).fp == n.fp
  {
    StepKeepsTargets(n, e);
    StepKeepsHandlers(n, e);
  }

  lemma {:induction false} DialerInvariant(fp: Fp, es: seq<Step>)
    ensures
      var n := Run(Start(fp), es);
      n.fp == fp && DialerOk(n)
  {
    if es != [] {
      DialerInvariant(fp, Front(es));
      var n := Run(Start(fp), Front(es));
      if Enabled(n, Last(es)) {
        DialerStep(n, Last(es));
      }
    }
  }

  /**
   * `dialing[p]` is set exactly while a dial routine for p is alive, there is then exactly one, and a
   * discovery reserves p again exactly when no routine and no table entry for it is left.
   */
  lemma DialingMeansAlive(fp: Fp, es: seq<Step>, p: Fp, id: DialId)
    ensures
      var n := Run(Start(fp), es);
      && (p in n.dialing <==> exists i :: i in n.dials && n.dials[i] == p)
      && (forall i, j :: i in n.dials && j in n.dials && n.dials[i] == p && n.dials[j] == p ==> i == j)
      && (Enabled(n, Discover(p, id)) ==>
           (id in Next(n, Discover(p, id)).dials <==>
             fp < p && p !in n.peers && !exists i :: i in n.dials && n.dials[i] == p))
  {
    DialerInvariant(fp, es);
  }

  /** Whatever ends a routine, a failure or the exit of its connection, its target can be dialed again. */
  lemma EndedDialCanBeRetried(fp: Fp, es: seq<Step>, e: Step, id: DialId)
    requires
      var n := Run(Start(fp), es);
      Enabled(n, e) && id in n.dials && id !in Next(n, e).dials
    ensures
      var n := Run(Start(fp), es);
      var r := Next(n, e);
      var p := n.dials[id];
      p !in r.dialing && (ShouldDial(r, p) <==> p !in r.peers)
  {
    DialerInvariant(fp, es);
    var n := Run(Start(fp), es);
    StepKeepsTargets(n, e);
    var r := Next(n, e);
    assert forall j :: j in r.dials ==> j in n.dials && r.dials[j] == n.dials[j];
  }

  /**
   * Between the end of a handler and its dial's clearDialing, with the table entry gone or never made,
   * the target is still reserved: no discovery dials it.
   */
  lemma ReservedUntilReturn(fp: Fp, es: seq<Step>, id: DialId, c: ConnId)
    requires
      var n := Run(Start(fp), es);
      id in n.dials && DialedBy(n, c, id) && !Holds(n, c, id)
    ensures
      var n := Run(Start(fp), es);
      Enabled(n, Return(id)) && n.dials[id] in n.dialing && !ShouldDial(n, n.dials[id])
  {
    DialerInvariant(fp, es);
  }

  /** The next step of a routine that is alive. */
  function Onward(n: Node, id: DialId, c: ConnId): Step {
    if c !in n.conns || n.conns[c].dialedBy != Some(id) then DialFailed(id)
    else if n.conns[c].phase == Arrived then Register(c)
    else if n.conns[c].phase == Registered then Exit(c)
    else Return(id)
  }

  /** No routine is ever stuck: in every reachable state the one step it waits for is possible. */
  lemma RoutineNeverStuck(fp: Fp, es: seq<Step>, id: DialId) returns (c: ConnId)
    requires id in Run(Start(fp), es).dials
    ensures Enabled(Run(Start(fp), es), Onward(Run(Start(fp), es), id, c))
  {
    TableIsLiveConnections(fp, es);
    var n := Run(Start(fp), es);
    if DialPending(n, id) {
      c := 0;
    } else {
      c :| c in n.conns && n.conns[c].dialedBy == Some(id);
    }
  }

  // ---- the network ----

  /** Every node runs its own interleaving; `runs` maps a node's fingerprint to its history. */
  lemma OneDialPerPair(
    runs: map<Fp, seq<Step>>, a: Fp, i: DialId, b: Fp, j: DialId)
    requires a in runs && b in runs
    requires i in Run(Start(a), runs[a]).dials && j in Run(Start(b), runs[b]).dials
    requires {a, Run(Start(a), runs[a]).dials[i]} == {b, Run(Start(b), runs[b]).dials[j]}
    ensures a == b && i == j
  {
    DialerInvariant(a, runs[a]);
    DialerInvariant(b, runs[b]);
    var p, q := Run(Start(a), runs[a]).dials[i], Run(Start(b), runs[b]).dials[j];
    assert a in {b, q} && b in {a, p};
  }

  // ---- the transport object ----

  /** The two maps the lock protects; `node` is the node they are the state of. */
  class Transport {
    const fp: Fp
    var peers: map<Fp, ConnId>
    var dialing: set<Fp>
    ghost var node: Node

    ghost predicate Valid()
      reads this
    {
      node.fp == fp && node.peers == peers && node.dialing == dialing
    }

    constructor (fp: Fp)
      ensures Valid() && this.fp == fp && node == Start(fp)
    {
      this.fp := fp;
      peers, dialing, node := map[], {}, Start(fp);
    }

    /** handleEntry: decides whether to dial, and reserves the peer if so. */
    method HandleEntry(peer: Fp, ghost id: DialId) returns (dial: bool)
      requires Valid() && Enabled(node, Discover(peer, id))
      modifies this
      ensures Valid() && node == Next(old(node), Discover(peer, id))
      ensures dial <==> ShouldDial(old(node), peer)
    {
      if peer == fp {
        return false;
      }
      if fp >= peer {
        return false;
      }
      if peer in peers || peer in dialing {
        return false;
      }
      dialing := dialing + {peer};
      node := Next(node, Discover(peer, id));
      return true;
    }

    /** A connection is made or accepted; the maps the lock protects do not change. */
    ghost method Arrive(e: Step)
      requires Valid() && (e.Dialed? || e.Accepted?) && Enabled(node, e)
      modifies this`node
      ensures Valid() && node == Next(old(node), e)
    {
      node := Next(node, e);
    }

    /** clearDialing: the routine has no address, its dial failed, or its handler returned. */
    method ClearDialing(peer: Fp, ghost e: Step)
      requires Valid() && (e.NoAddress? || e.DialFailed? || e.Return?) && Enabled(node, e) && node.dials[e.id] == peer
      modifies this
      ensures Valid() && node == Next(old(node), e)
    {
      dialing := dialing - {peer};
      node := Next(node, e);
    }

    /** handleConn's registration; when it returns false the connection is closed. */
    method RegisterPeer(c: ConnId, cert: Option<Fp>) returns (ok: bool)
      requires Valid() && Enabled(node, Register(c)) && node.conns[c].cert == cert
      modifies this
      ensures Valid() && node == Next(old(node), Register(c))
      ensures ok <==> node.conns[c].phase == Registered
    {
      node := Next(node, Register(c));
      ok := false;
      if cert.Some? && cert.value != fp {
        if !(cert.value in peers && peers[cert.value] != c) {
          peers := peers[cert.value := c];
          return true;
        }
      }
    }

    /** handleConn's deferred cleanup. */
    method Cleanup(c: ConnId, peer: Fp)
      requires Valid() && Enabled(node, Exit(c)) && node.conns[c].cert == Some(peer)
      modifies this
      ensures Valid() && node == Next(old(node), Exit(c))
    {
      node := Next(node, Exit(c));
      if peer in peers && peers[peer] == c {
        peers := Removed(peers, peer);
      }
    }

    method CloseAll()
      requires Valid()
      modifies this
      ensures Valid() && node == Next(old(node), Close)
    {
      peers := map[];
      node := Next(node, Close);
    }
  }
}
