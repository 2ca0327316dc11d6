/**
 From the handshake to the packets: the rings that both ends have once they are connected, the bytes that
 initializeQueues leaves, and the queue objects on them.
 */
module EndToEnd {
  import opened Bytes
  import opened Calls
  import opened Control
  import opened DataPath
  import opened FreshRings
  import opened Handshake
  import opened Layout
  import opened Ledger
  import opened PacketProcessing
  import opened RingMemory
  import A = RingProtocol
  import C = RingSteps
  import M = MemRegion

  /** The handshake's ring lists are those that initializeQueues builds. */
  lemma ListsAgree(c: MemoryConfig, qs: seq<Ring>, s2m: bool)
    requires |qs| == c.numQueuePairs && M.QueuesAt(c, qs, if s2m then 0 else c.numQueuePairs)
    ensures qs == NewRings(c, s2m)
  {
    forall i | 0 <= i < |qs| ensures qs[i] == NewRings(c, s2m)[i] {
      assert M.QueueAt(c, qs[i], (if s2m then 0 else c.numQueuePairs) + i);
      NewRingPlace(c, s2m, i);
    }
  }

  lemma {:induction false} StartsOnly(rings: seq<Ring>, o: nat)
    requires o in RingStarts(rings)
    ensures exists i :: 0 <= i < |rings| && rings[i].offset == o
    decreases |rings|
  {
    var n := |rings| - 1;
    if o != rings[n].offset {
      StartsOnly(rings[..n], o);
      var i :| 0 <= i < n && rings[..n][i].offset == o;
      assert rings[i].offset == o;
    }
  }

  lemma HeaderOfNewRing(c: MemoryConfig, m0: seq<byte>, m: seq<byte>, s2m: bool, o: nat)
    requires M.Initialized(c, m0, m) && o in RingStarts(NewRings(c, s2m))
    ensures M.HeaderOk(m, o)
  {
    StartsOnly(NewRings(c, s2m), o);
    var i :| 0 <= i < c.numQueuePairs && NewRings(c, s2m)[i].offset == o;
    NewRingPlace(c, s2m, i);
    assert M.HeaderOk(m, c.RingStart(if s2m then i else c.numQueuePairs + i));
  }

  /**
   A Hello that a client accepts: the lists it then has are those that initializeQueues builds, and the ring
   offsets that it adds to those that count as marked carry the cookie in the bytes.
   */
  lemma HelloMatchesBytes(c: Chan, cookies: set<nat>, h: Hello, m0: seq<byte>, m: seq<byte>, tx: seq<Ring>, rx: seq<Ring>, o: nat)
    requires c.Valid() && ParseHello(c, cookies, h).Done? && c.ports[c.port.value].tx == c.ports[c.port.value].rx == []
    requires var run := Negotiate(c.ports[c.port.value].cfg.memory, h);
             && M.Initialized(run, m0, m) && |tx| == |rx| == run.numQueuePairs
             && M.QueuesAt(run, tx, 0) && M.QueuesAt(run, rx, run.numQueuePairs)
    ensures var d := ParseHello(c, cookies, h);
            && d.chan.ports[c.port.value].tx == tx && d.chan.ports[c.port.value].rx == rx
            && (o in d.cookies ==> o in cookies || M.HeaderOk(m, o))
  {
    var p := c.ports[c.port.value];
    var run := Negotiate(p.cfg.memory, h);
    ListsAgree(run, tx, true);
    ListsAgree(run, rx, false);
    assert [] + NewRings(run, true) == NewRings(run, true) && [] + NewRings(run, false) == NewRings(run, false);
    if o in RingStarts(NewRings(run, true)) { HeaderOfNewRing(run, m0, m, true, o); }
    if o in RingStarts(NewRings(run, false)) { HeaderOfNewRing(run, m0, m, false, o); }
  }

  /** The two ports of a connection. */
  function ClientEnd(s: System): Port
    requires s.client.IsConnected()
  {
    s.client.ports[s.client.port.value]
  }

  function ServerEnd(s: System): Port
    requires s.server.IsConnected()
  {
    s.server.ports[s.server.port.value]
  }

  /** The run of a handshake in which the client has got as far as being connected. */
  ghost predicate Joins(E: Env, s: System, acts: seq<Act>) {
    && Initial(E, s) && (forall i :: 0 <= i < |acts| ==> Handshaking(acts[i])) && Run(s, acts).client.IsConnected()
  }

  lemma ConnectedLists(E: Env, s: System, acts: seq<Act>, t: System)
    requires Joins(E, s, acts) && t == Run(s, acts)
    ensures t.server.IsConnected() && ClientEnd(t).tx == ServerEnd(t).rx == NewRings(E.Memory(), true)
    ensures ClientEnd(t).rx == ServerEnd(t).tx == NewRings(E.Memory(), false)
    ensures |ClientEnd(t).regions| == |ServerEnd(t).regions| == 1
    ensures ClientEnd(t).regions[0].size == ServerEnd(t).regions[0].size == E.Memory().RegionSize()
  {
    LockStep(E, s, acts);
    QueuesAgree(E, s, acts);
    var ph := RunPhase(E, s, acts);
    ConnectedPhase(E, t, ph);
    ScriptParts(E);
  }

  /** Every ring that a connected server has carries the cookie that connect looks for, in the bytes. */
  lemma ServerRingsMarked(E: Env, s: System, acts: seq<Act>, m0: seq<byte>, m: seq<byte>, i: nat)
    requires Joins(E, s, acts) && M.Initialized(E.Memory(), m0, m) && i < E.Pairs()
    ensures var t := Run(s, acts);
            && t.server.IsConnected() && i < |ServerEnd(t).rx| && i < |ServerEnd(t).tx|
            && M.HeaderOk(m, ServerEnd(t).rx[i].offset) && M.HeaderOk(m, ServerEnd(t).tx[i].offset)
  {
    ConnectedLists(E, s, acts, Run(s, acts));
    NewRingPlace(E.Memory(), true, i);
    NewRingPlace(E.Memory(), false, i);
    assert M.HeaderOk(m, E.Memory().RingStart(i)) && M.HeaderOk(m, E.Memory().RingStart(E.Pairs() + i));
  }

  /** The first queue of the sending end and of the receiving end, on a region of the size that both know. */
  ghost predicate FirstQueues(t: System, dir: A.Direction, tx: Queue, rx: Queue)
    requires t.client.IsConnected() && t.server.IsConnected()
  {
    var c, d := ClientEnd(t), ServerEnd(t);
    && |c.regions| == |d.regions| == 1 && tx.data.Length == c.regions[0].size == d.regions[0].size
    && if dir.S2M? then c.tx != [] && d.rx != [] && tx.ring == c.tx[0] && rx.ring == d.rx[0]
       else c.rx != [] && d.tx != [] && tx.ring == d.tx[0] && rx.ring == c.rx[0]
  }

  /** The client's region, made and filled as it is on Hello. */
  method MakeRegion(c: MemoryConfig) returns (port: M.Port, ghost m0: seq<byte>)
    requires c.Typed() && c.numQueuePairs > 0 && M.RoomNeeded(c) <= c.RegionSize()
    ensures fresh(port) && fresh(port.data) && port.data.Length == c.RegionSize() && M.Initialized(c, m0, port.data[..])
    ensures port.txQueues == NewRings(c, true) && port.rxQueues == NewRings(c, false)
  {
    port := new M.Port(c);
    port.AddRegion();
    m0 := port.data[..];
    FitsIff(c, port.data.Length);
    var ok := port.InitializeQueues();
    M.LeavesInitialized(c, m0, port.data[..]);
    ListsAgree(c, port.txQueues, true);
    ListsAgree(c, port.rxQueues, false);
  }

  lemma FirstRingIs(c: MemoryConfig, dir: A.Direction)
    requires c.numQueuePairs > 0
    ensures NewRings(c, dir.S2M?)[0] == FirstRing(c, dir).ring
  {
    NewRingPlace(c, dir.S2M?, 0);
  }

  /**
   Both ends of a connection, for a usable configuration: the queue objects of the first pair, on the region
   that initializeQueues leaves and with the rings that the handshake has given each end, are the two ends of
   a fresh ring.  The server's own buffer size does not matter.
   */
  method Establish(c: MemoryConfig, dir: A.Direction, serverSize: nat, ghost E: Env, ghost s: System, ghost acts: seq<Act>)
    returns (tx: Queue, rx: Queue, ghost G: Geometry, ghost st: C.State)
    requires Joins(E, s, acts) && c == E.Memory() && FreshRings.Sound(c) && M.RoomNeeded(c) <= c.RegionSize()
    ensures fresh(tx) && fresh(rx) && fresh(tx.data) && Run(s, acts).server.IsConnected()
    ensures FirstQueues(Run(s, acts), dir, tx, rx)
    ensures G == FirstRing(c, dir) && Ends(G, tx, rx) && Tied(tx, rx, st) && Fresh(G, st)
  {
    ConnectedLists(E, s, acts, Run(s, acts));
    ghost var m0;
    var port;
    port, m0 := MakeRegion(c);
    G, st := FirstRing(c, dir), AtRest(port.data[..]);
    InitializedIsFresh(c, m0, port.data[..], dir);
    FirstRingIs(c, dir);
    var ring := if dir.S2M? then port.txQueues[0] else port.rxQueues[0];
    var clientSize := c.packetBufferSize;
    tx := new Queue(dir.M2S?, ring, if dir.S2M? then clientSize else serverSize, port.data);
    rx := new Queue(dir.S2M?, ring, if dir.S2M? then serverSize else clientSize, port.data);
  }

  /** So any series of calls on them goes by the ledger. */
  method Transfer(c: MemoryConfig, dir: A.Direction, serverSize: nat, calls: seq<Call>,
                  ghost E: Env, ghost s: System, ghost acts: seq<Act>)
    returns (done: nat, ns: seq<nat>, bufs: seq<seq<byte>>, ghost got: seq<C.Output>)
    requires Joins(E, s, acts) && c == E.Memory() && FreshRings.Sound(c) && M.RoomNeeded(c) <= c.RegionSize()
    ensures var P := FirstRing(c, dir).Abs();
            && P.Valid() && done <= |calls| && ns == Counts(P, calls[..done]) && Exchanged(P, calls[..done], got)
            && AllGave(P, calls[..done], ns, bufs) && Calm(P, calls, done) && (done < |calls| ==> Stops(P, calls, done))
  {
    var tx, rx;
    ghost var G, st;
    tx, rx, G, st := Establish(c, dir, serverSize, E, s, acts);
    done, ns, bufs, got := Exchange(tx, rx, calls, G, st);
  }
}
