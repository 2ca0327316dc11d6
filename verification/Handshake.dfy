/** Every run of the connection handshake between a client and a server of this library. */
module Handshake {
  import opened Arith
  import opened Bytes
  import opened Control
  import opened Handlers
  import opened Layout
  import opened RingMemory

  /** Both ends, the two directions of the socket, and which ring headers in the region carry the cookie. */
  datatype System = System(client: Chan, server: Chan, accepted: bool, toClient: seq<Msg>, toServer: seq<Msg>,
                           cookies: set<nat>, clientSent: seq<Msg>)

  /** Accept is the listener's event; the Calls are Port.Disconnect by the application. */
  datatype Act = Accept | ClientRecv | ServerRecv | ClientCalls | ServerCalls

  ghost predicate Shaped(s: System) { s.client.Valid() && s.server.Valid() }

  predicate Held(c: Chan)
    requires c.Valid()
  {
    c.port.Some? && c.ports[c.port.value].held
  }

  function Step(s: System, a: Act): (s': System)
    requires Shaped(s)
    ensures Shaped(s')
  {
    match a
    case Accept =>
      if s.accepted then s
      else s.(accepted := true, server := s.server.(registered := true),
              toClient := s.toClient + [HelloMsg(SERVER_HELLO)])
    case ClientRecv =>
      if !s.client.registered || s.client.panicked || s.toClient == [] then s
      else
        var r := Deliver(s.client, s.cookies, s.toClient[0]);
        s.(client := r.0, cookies := r.1, toClient := s.toClient[1..], toServer := s.toServer + r.2,
           clientSent := s.clientSent + r.2)
    case ServerRecv =>
      if !s.server.registered || s.server.panicked || s.toServer == [] then s
      else
        var r := Deliver(s.server, s.cookies, s.toServer[0]);
        s.(server := r.0, cookies := r.1, toServer := s.toServer[1..], toClient := s.toClient + r.2)
    case ClientCalls =>
      if !Held(s.client) || s.client.panicked then s
      else
        var r := Close(s.client, true);
        s.(client := r.0, toServer := s.toServer + r.1, clientSent := s.clientSent + r.1)
    case ServerCalls =>
      if !Held(s.server) || s.server.panicked then s
      else var r := Close(s.server, true); s.(server := r.0, toClient := s.toClient + r.1)
  }

  function Run(s: System, acts: seq<Act>): (s': System)
    requires Shaped(s)
    ensures Shaped(s')
    decreases |acts|
  {
    if acts == [] then s else Step(Run(s, acts[..|acts| - 1]), acts[|acts| - 1])
  }

  // ---- negotiation

  /** x is the lesser of two limits. */
  predicate Lesser(x: nat, a: nat, b: nat) { x <= a && x <= b && (x == a || x == b) }

  /** Number and size of the rings are the lesser of what is configured and what the peer allows, and buffers stay as configured. */
  lemma NegotiatedIs(m: MemoryConfig, h: Hello)
    ensures var n := Negotiate(m, h);
            && Lesser(n.numQueuePairs, m.numQueuePairs, h.maxRingM2S)
            && Lesser(n.log2RingSize, m.log2RingSize, h.maxLog2RingSize) && n.packetBufferSize == m.packetBufferSize
  {
  }

  /**
   The negotiated number of queue pairs exceeds the peer's limit for S2M rings exactly if both the configured
   number and the limit for M2S rings do, since line 430 puts the latter in place of the former.
   */
  lemma S2MLimitExceededIff(m: MemoryConfig, h: Hello)
    ensures Negotiate(m, h).numQueuePairs > h.maxRingS2M <==> m.numQueuePairs > h.maxRingS2M && h.maxRingM2S > h.maxRingS2M
  {
  }

  /** The client announces an S2M ring with an index that the peer's limit excludes. */
  ghost predicate AnnouncesBeyond(queue: seq<Msg>, h: Hello) {
    exists k :: 0 <= k < |queue| && queue[k].AddRing? && queue[k].s2m && queue[k].ringIndex >= h.maxRingS2M
  }

  lemma ScriptBeyond(p: Port, h: Hello, n: nat, s: seq<Msg>)
    requires n == p.run.numQueuePairs <= |p.tx| && n <= |p.rx| && n < TWO16 && s == Script(p)
    ensures AnnouncesBeyond(s, h) <==> n > h.maxRingS2M
  {
    var a, x, y := [Init(VERSION, p.cfg.id, NoSecret())] + RegionMsgs(p), RingMsgs(true, p.tx, n), RingMsgs(false, p.rx, n);
    assert s == a + x + y + [Connect];
    if n > h.maxRingS2M {
      var k := |a| + h.maxRingS2M;
      assert s[k] == x[h.maxRingS2M];
    }
    if AnnouncesBeyond(s, h) {
      var k :| 0 <= k < |s| && s[k].AddRing? && s[k].s2m && s[k].ringIndex >= h.maxRingS2M;
      assert |a| <= k < |a| + |x| && s[k] == x[k - |a|];
    }
  }

  /**
   Whatever a peer says in its Hello, a client that gets as far as queueing its script announces S2M rings
   beyond the peer's limit exactly if both the configured number and the limit for M2S rings exceed it.
   */
  lemma HelloIgnoresS2MLimit(c: Chan, cookies: set<nat>, h: Hello)
    requires c.Valid() && c.port.Some? && c.queue == [] && ParseHello(c, cookies, h).Done?
    requires var p := c.ports[c.port.value]; p.tx == [] && p.rx == [] && p.cfg.memory.Typed()
    ensures var n := c.ports[c.port.value].cfg.memory.numQueuePairs;
            AnnouncesBeyond(ParseHello(c, cookies, h).chan.queue, h) <==> n > h.maxRingS2M && h.maxRingM2S > h.maxRingS2M
  {
    var p := c.ports[c.port.value];
    var q := Initialize(p, Negotiate(p.cfg.memory, h));
    assert [] + Script(q) == Script(q);
    ScriptBeyond(q, h, q.run.numQueuePairs, Script(q));
    S2MLimitExceededIff(p.cfg.memory, h);
  }

  /** Two queue pairs configured, four M2S rings allowed and one S2M ring: two are negotiated. */
  lemma S2MLimitExceeded()
    ensures var m, h := MemoryConfig(2, 10, 2048), Hello(VERSION, VERSION, 4, 1, 14);
            Negotiate(m, h).numQueuePairs == 2 > h.maxRingS2M
  {
  }

  // ---- what is expected

  /** The client's port and the server's port list before the handshake. */
  datatype Env = Env(cp: Port, ports: seq<Port>) {
    ghost predicate Valid() {
      && cp.held && !cp.cfg.isServer && cp.regions == [] && cp.tx == [] && cp.rx == []
      && cp.cfg.memory.Typed()
      && (forall i :: 0 <= i < |ports| && !ports[i].held ==> ports[i].Clean())
    }

    function Memory(): MemoryConfig { Negotiate(cp.cfg.memory, SERVER_HELLO) }

    function Pairs(): nat { Memory().numQueuePairs }

    function ClientPort(): Port { Initialize(cp, Memory()) }

    ghost function Target(): Option<nat> { FindPort(ports, cp.cfg.id) }

    function Last(): nat { 2 * Pairs() + 3 }

    /** The first j messages of the script are acceptable to the server. */
    ghost predicate GoodTo(j: nat) {
      && (j > 0 ==> Target().Some? && ports[Target().value].cfg.secret == NoSecret())
      && (j > 2 ==> Min(j - 2, Pairs()) <= ports[Target().value].cfg.memory.numQueuePairs)
    }

    /** The id names a free server port without a secret that has at least as many queue pairs. */
    ghost predicate Compatible() { GoodTo(Last()) }

    /** The client's region is not empty, so that it can be mapped. */
    predicate HasRegion() { Memory().RegionSize() > 0 }

    /** No store of initializeQueues starts beyond it. */
    predicate Fits() { Memory().FitsIn(Memory().RegionSize()) }

    /** Everything that is needed for a connection. */
    ghost predicate Sound() { HasRegion() && Fits() && Compatible() }

    ghost function ServerPort(j: nat): Port
      requires Target().Some?
    {
      var p := ports[Target().value];
      p.(held := true, run := p.cfg.memory,
         regions := if j >= 2 then [Region(Memory().RegionSize(), j == Last())] else [],
         rx := NewRings(Memory(), true)[..Clamp(j - 2, Pairs())],
         tx := NewRings(Memory(), false)[..Clamp(j - 2 - Pairs(), Pairs())])
    }

    /** The server's channel after the first j messages of the script. */
    ghost function ServerAfter(j: nat): Chan
      requires j > 0 ==> Target().Some?
    {
      if j == 0 then Chan(ports, None, [], false, true, false)
      else Chan(ports[Target().value := ServerPort(j)], Target(), [], j == Last(), true, false)
    }

    function FullScript(): seq<Msg> {
      Script(ClientPort())
    }

    /** The client's channel once the first j messages of the script are sent. */
    function ClientAfter(j: nat): Chan
      requires j <= |FullScript()|
    {
      Chan([ClientPort()], Some(0), FullScript()[j..], false, true, false)
    }
  }

  function Clamp(x: int, n: nat): (r: nat)
    ensures r <= n
  {
    if x < 0 then 0 else if x < n then x else n
  }

  ghost predicate Initial(E: Env, s: System) {
    && E.Valid()
    && s == System(Chan([E.cp], Some(0), [], false, true, false), Chan(E.ports, None, [], false, false, false),
                   false, [], [], s.cookies, [])
  }

  /** With the limits in the server's Hello every ring offset fits 32 bits and every ring size 16 bits. */
  lemma NegotiatedFits(m: MemoryConfig, s2m: bool, i: nat)
    requires i < Negotiate(m, SERVER_HELLO).numQueuePairs
    ensures var n := Negotiate(m, SERVER_HELLO); var r := NewRing(n, s2m, i);
            && n.numQueuePairs <= 255 && n.log2RingSize <= 14 && r.Size() <= 0x4000 && r.End() < TWO32
            && RingMsg(s2m, i, r) == AddRing(s2m, i, r.offset, r.log2)
  {
    var n := Negotiate(m, SERVER_HELLO);
    Pow2Of16();
    Pow2Monotone(n.log2RingSize, 14);
    NewRingPlace(n, s2m, i);
    RingStartBound(n, if s2m then i else n.numQueuePairs + i);
  }

  lemma RingStartBound(n: MemoryConfig, g: nat)
    requires Pow2(n.log2RingSize) <= 0x4000 && g < 510
    ensures n.RingStart(g) + n.RingBytes() < TWO32
  {
    MulApart(g, 510, n.RingBytes());
  }

  // ---- the script, message by message

  lemma ScriptParts(E: Env)
    requires E.Valid()
    ensures var n, k := E.Pairs(), E.Memory();
            var tx, rx := NewRings(k, true), NewRings(k, false);
            && E.ClientPort().tx == tx && E.ClientPort().rx == rx
            && E.ClientPort().regions == [Region(k.RegionSize(), true)]
            && E.FullScript() == [Init(VERSION, E.cp.cfg.id, NoSecret()), AddRegion(0, k.RegionSize())]
                                 + RingMsgs(true, tx, n) + RingMsgs(false, rx, n) + [Connect]
            && |E.FullScript()| == E.Last()
  {
    var p, k := E.ClientPort(), E.Memory();
    assert p.tx == NewRings(k, true) && p.rx == NewRings(k, false) && p.regions == [Region(k.RegionSize(), true)];
    assert RegionMsgs(p) == [AddRegion(0, k.RegionSize())];
  }

  /** Indexing a message list of that shape. */
  lemma PartsAt(s: seq<Msg>, a: Msg, b: Msg, x: seq<Msg>, y: seq<Msg>, c: Msg, j: nat)
    requires s == [a, b] + x + y + [c] && j < |s|
    ensures s[0] == a && s[1] == b && s[|s| - 1] == c
    ensures 2 <= j < 2 + |x| ==> s[j] == x[j - 2]
    ensures 2 + |x| <= j < 2 + |x| + |y| ==> s[j] == y[j - 2 - |x|]
  {
  }

  /** m is what the script has at place j. */
  ghost predicate IsMessage(E: Env, j: nat, m: Msg) {
    var n, k := E.Pairs(), E.Memory();
    && (j == 0 ==> m == Init(VERSION, E.cp.cfg.id, NoSecret()))
    && (j == 1 ==> m == AddRegion(0, k.RegionSize()))
    && (2 <= j < 2 + n ==> var r := NewRings(k, true)[j - 2]; m == AddRing(true, j - 2, r.offset, r.log2))
    && (2 + n <= j < 2 + 2 * n ==>
          var r := NewRings(k, false)[j - 2 - n]; m == AddRing(false, j - 2 - n, r.offset, r.log2))
    && (j == 2 * n + 2 ==> m == Connect)
  }

  lemma PartIsMessage(E: Env, S: seq<Msg>, j: nat)
    requires j < |S| == E.Last()
    requires S == [Init(VERSION, E.cp.cfg.id, NoSecret()), AddRegion(0, E.Memory().RegionSize())]
                  + RingMsgs(true, NewRings(E.Memory(), true), E.Pairs())
                  + RingMsgs(false, NewRings(E.Memory(), false), E.Pairs()) + [Connect]
    ensures IsMessage(E, j, S[j])
  {
    var n, x, y := E.Pairs(), RingMsgs(true, NewRings(E.Memory(), true), E.Pairs()),
                   RingMsgs(false, NewRings(E.Memory(), false), E.Pairs());
    PartsAt(S, S[0], S[1], x, y, Connect, j);
    if 2 <= j < 2 + n {
      RingMsgsAt(E.cp.cfg.memory, true, j - 2);
    } else if 2 + n <= j < 2 + 2 * n {
      RingMsgsAt(E.cp.cfg.memory, false, j - 2 - n);
    }
  }

  lemma ScriptAt(E: Env, j: nat)
    requires E.Valid() && j < E.Last()
    ensures |E.FullScript()| == E.Last() && IsMessage(E, j, E.FullScript()[j])
  {
    ScriptParts(E);
    PartIsMessage(E, E.FullScript(), j);
  }

  lemma RingMsgsAt(m: MemoryConfig, s2m: bool, i: nat)
    requires i < Negotiate(m, SERVER_HELLO).numQueuePairs
    ensures var k := Negotiate(m, SERVER_HELLO);
            var rs := NewRings(k, s2m);
            RingMsgs(s2m, rs, k.numQueuePairs)[i] == AddRing(s2m, i, rs[i].offset, rs[i].log2)
  {
    NegotiatedFits(m, s2m, i);
  }

  ghost predicate Cookies(E: Env, cookies: set<nat>) {
    CookiesOk(NewRings(E.Memory(), true), cookies) && CookiesOk(NewRings(E.Memory(), false), cookies)
  }

  function Reply(E: Env, j: nat): Msg { if j + 1 == E.Last() then Connected else Ack }

  /** What the server does with message j is what the script says of its state. */
  ghost predicate Takes(E: Env, cookies: set<nat>, j: nat, m: Msg)
    requires E.Target().Some?
  {
    Deliver(E.ServerAfter(j), cookies, m) == (E.ServerAfter(j + 1), cookies, [Reply(E, j)])
  }

  lemma TakesInit(E: Env, cookies: set<nat>)
    requires E.Valid() && E.GoodTo(1)
    ensures Takes(E, cookies, 0, Init(VERSION, E.cp.cfg.id, NoSecret()))
  {
    FreePort(E);
    var p := E.ports[E.Target().value];
    assert E.ServerPort(1) == p.(held := true, run := p.cfg.memory);
    var d := E.ServerAfter(1).(queue := [Ack]);
    assert ParseInit(E.ServerAfter(0), cookies, VERSION, E.cp.cfg.id, NoSecret()) == Done(d, cookies);
    assert d.queue[1..] == [];
  }

  /** The port moves from one stage to the next and the reply is sent at once. */
  lemma Advances(E: Env, cookies: set<nat>, j: nat, m: Msg)
    requires E.Valid() && E.Target().Some? && 1 <= j < E.Last()
    requires ParseMsg(E.ServerAfter(j), cookies, m) ==
             Done(E.ServerAfter(j).With(E.ServerPort(j + 1)).(connected := j + 1 == E.Last(), queue := [Reply(E, j)]),
                  cookies)
    ensures Takes(E, cookies, j, m)
  {
    var t := E.Target().value;
    assert E.ports[t := E.ServerPort(j)][t := E.ServerPort(j + 1)] == E.ports[t := E.ServerPort(j + 1)];
    assert [Reply(E, j)][1..] == [];
  }

  lemma TakesRegion(E: Env, cookies: set<nat>)
    requires E.Valid() && E.GoodTo(2)
    ensures Takes(E, cookies, 1, AddRegion(0, E.Memory().RegionSize()))
  {
    var c, size := E.ServerAfter(1), E.Memory().RegionSize();
    assert NewRings(E.Memory(), true)[..0] == [] && NewRings(E.Memory(), false)[..0] == [];
    var p, r := E.ServerPort(1), Region(size, false);
    assert p.regions + [r] == [r];
    assert E.ServerPort(2) == p.(regions := p.regions + [r]);
    assert ParseAddRegion(c, cookies, 0, size) == Done(c.With(E.ServerPort(2)).(queue := [Ack]), cookies);
    Advances(E, cookies, 1, AddRegion(0, size));
  }

  lemma TakesS2M(E: Env, cookies: set<nat>, j: nat)
    requires E.Valid() && 2 <= j < 2 + E.Pairs() && E.GoodTo(j + 1)
    ensures var r := NewRings(E.Memory(), true)[j - 2]; Takes(E, cookies, j, AddRing(true, j - 2, r.offset, r.log2))
  {
    var c, rs := E.ServerAfter(j), NewRings(E.Memory(), true);
    var r := rs[j - 2];
    assert rs[..j - 1] == rs[..j - 2] + [r];
    assert E.ServerPort(j + 1) == E.ServerPort(j).(rx := E.ServerPort(j).rx + [r]);
    assert ParseAddRing(c, cookies, true, j - 2, r) == Done(c.With(E.ServerPort(j + 1)).(queue := [Ack]), cookies);
    Advances(E, cookies, j, AddRing(true, j - 2, r.offset, r.log2));
  }

  lemma TakesM2S(E: Env, cookies: set<nat>, j: nat)
    requires E.Valid() && 2 + E.Pairs() <= j < 2 + 2 * E.Pairs() && E.GoodTo(j + 1)
    ensures var r := NewRings(E.Memory(), false)[j - 2 - E.Pairs()];
            Takes(E, cookies, j, AddRing(false, j - 2 - E.Pairs(), r.offset, r.log2))
  {
    var c, rs, i := E.ServerAfter(j), NewRings(E.Memory(), false), j - 2 - E.Pairs();
    var r := rs[i];
    assert rs[..i + 1] == rs[..i] + [r];
    assert E.ServerPort(j + 1) == E.ServerPort(j).(tx := E.ServerPort(j).tx + [r]);
    assert ParseAddRing(c, cookies, false, i, r) == Done(c.With(E.ServerPort(j + 1)).(queue := [Ack]), cookies);
    Advances(E, cookies, j, AddRing(false, i, r.offset, r.log2));
  }

  lemma TakesConnect(E: Env, cookies: set<nat>)
    requires E.Valid() && E.GoodTo(E.Last()) && Cookies(E, cookies)
    ensures Takes(E, cookies, E.Last() - 1, Connect)
  {
    var n, k, j := E.Pairs(), E.Memory(), E.Last() - 1;
    var c, p := E.ServerAfter(j), E.ServerPort(j);
    assert NewRings(k, true)[..n] == NewRings(k, true) && NewRings(k, false)[..n] == NewRings(k, false);
    assert MapAll(p.regions) == [Region(k.RegionSize(), true)];
    assert ConnectPort(p, cookies) == (E.ServerPort(j + 1), true);
    assert ParseConnect(c, cookies, [Connected]) ==
           Done(c.With(E.ServerPort(j + 1)).(connected := true, queue := [Connected]), cookies);
    Advances(E, cookies, j, Connect);
  }

  /** The server takes message j when it is acceptable. */
  lemma ServerAccepts(E: Env, cookies: set<nat>, j: nat)
    requires E.Valid() && j < E.Last() && E.GoodTo(j + 1) && Cookies(E, cookies) && |E.FullScript()| == E.Last()
    ensures Takes(E, cookies, j, E.FullScript()[j])
  {
    ScriptAt(E, j);
    if j == 0 { TakesInit(E, cookies); }
    else if j == 1 { TakesRegion(E, cookies); }
    else if j < 2 + E.Pairs() { TakesS2M(E, cookies, j); }
    else if j < 2 + 2 * E.Pairs() { TakesM2S(E, cookies, j); }
    else { TakesConnect(E, cookies); }
  }

  lemma FreePort(E: Env)
    requires E.Valid() && E.Target().Some?
    ensures E.ports[E.Target().value].Clean()
  {
  }

  ghost predicate Shut(c: Chan) { !c.registered && !c.IsConnected() && !c.panicked && c.Valid() }

  /** Otherwise it says Disconnect and closes. */
  lemma ServerRefuses(E: Env, cookies: set<nat>, j: nat)
    requires E.Valid() && j < E.Last() && E.GoodTo(j) && !E.GoodTo(j + 1) && |E.FullScript()| == E.Last()
    ensures var r := Deliver(E.ServerAfter(j), cookies, E.FullScript()[j]);
            Shut(r.0) && r.1 == cookies && r.2 == [Disconnect]
  {
    ScriptAt(E, j);
  }

  /** A refusal after the region was announced leaves the server's port taken for good: its region is not mapped. */
  lemma LateRefusalKeepsPort(E: Env, cookies: set<nat>, j: nat)
    requires E.Valid() && 2 <= j < E.Last() && E.GoodTo(j) && !E.GoodTo(j + 1) && |E.FullScript()| == E.Last()
    ensures var r, t := Deliver(E.ServerAfter(j), cookies, E.FullScript()[j]), E.Target().value;
            t < |r.0.ports| && r.0.ports[t].held && r.0.ports[t].regions != []
  {
    ScriptAt(E, j);
    assert !E.ServerPort(j).regions[0].mapped;
  }

  /** The condition in full: the first free server port of that id has no secret and enough queue pairs. */
  lemma CompatibleMeans(E: Env)
    ensures E.Compatible() <==>
            exists i: nat :: FirstMatch(E.ports, E.cp.cfg.id, i) && E.ports[i].cfg.secret == seq(24, _ => 0)
                        && Min(E.cp.cfg.memory.numQueuePairs, 255) <= E.ports[i].cfg.memory.numQueuePairs
  {
  }

  // ---- the phases of a run

  datatype Phase =
    | Idle
    | Greeted
    | Awaiting(j: nat)
    | Replied(j: nat)
    | Refused(j: nat)
    | Declining
    | Linked
    | Aborted
    | Crashed
  {
    predicate Final() { Linked? || Aborted? || Crashed? }
  }

  ghost predicate Quiet(s: System, toClient: seq<Msg>, toServer: seq<Msg>) {
    s.accepted && s.toClient == toClient && s.toServer == toServer
  }

  ghost predicate At(E: Env, s: System, ph: Phase) {
    && E.Valid() && |E.FullScript()| == E.Last()
    && var S := E.FullScript();
    match ph
    case Idle => Initial(E, s)
    case Greeted =>
      && Quiet(s, [HelloMsg(SERVER_HELLO)], []) && s.clientSent == []
      && s.client == Chan([E.cp], Some(0), [], false, true, false) && s.server == E.ServerAfter(0)
    case Awaiting(j) =>
      && E.HasRegion() && E.Fits() && j < E.Last() && E.GoodTo(j) && Cookies(E, s.cookies) && Quiet(s, [], [S[j]])
      && s.client == E.ClientAfter(j + 1) && s.server == E.ServerAfter(j) && s.clientSent == S[..j + 1]
    case Replied(j) =>
      && E.HasRegion() && E.Fits() && j < E.Last() && E.GoodTo(j + 1) && Cookies(E, s.cookies) && Quiet(s, [Reply(E, j)], [])
      && s.client == E.ClientAfter(j + 1) && s.server == E.ServerAfter(j + 1) && s.clientSent == S[..j + 1]
    case Refused(j) =>
      && E.HasRegion() && E.Fits() && j < E.Last() && !E.GoodTo(j + 1) && Quiet(s, [Disconnect], [])
      && s.client == E.ClientAfter(j + 1) && Shut(s.server)
    case Declining =>
      && !E.HasRegion() && Quiet(s, [], [Disconnect]) && LetGo(s.client) && s.server == E.ServerAfter(0)
    case Linked =>
      && E.Sound() && Quiet(s, [], []) && s.clientSent == S
      && s.client == E.ClientAfter(E.Last()).(connected := true) && s.server == E.ServerAfter(E.Last())
    case Aborted =>
      && !E.Sound() && (E.HasRegion() ==> E.Fits())
      && s.accepted && s.toClient == [] && |s.toServer| <= 1 && LetGo(s.client) && Shut(s.server)
    case Crashed =>
      && E.HasRegion() && !E.Fits() && Quiet(s, [], []) && s.clientSent == []
      && s.client == Chan([E.cp], Some(0), [], false, true, true) && s.server == E.ServerAfter(0)
  }

  /** The client's channel is closed and its port is free. */
  ghost predicate LetGo(c: Chan) { Shut(c) && c.port == Some(0) && c.ports[0].Clean() }

  /** Messages still to be handled. */
  function Rank(E: Env, ph: Phase): int {
    match ph
    case Idle => 2 * E.Last() + 3
    case Greeted => 2 * E.Last() + 2
    case Awaiting(j) => 2 * (E.Last() - j) + 1
    case Replied(j) => 2 * (E.Last() - j)
    case Refused(j) => 2 * (E.Last() - j)
    case Declining => 1
    case _ => 0
  }

  lemma Monotone(E: Env, j: nat, k: nat)
    requires j <= k && E.GoodTo(k)
    ensures E.GoodTo(j)
  {
  }

  /** Hello makes the client lay out its region and queue the whole script, if the region holds the rings. */
  lemma HelloDelivered(E: Env, cookies: set<nat>)
    requires E.Valid() && E.HasRegion() && E.Fits()
    ensures var r := Deliver(Chan([E.cp], Some(0), [], false, true, false), cookies, HelloMsg(SERVER_HELLO));
            |E.FullScript()| >= 1 && r.0 == E.ClientAfter(1) && r.2 == [E.FullScript()[0]] && Cookies(E, r.1)
  {
    var p := E.ClientPort();
    ScriptParts(E);
    assert [] + E.FullScript() == E.FullScript() && [E.cp][0 := p] == [p];
  }

  /** An empty region makes it give up, and a region that is too small for the rings crashes it. */
  lemma HelloFails(E: Env, cookies: set<nat>)
    requires E.Valid() && !(E.HasRegion() && E.Fits())
    ensures var c := Chan([E.cp], Some(0), [], false, true, false);
            var r := Deliver(c, cookies, HelloMsg(SERVER_HELLO));
            && r.1 == cookies && (E.HasRegion() ==> r.0 == c.(panicked := true) && r.2 == [])
            && (!E.HasRegion() ==> LetGo(r.0) && r.2 == [Disconnect])
  {
    assert ([] + [Region(E.Memory().RegionSize(), true)])[0] == Region(E.Memory().RegionSize(), true);
  }

  function AfterHello(E: Env): Phase {
    if !E.HasRegion() then Declining else if !E.Fits() then Crashed else Awaiting(0)
  }

  lemma GreetedStep(E: Env, s: System)
    requires At(E, s, Greeted)
    ensures At(E, Step(s, ClientRecv), AfterHello(E))
  {
    if E.HasRegion() && E.Fits() {
      HelloDelivered(E, s.cookies);
      assert E.FullScript()[..1] == [E.FullScript()[0]];
    } else {
      HelloFails(E, s.cookies);
    }
  }

  lemma DecliningStep(E: Env, s: System)
    requires At(E, s, Declining)
    ensures At(E, Step(s, ServerRecv), Aborted)
  {
  }

  lemma AcceptedStep(E: Env, s: System, j: nat)
    requires At(E, s, Awaiting(j)) && E.GoodTo(j + 1)
    ensures At(E, Step(s, ServerRecv), Replied(j))
  {
    ServerAccepts(E, s.cookies, j);
  }

  lemma RejectedStep(E: Env, s: System, j: nat)
    requires At(E, s, Awaiting(j)) && !E.GoodTo(j + 1)
    ensures At(E, Step(s, ServerRecv), Refused(j))
  {
    ServerRefuses(E, s.cookies, j);
  }

  lemma AwaitingStep(E: Env, s: System, j: nat)
    requires At(E, s, Awaiting(j))
    ensures At(E, Step(s, ServerRecv), if E.GoodTo(j + 1) then Replied(j) else Refused(j))
  {
    if E.GoodTo(j + 1) { AcceptedStep(E, s, j); } else { RejectedStep(E, s, j); }
  }

  lemma AckDelivered(E: Env, cookies: set<nat>, j: nat)
    requires E.Valid() && j < |E.FullScript()|
    ensures Deliver(E.ClientAfter(j), cookies, Ack) == (E.ClientAfter(j + 1), cookies, [E.FullScript()[j]])
  {
    var S := E.FullScript();
    assert S[j..][1..] == S[j + 1..] && S[j..][0] == S[j];
  }

  lemma ConnectedDelivered(E: Env, cookies: set<nat>)
    requires E.Valid() && Cookies(E, cookies)
    ensures Deliver(E.ClientAfter(|E.FullScript()|), cookies, Connected) ==
            (E.ClientAfter(|E.FullScript()|).(connected := true), cookies, [])
  {
    var p := E.ClientPort();
    ScriptParts(E);
    assert MapAll(p.regions) == p.regions;
    assert [p][0 := p] == [p];
  }

  lemma OneMore(s: seq<Msg>, j: nat)
    requires j < |s|
    ensures s[..j + 1] == s[..j] + [s[j]]
  {
  }

  lemma AckedStep(E: Env, s: System, j: nat)
    requires At(E, s, Replied(j)) && j + 1 < E.Last()
    ensures At(E, Step(s, ClientRecv), Awaiting(j + 1))
  {
    var S := E.FullScript();
    AckDelivered(E, s.cookies, j + 1);
    OneMore(S, j + 1);
  }

  lemma ConnectedStep(E: Env, s: System, j: nat)
    requires At(E, s, Replied(j)) && j + 1 == E.Last()
    ensures At(E, Step(s, ClientRecv), Linked)
  {
    ConnectedDelivered(E, s.cookies);
    assert E.FullScript()[..j + 1] == E.FullScript();
  }

  lemma RepliedStep(E: Env, s: System, j: nat)
    requires At(E, s, Replied(j))
    ensures At(E, Step(s, ClientRecv), if j + 1 == E.Last() then Linked else Awaiting(j + 1))
  {
    if j + 1 == E.Last() { ConnectedStep(E, s, j); } else { AckedStep(E, s, j); }
  }

  lemma RefusedStep(E: Env, s: System, j: nat)
    requires At(E, s, Refused(j))
    ensures At(E, Step(s, ClientRecv), Aborted)
  {
    if E.Compatible() { Monotone(E, j + 1, E.Last()); }
  }

  /** The application makes no call of its own. */
  predicate Handshaking(a: Act) { a.Accept? || a.ClientRecv? || a.ServerRecv? }

  /** In every phase at most one event does anything, and it brings the end nearer. */
  lemma PhaseStep(E: Env, s: System, ph: Phase, a: Act) returns (ph': Phase)
    requires At(E, s, ph) && Handshaking(a)
    ensures At(E, Step(s, a), ph')
    ensures Step(s, a) == s || (a == NextEvent(ph) && Rank(E, ph') < Rank(E, ph))
  {
    ph' := ph;
    match ph
    case Idle => if a.Accept? { ph' := Greeted; }
    case Greeted => if a.ClientRecv? { GreetedStep(E, s); ph' := AfterHello(E); }
    case Declining => if a.ServerRecv? { DecliningStep(E, s); ph' := Aborted; }
    case Awaiting(j) =>
      if a.ServerRecv? { AwaitingStep(E, s, j); ph' := if E.GoodTo(j + 1) then Replied(j) else Refused(j); }
    case Replied(j) =>
      if a.ClientRecv? { RepliedStep(E, s, j); ph' := if j + 1 == E.Last() then Linked else Awaiting(j + 1); }
    case Refused(j) => if a.ClientRecv? { RefusedStep(E, s, j); ph' := Aborted; }
    case _ =>
  }

  lemma {:induction false} RunPhase(E: Env, s: System, acts: seq<Act>) returns (ph: Phase)
    requires Initial(E, s) && forall i :: 0 <= i < |acts| ==> Handshaking(acts[i])
    ensures At(E, Run(s, acts), ph)
    decreases |acts|
  {
    if acts == [] {
      ScriptAt(E, 0);
      ph := Idle;
    } else {
      var pre := RunPhase(E, s, acts[..|acts| - 1]);
      ph := PhaseStep(E, Run(s, acts[..|acts| - 1]), pre, acts[|acts| - 1]);
    }
  }

  // ---- the theorems

  /**
   Lock step: at most one message in flight; the server never crashes, and the client only on a region too
   small for its rings; the client is connected only after the server.
   */
  lemma LockStep(E: Env, s: System, acts: seq<Act>)
    requires Initial(E, s) && forall i :: 0 <= i < |acts| ==> Handshaking(acts[i])
    ensures var t := Run(s, acts);
            && |t.toClient| + |t.toServer| <= 1 && !t.server.panicked && (t.client.panicked ==> E.HasRegion() && !E.Fits())
            && (t.client.IsConnected() ==> t.server.IsConnected())
  {
    var ph := RunPhase(E, s, acts);
    if ph == Linked { var t := Run(s, acts); assert t.server.ports[t.server.port.value] == E.ServerPort(E.Last()); }
  }

  /** Nothing is left to handle. */
  ghost predicate Settled(s: System)
    requires Shaped(s)
  {
    Step(s, Accept) == s && Step(s, ClientRecv) == s && Step(s, ServerRecv) == s
  }

  lemma SettledPhase(E: Env, s: System, ph: Phase)
    requires At(E, s, ph)
    ensures Settled(s) ==> ph.Final()
  {
    NextEventActs(E, s, ph);
  }

  /** How a handshake of these two ends comes out. */
  ghost predicate Outcome(E: Env, s: System) {
    && (s.client.IsConnected() <==> E.Sound()) && (s.server.IsConnected() <==> E.Sound())
    && (s.client.panicked <==> E.HasRegion() && !E.Fits())
    && (E.Sound() ==> s.clientSent == E.FullScript() && |s.clientSent| == 2 * E.Pairs() + 3)
  }

  lemma LinkedOutcome(E: Env, s: System)
    requires At(E, s, Linked)
    ensures Outcome(E, s)
  {
    assert s.client.ports[0] == E.ClientPort() && s.client.ports[0].held;
    assert s.server.ports[s.server.port.value] == E.ServerPort(E.Last());
  }

  lemma AbortedOutcome(E: Env, s: System)
    requires At(E, s, Aborted)
    ensures !s.client.IsConnected() && !s.server.IsConnected() && !s.client.panicked
  {
  }

  lemma FinalOutcome(E: Env, s: System, ph: Phase)
    requires At(E, s, ph) && ph.Final()
    ensures Outcome(E, s)
  {
    match ph
    case Linked => LinkedOutcome(E, s);
    case Aborted => AbortedOutcome(E, s);
    case Crashed =>
  }

  /**
   A handshake that has run out of events has connected both ends if they are compatible and the client's
   region holds its rings, else neither; and it has crashed the client exactly if that region is too small.
   */
  lemma ConnectsIffCompatible(E: Env, s: System, acts: seq<Act>)
    requires Initial(E, s) && forall i :: 0 <= i < |acts| ==> Handshaking(acts[i])
    requires Settled(Run(s, acts))
    ensures Outcome(E, Run(s, acts))
  {
    var ph := RunPhase(E, s, acts);
    SettledPhase(E, Run(s, acts), ph);
    FinalOutcome(E, Run(s, acts), ph);
  }

  lemma ConnectedPhase(E: Env, s: System, ph: Phase)
    requires At(E, s, ph)
    ensures s.client.IsConnected() || s.server.IsConnected() ==> E.Sound()
    ensures s.client.IsConnected() ==> ph == Linked
  {
  }

  /** Between ends for which one of these fails no run ever connects either. */
  lemma IncompatibleNeverConnects(E: Env, s: System, acts: seq<Act>)
    requires Initial(E, s) && (forall i :: 0 <= i < |acts| ==> Handshaking(acts[i])) && !E.Sound()
    ensures !Run(s, acts).client.IsConnected() && !Run(s, acts).server.IsConnected()
  {
    var ph := RunPhase(E, s, acts);
    ConnectedPhase(E, Run(s, acts), ph);
  }

  /** Once the client is connected the server's queues are the client's, crossed over, ring by ring. */
  lemma QueuesAgree(E: Env, s: System, acts: seq<Act>)
    requires Initial(E, s) && forall i :: 0 <= i < |acts| ==> Handshaking(acts[i])
    requires Run(s, acts).client.IsConnected()
    ensures var t := Run(s, acts);
            && t.client.port.Some? && t.server.port.Some?
            && var c, d := t.client.ports[t.client.port.value], t.server.ports[t.server.port.value];
            && d.rx == c.tx && d.tx == c.rx && |d.rx| == |d.tx| == E.Pairs()
            && |d.regions| == |c.regions| == 1 && d.regions[0].size == c.regions[0].size
  {
    var ph := RunPhase(E, s, acts);
    ConnectedPhase(E, Run(s, acts), ph);
    ScriptParts(E);
    var n, k := E.Pairs(), E.Memory();
    assert NewRings(k, true)[..n] == NewRings(k, true) && NewRings(k, false)[..n] == NewRings(k, false);
  }

  /** The i-th of a port's rings, counted through S2M and M2S rings from first on. */
  ghost predicate RingsAt(rings: seq<Ring>, log2: nat, first: nat) {
    forall i :: 0 <= i < |rings| ==> rings[i] == Ring((first + i) * (128 + 16 * Pow2(log2)), log2)
  }

  lemma NewRingsAt(c: MemoryConfig, s2m: bool)
    ensures RingsAt(NewRings(c, s2m), c.log2RingSize, if s2m then 0 else c.numQueuePairs)
  {
    forall i | 0 <= i < c.numQueuePairs
      ensures NewRings(c, s2m)[i] == Ring(((if s2m then 0 else c.numQueuePairs) + i) * (128 + 16 * Pow2(c.log2RingSize)), c.log2RingSize)
    {
      NewRingPlace(c, s2m, i);
    }
  }

  /**
   What both ends have once the client is connected: as many pairs and as large rings as configured, but for the
   server's limits of 255 and 14, placed one after the other, S2M rings first; and the client's buffers are
   as configured.
   */
  lemma ConnectedRings(E: Env, s: System, acts: seq<Act>) returns (n: nat, log2: nat)
    requires Initial(E, s) && forall i :: 0 <= i < |acts| ==> Handshaking(acts[i])
    requires Run(s, acts).client.IsConnected()
    ensures Lesser(n, E.cp.cfg.memory.numQueuePairs, 255) && Lesser(log2, E.cp.cfg.memory.log2RingSize, 14)
    ensures var t := Run(s, acts);
            && t.client.port.Some? && t.server.port.Some?
            && var c, d := t.client.ports[t.client.port.value], t.server.ports[t.server.port.value];
            && |c.tx| == |c.rx| == n && c.cfg == E.cp.cfg && c.run == MemoryConfig(n, log2, c.cfg.memory.packetBufferSize)
            && d.rx == c.tx && d.tx == c.rx && RingsAt(c.tx, log2, 0) && RingsAt(c.rx, log2, n)
  {
    n, log2 := E.Memory().numQueuePairs, E.Memory().log2RingSize;
    var ph := RunPhase(E, s, acts);
    ConnectedPhase(E, Run(s, acts), ph);
    QueuesAgree(E, s, acts);
    NegotiatedIs(E.cp.cfg.memory, SERVER_HELLO);
    ScriptParts(E);
    NewRingsAt(E.Memory(), true);
    NewRingsAt(E.Memory(), false);
  }

  /** The handshake ends: each event that changes anything uses up rank, which starts at 4N + 9. */
  lemma HandshakeEnds(E: Env, s: System, acts: seq<Act>) returns (effective: nat, ph: Phase)
    requires Initial(E, s) && forall i :: 0 <= i < |acts| ==> Handshaking(acts[i])
    ensures At(E, Run(s, acts), ph)
    ensures effective == Effective(s, acts) && effective + Rank(E, ph) <= 4 * E.Pairs() + 9
    ensures 0 <= Rank(E, ph)
    decreases |acts|
  {
    if acts == [] {
      ScriptAt(E, 0);
      effective, ph := 0, Idle;
    } else {
      var pre;
      effective, pre := HandshakeEnds(E, s, acts[..|acts| - 1]);
      ph := PhaseStep(E, Run(s, acts[..|acts| - 1]), pre, acts[|acts| - 1]);
      if Run(s, acts) != Run(s, acts[..|acts| - 1]) { effective := effective + 1; } else { ph := pre; }
    }
  }

  /** The event that has an effect in a phase. */
  function NextEvent(ph: Phase): Act {
    match ph
    case Idle => Accept
    case Awaiting(_) => ServerRecv
    case Declining => ServerRecv
    case _ => ClientRecv
  }

  lemma FinalIsSettled(E: Env, s: System, ph: Phase)
    requires At(E, s, ph) && ph.Final()
    ensures Settled(s)
  {
  }

  lemma NextEventActs(E: Env, s: System, ph: Phase)
    requires At(E, s, ph)
    ensures ph.Final() || Step(s, NextEvent(ph)) != s
  {
    match ph
    case Greeted => assert Step(s, ClientRecv).toClient == s.toClient[1..];
    case Awaiting(j) => assert Step(s, ServerRecv).toServer == s.toServer[1..];
    case Replied(j) => assert Step(s, ClientRecv).toClient == s.toClient[1..];
    case Refused(j) => assert Step(s, ClientRecv).toClient == s.toClient[1..];
    case Declining => assert Step(s, ServerRecv).toServer == s.toServer[1..];
    case _ =>
  }

  /** Every run of the handshake can be carried on until nothing is left to handle. */
  lemma {:induction false} CanFinish(E: Env, s: System, acts: seq<Act>, ph: Phase) returns (all: seq<Act>)
    requires Initial(E, s) && (forall i :: 0 <= i < |acts| ==> Handshaking(acts[i])) && At(E, Run(s, acts), ph)
    ensures acts <= all && (forall i :: 0 <= i < |all| ==> Handshaking(all[i])) && Settled(Run(s, all))
    decreases if Rank(E, ph) > 0 then Rank(E, ph) else 0
  {
    var t := Run(s, acts);
    if ph.Final() {
      FinalIsSettled(E, t, ph);
      all := acts;
    } else {
      var more := acts + [NextEvent(ph)];
      assert more[..|more| - 1] == acts;
      NextEventActs(E, t, ph);
      var ph' := PhaseStep(E, t, ph, NextEvent(ph));
      all := CanFinish(E, s, more, ph');
    }
  }

  /** So compatible ends with room for the rings do connect, from wherever the handshake has got to. */
  lemma CompatibleConnects(E: Env, s: System, acts: seq<Act>) returns (all: seq<Act>)
    requires Initial(E, s) && (forall i :: 0 <= i < |acts| ==> Handshaking(acts[i])) && E.Sound()
    ensures acts <= all && (forall i :: 0 <= i < |all| ==> Handshaking(all[i]))
    ensures Run(s, all).client.IsConnected() && Run(s, all).server.IsConnected()
  {
    var ph := RunPhase(E, s, acts);
    all := CanFinish(E, s, acts, ph);
    ConnectsIffCompatible(E, s, all);
  }

  /**
   A configuration that addRegion accepts and initializeQueues does not: one pair of rings of 2^12 slots and
   buffers of a mebibyte give a region of 256 bytes, and the descriptors run past it.
   */
  lemma TooSmall()
    ensures var m := MemoryConfig(1, 12, 0x100000);
            m.Typed() && m.RegionSize() == 256 && !m.FitsIn(m.RegionSize()) && Negotiate(m, SERVER_HELLO) == m
  {
    var m := MemoryConfig(1, 12, 0x100000);
    assert Pow2(4) == 16;
    Pow2Add(4, 4);
    Pow2Add(8, 4);
    OffsetIsMod(m);
  }

  lemma TooSmallCrashes(E: Env, s: System, acts: seq<Act>)
    requires Initial(E, s) && E.cp.cfg.memory == MemoryConfig(1, 12, 0x100000)
    requires (forall i :: 0 <= i < |acts| ==> Handshaking(acts[i])) && Settled(Run(s, acts))
    ensures Run(s, acts).client.panicked && !Run(s, acts).server.IsConnected()
  {
    TooSmall();
    ConnectsIffCompatible(E, s, acts);
  }

  /** How many events of a run changed anything. */
  ghost function Effective(s: System, acts: seq<Act>): nat
    requires Shaped(s)
    decreases |acts|
  {
    if acts == [] then 0
    else
      var pre := acts[..|acts| - 1];
      Effective(s, pre) + if Run(s, acts) != Run(s, pre) then 1 else 0
  }
}
