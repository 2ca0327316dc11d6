/**
 The control channel as values: messages, port and channel state, and what one received message does
 to a channel.  Client and server run the same code; the messages they see tell them apart.
 */
module Control {
  import opened Bytes
  import opened Layout
  import opened RingMemory

  const VERSION: nat := 0x200
  function NoSecret(): seq<byte> { seq(24, _ => 0) }

  datatype Option<+T> = None | Some(value: T)

  datatype Hello = Hello(versionMin: nat, versionMax: nat, maxRingM2S: nat, maxRingS2M: nat, maxLog2RingSize: nat)

  /** S2M marks the ring's direction; offset and log2 are the 32- and 8-bit fields. */
  datatype Msg =
    | Ack
    | HelloMsg(hello: Hello)
    | Init(version: nat, id: nat, secret: seq<byte>)
    | AddRegion(index: nat, size: nat)
    | AddRing(s2m: bool, ringIndex: nat, offset: nat, log2: nat)
    | Connect
    | Connected
    | Disconnect

  datatype PortCfg = PortCfg(id: nat, isServer: bool, secret: seq<byte>, memory: MemoryConfig)

  datatype Region = Region(size: nat, mapped: bool) {
    /** How many bytes of it can be reached. */
    function Reach(): nat { if mapped then size else 0 }
  }

  /** held: the port has a control channel (cc is not nil). */
  datatype Port = Port(cfg: PortCfg, run: MemoryConfig, regions: seq<Region>, tx: seq<Ring>, rx: seq<Ring>, held: bool) {
    /** No channel, no queues, no regions. */
    predicate Clean() { !held && tx == [] && rx == [] && regions == [] }

    predicate AllMapped() { forall i :: 0 <= i < |regions| ==> regions[i].mapped }
  }

  /** ports is the socket's port list; registered: the channel is known to epoll and to the socket. */
  datatype Chan = Chan(ports: seq<Port>, port: Option<nat>, queue: seq<Msg>, connected: bool, registered: bool,
                       panicked: bool) {
    ghost predicate Valid() { port.Some? ==> port.value < |ports| }

    function With(p: Port): Chan
      requires port.Some? && port.value < |ports|
    {
      this.(ports := ports[port.value := p])
    }

    /** Port.IsConnected */
    predicate IsConnected() { port.Some? && port.value < |ports| && ports[port.value].held && connected }
  }

  const SERVER_HELLO := Hello(VERSION, VERSION, 255, 255, 14)

  // ---- closing

  /** disconnect: queues first, then regions; an unmapped region makes the unmapping fail half way. */
  function DisconnectPort(p: Port): (Port, bool) {
    if !p.held then (p, true)
    else if p.AllMapped() then (p.(tx := [], rx := [], regions := [], held := false), true)
    else (p.(tx := [], rx := []), false)
  }

  /** close: what is sent, the channel afterwards, and whether it succeeded. */
  function Close(c: Chan, send: bool): (r: (Chan, seq<Msg>, bool))
    requires c.Valid()
    ensures r.0.Valid() && |r.0.ports| == |c.ports|
  {
    var d := if send then c.(queue := []) else c;
    var sent := if send then [Disconnect] else [];
    if !d.registered then (d, sent, false)
    else
      var e := d.(registered := false);
      if e.port.None? then (e, sent, true)
      else var p := DisconnectPort(e.ports[e.port.value]); (e.With(p.0), sent, p.1)
  }

  // ---- the client's side

  /** parseHello: line 430 overwrites the S2M limit with the M2S limit. */
  function Negotiate(m: MemoryConfig, h: Hello): MemoryConfig {
    m.(numQueuePairs := Min(m.numQueuePairs, h.maxRingM2S), log2RingSize := Min(m.log2RingSize, h.maxLog2RingSize))
  }

  function NewRings(m: MemoryConfig, s2m: bool): seq<Ring> {
    seq(m.numQueuePairs, i requires 0 <= i => NewRing(m, s2m, i))
  }

  /** initializeRegions and initializeQueues, as far as the port's lists go. */
  function Initialize(p: Port, run: MemoryConfig): Port {
    p.(run := run, regions := p.regions + [Region(run.RegionSize(), true)],
       tx := p.tx + NewRings(run, true), rx := p.rx + NewRings(run, false))
  }

  function RingMsg(s2m: bool, i: nat, r: Ring): Msg {
    AddRing(s2m, i % TWO16, r.offset % TWO32, r.log2 % 0x100)
  }

  function RegionMsgs(p: Port): seq<Msg> {
    seq(|p.regions|, i requires 0 <= i < |p.regions| => AddRegion(i % TWO16, p.regions[i].size))
  }

  function RingMsgs(s2m: bool, rings: seq<Ring>, n: nat): seq<Msg>
    requires n <= |rings|
  {
    seq(n, i requires 0 <= i < n => RingMsg(s2m, i, rings[i]))
  }

  /** What the client queues on Hello. */
  function Script(p: Port): seq<Msg>
    requires p.run.numQueuePairs <= |p.tx| && p.run.numQueuePairs <= |p.rx|
  {
    [Init(VERSION, p.cfg.id, NoSecret())] + RegionMsgs(p) +
    RingMsgs(true, p.tx, p.run.numQueuePairs) + RingMsgs(false, p.rx, p.run.numQueuePairs) + [Connect]
  }

  // ---- the server's side

  /** The index of the first element from `from` on that meets the test. */
  function First<T>(xs: seq<T>, ok: T -> bool, from: nat): (r: Option<nat>)
    requires from <= |xs|
    ensures r.Some? ==> from <= r.value < |xs| && ok(xs[r.value]) && forall h :: from <= h < r.value ==> !ok(xs[h])
    ensures r.None? ==> forall h :: from <= h < |xs| ==> !ok(xs[h])
    decreases |xs| - from
  {
    if from == |xs| then None else if ok(xs[from]) then Some(from) else First(xs, ok, from + 1)
  }

  /** The first free server port with that id. */
  function FindPort(ports: seq<Port>, id: nat): (r: Option<nat>)
    ensures r.Some? ==> r.value < |ports|
  {
    First(ports, p => Match(p, id), 0)
  }

  predicate Match(p: Port, id: nat) { p.cfg.id == id && p.cfg.isServer && !p.held }

  predicate CookiesOk(rings: seq<Ring>, cookies: set<nat>) {
    forall i :: 0 <= i < |rings| ==> rings[i].offset in cookies
  }

  function MapAll(rs: seq<Region>): (r: seq<Region>)
    ensures |r| == |rs| && forall i :: 0 <= i < |rs| ==> r[i] == rs[i].(mapped := true)
  {
    seq(|rs|, i requires 0 <= i < |rs| => rs[i].(mapped := true))
  }

  /** connect: map what is not mapped, then check every ring's cookie. */
  function ConnectPort(p: Port, cookies: set<nat>): (Port, bool) {
    (p.(regions := MapAll(p.regions)), CookiesOk(p.tx, cookies) && CookiesOk(p.rx, cookies))
  }

  // ---- one message

  datatype Parsed = Done(chan: Chan, cookies: set<nat>) | Failed(failed: Chan) | Panic

  function RingStarts(rings: seq<Ring>): (s: set<nat>)
    ensures forall i :: 0 <= i < |rings| ==> rings[i].offset in s
  {
    if rings == [] then {} else RingStarts(rings[..|rings| - 1]) + {rings[|rings| - 1].offset}
  }

  /**
   parseHello, initializeRegions and initializeQueues: an empty region cannot be mapped, and a store
   that starts beyond the end of region 0 is a slice panic.
   */
  function ParseHello(c: Chan, cookies: set<nat>, h: Hello): Parsed
    requires c.Valid()
  {
    if c.port.None? then Panic
    else if h.versionMin > VERSION || h.versionMax < VERSION then Failed(c)
    else
      var p := c.ports[c.port.value];
      var run := Negotiate(p.cfg.memory, h);
      var q := Initialize(p, run);
      if run.RegionSize() == 0 then Failed(c.With(p.(run := run)))
      else if !run.FitsIn(q.regions[0].Reach()) then Panic
      else Done(c.With(q).(queue := c.queue + Script(q)), cookies + RingStarts(q.tx) + RingStarts(q.rx))
  }

  function ParseInit(c: Chan, cookies: set<nat>, version: nat, id: nat, secret: seq<byte>): Parsed {
    if version != VERSION then Failed(c)
    else
      var f := FindPort(c.ports, id);
      if f.None? then Failed(c)
      else
        var p := c.ports[f.value];
        if p.cfg.secret != secret then Failed(c)
        else Done(c.(port := f, ports := c.ports[f.value := p.(held := true, run := p.cfg.memory)],
                     queue := c.queue + [Ack]), cookies)
  }

  function ParseConnect(c: Chan, cookies: set<nat>, reply: seq<Msg>): Parsed
    requires c.Valid()
  {
    if c.port.None? then Panic
    else
      var p := ConnectPort(c.ports[c.port.value], cookies);
      if !p.1 then Failed(c.With(p.0))
      else Done(c.With(p.0).(connected := true, queue := c.queue + reply), cookies)
  }

  function ParseAddRegion(c: Chan, cookies: set<nat>, index: nat, size: nat): Parsed
    requires c.Valid()
  {
    if c.port.None? then Panic
    else if index > 255 then Failed(c)
    else
      var p := c.ports[c.port.value];
      Done(c.With(p.(regions := p.regions + [Region(size, false)])).(queue := c.queue + [Ack]), cookies)
  }

  /** The ring is appended; its index is only checked against the port's own queue count. */
  function ParseAddRing(c: Chan, cookies: set<nat>, s2m: bool, index: nat, ring: Ring): Parsed
    requires c.Valid()
  {
    if c.port.None? then Panic
    else if index >= c.ports[c.port.value].run.numQueuePairs then Failed(c)
    else
      var p := c.ports[c.port.value];
      var q := if s2m then p.(rx := p.rx + [ring]) else p.(tx := p.tx + [ring]);
      Done(c.With(q).(queue := c.queue + [Ack]), cookies)
  }

  function ParseMsg(c: Chan, cookies: set<nat>, m: Msg): (r: Parsed)
    requires c.Valid()
    ensures r.Done? ==> r.chan.Valid()
    ensures r.Failed? ==> r.failed.Valid()
  {
    match m
    case Ack => Done(c, cookies)
    case HelloMsg(h) => ParseHello(c, cookies, h)
    case Init(version, id, secret) => ParseInit(c, cookies, version, id, secret)
    case AddRegion(index, size) => ParseAddRegion(c, cookies, index, size)
    case AddRing(s2m, index, offset, log2) => ParseAddRing(c, cookies, s2m, index, Ring(offset, log2))
    case Connect => ParseConnect(c, cookies, [Connected])
    case Connected => ParseConnect(c, cookies, [])
    case Disconnect => var d := Close(c, false); if d.2 then Done(d.0, cookies) else Failed(d.0)
  }

  /** handleEvent: parse; on success send the next queued message, on an error say so and close. */
  function Deliver(c: Chan, cookies: set<nat>, m: Msg): (r: (Chan, set<nat>, seq<Msg>))
    requires c.Valid()
    ensures r.0.Valid()
  {
    match ParseMsg(c, cookies, m)
    case Panic => (c.(panicked := true), cookies, [])
    case Failed(d) => var e := Close(d, true); (e.0, cookies, e.1)
    case Done(d, k) =>
      if d.queue == [] then (d, k, []) else (d.(queue := d.queue[1..]), k, [d.queue[0]])
  }
}
