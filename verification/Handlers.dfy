/** One received message: exactly when a handler refuses it, and which ports it leaves alone. */
module Handlers {
  import opened Bytes
  import opened Control
  import opened Layout
  import opened RingMemory

  // ---- other ports

  /** Port i is neither the one that the channel was bound to nor the one that it is bound to now. */
  predicate Elsewhere(c: Chan, d: Chan, i: nat) { c.port != Some(i) && d.port != Some(i) }

  /** All configurations are as they were, and so are the ports elsewhere. */
  ghost predicate OthersKept(c: Chan, d: Chan) {
    && |d.ports| == |c.ports|
    && forall i :: 0 <= i < |c.ports| ==> d.ports[i].cfg == c.ports[i].cfg && (Elsewhere(c, d, i) ==> d.ports[i] == c.ports[i])
  }

  /** Closing a channel touches no port but its own. */
  lemma CloseKeepsOthers(c: Chan, send: bool)
    requires c.Valid()
    ensures OthersKept(c, Close(c, send).0) && Close(c, send).0.port == c.port
  {
  }

  lemma WithKeepsOthers(c: Chan, d: Chan, p: Port)
    requires c.Valid() && c.port.Some? && p.cfg == c.ports[c.port.value].cfg
    requires d.ports == c.With(p).ports && d.port == c.port
    ensures OthersKept(c, d)
  {
  }

  lemma HelloKeepsOthers(c: Chan, cookies: set<nat>, h: Hello)
    requires c.Valid()
    ensures var r := ParseHello(c, cookies, h);
            (r.Done? ==> OthersKept(c, r.chan)) && (r.Failed? ==> OthersKept(c, r.failed) && r.failed.port == c.port)
  {
    if c.port.Some? {
      var p := c.ports[c.port.value];
      var run := Negotiate(p.cfg.memory, h);
      WithKeepsOthers(c, c.With(p.(run := run)), p.(run := run));
      WithKeepsOthers(c, c.With(Initialize(p, run)), Initialize(p, run));
    }
  }

  lemma ConnectKeepsOthers(c: Chan, cookies: set<nat>, reply: seq<Msg>)
    requires c.Valid()
    ensures var r := ParseConnect(c, cookies, reply);
            (r.Done? ==> OthersKept(c, r.chan)) && (r.Failed? ==> OthersKept(c, r.failed) && r.failed.port == c.port)
  {
    if c.port.Some? {
      var p := ConnectPort(c.ports[c.port.value], cookies).0;
      WithKeepsOthers(c, c.With(p), p);
    }
  }

  lemma AddKeepsOthers(c: Chan, cookies: set<nat>, m: Msg)
    requires c.Valid() && (m.AddRegion? || m.AddRing? || m.Init?)
    ensures var r := ParseMsg(c, cookies, m);
            (r.Done? ==> OthersKept(c, r.chan)) && (r.Failed? ==> OthersKept(c, r.failed) && r.failed.port == c.port)
  {
  }

  lemma ParseKeepsOthers(c: Chan, cookies: set<nat>, m: Msg)
    requires c.Valid()
    ensures var r := ParseMsg(c, cookies, m);
            (r.Done? ==> OthersKept(c, r.chan)) && (r.Failed? ==> OthersKept(c, r.failed) && r.failed.port == c.port)
  {
    match m
    case Ack =>
    case HelloMsg(h) => HelloKeepsOthers(c, cookies, h);
    case Connect => ConnectKeepsOthers(c, cookies, [Connected]);
    case Connected => ConnectKeepsOthers(c, cookies, []);
    case Disconnect => CloseKeepsOthers(c, false);
    case _ => AddKeepsOthers(c, cookies, m);
  }

  /** No message that a channel receives, whatever it is, changes any other port of the socket. */
  lemma DeliverKeepsOthers(c: Chan, cookies: set<nat>, m: Msg)
    requires c.Valid()
    ensures OthersKept(c, Deliver(c, cookies, m).0)
  {
    ParseKeepsOthers(c, cookies, m);
    var r := ParseMsg(c, cookies, m);
    if r.Failed? { CloseKeepsOthers(r.failed, true); }
  }

  // ---- closing

  /**
   close in full: what is sent, what is left in the queue, that no events come any more, when it succeeds, and
   that the port loses its queues, and its regions and its channel as well if all regions can be unmapped.
   */
  lemma CloseIs(c: Chan, send: bool)
    requires c.Valid()
    ensures var r := Close(c, send);
            && r.1 == (if send then [Disconnect] else []) && r.0.queue == (if send then [] else c.queue)
            && !r.0.registered && r.0.connected == c.connected && r.0.panicked == c.panicked
            && (r.2 <==> c.registered && (c.port.Some? ==> var p := c.ports[c.port.value]; p.held ==> p.AllMapped()))
            && (c.port.None? || !c.registered ==> r.0.ports == c.ports)
            && (c.port.Some? && c.registered ==>
                  var p, q := c.ports[c.port.value], r.0.ports[c.port.value];
                  && q.run == p.run
                  && if !p.held then q == p
                     else q.tx == [] && q.rx == [] && if p.AllMapped() then q.Clean() else q.held && q.regions == p.regions)
  {
  }

  // ---- refusals

  /** A refused message is answered by Disconnect, and the channel is closed with nothing left to send. */
  lemma RefusedCloses(c: Chan, cookies: set<nat>, m: Msg)
    requires c.Valid() && ParseMsg(c, cookies, m).Failed?
    ensures var r := Deliver(c, cookies, m); r.2 == [Disconnect] && !r.0.registered && r.0.queue == [] && r.1 == cookies
  {
  }

  /** How many bytes initializeQueues can reach: those of region 0, which is a new one if the port has none yet. */
  function Room(p: Port, size: nat): nat {
    if p.regions == [] then size else if p.regions[0].mapped then p.regions[0].size else 0
  }

  /** Hello: other versions only, and a region of no bytes, are refused; a region too small is a panic. */
  lemma HelloRefusedIff(c: Chan, cookies: set<nat>, h: Hello)
    requires c.Valid() && c.port.Some?
    ensures var p := c.ports[c.port.value];
            var run, r := Negotiate(p.cfg.memory, h), ParseHello(c, cookies, h);
            && (r.Failed? <==> !(h.versionMin <= 0x200 <= h.versionMax) || run.RegionSize() == 0)
            && (r.Panic? <==> h.versionMin <= 0x200 <= h.versionMax && run.RegionSize() > 0
                              && !run.FitsIn(Room(p, run.RegionSize())))
  {
    var p := c.ports[c.port.value];
    var q := Initialize(p, Negotiate(p.cfg.memory, h));
    assert q.regions == p.regions + [Region(q.run.RegionSize(), true)];
  }

  /** Before a channel has a port every message but Ack, Init and Disconnect is a panic. */
  lemma NoPortPanics(c: Chan, cookies: set<nat>, m: Msg)
    requires c.Valid() && c.port.None?
    ensures ParseMsg(c, cookies, m).Panic? <==> !(m.Ack? || m.Init? || m.Disconnect?)
  {
  }

  /** A Hello that is taken leaves the port's earlier regions and rings in place and adds one region and its rings. */
  lemma HelloAdds(c: Chan, cookies: set<nat>, h: Hello)
    requires c.Valid() && ParseHello(c, cookies, h).Done?
    ensures var r, p := ParseHello(c, cookies, h), c.ports[c.port.value];
            && r.chan.port == c.port && |r.chan.ports| == |c.ports| && c.queue <= r.chan.queue && cookies <= r.cookies
            && var q := r.chan.ports[c.port.value];
            && |q.regions| == |p.regions| + 1 && q.regions[..|p.regions|] == p.regions
            && q.regions[|p.regions|] == Region(q.run.RegionSize(), true) && q.run == Negotiate(p.cfg.memory, h)
            && |q.tx| == |p.tx| + q.run.numQueuePairs && p.tx <= q.tx && |q.rx| == |p.rx| + q.run.numQueuePairs && p.rx <= q.rx
            && |r.chan.queue| == |c.queue| + 2 + |q.regions| + 2 * q.run.numQueuePairs
            && (forall x :: x in q.tx || x in q.rx ==> x.offset in r.cookies)
  {
  }

  /** Port i is the first free server port of that id. */
  ghost predicate FirstMatch(ports: seq<Port>, id: nat, i: nat) {
    && i < |ports| && ports[i].cfg.id == id && ports[i].cfg.isServer && !ports[i].held
    && forall h :: 0 <= h < i ==> ports[h].cfg.id != id || !ports[h].cfg.isServer || ports[h].held
  }

  /** Init is taken exactly on version 0x200, with a free server port of that id whose first has that secret. */
  lemma InitTakenIff(c: Chan, cookies: set<nat>, version: nat, id: nat, secret: seq<byte>)
    ensures var r := ParseInit(c, cookies, version, id, secret);
            && (r.Done? <==> version == 0x200 && exists i: nat :: FirstMatch(c.ports, id, i) && c.ports[i].cfg.secret == secret)
            && (r.Done? || r == Failed(c))
            && (r.Done? ==> r.cookies == cookies && r.chan.port.Some? && r.chan.queue == c.queue + [Ack]
                            && FirstMatch(c.ports, id, r.chan.port.value) && |r.chan.ports| == |c.ports|
                            && r.chan.ports[r.chan.port.value].held && !c.ports[r.chan.port.value].held
                            && r.chan.ports[r.chan.port.value].run == c.ports[r.chan.port.value].cfg.memory)
  {
    var f := FindPort(c.ports, id);
    forall i: nat | FirstMatch(c.ports, id, i) ensures f == Some(i) { }
    if f.Some? { assert FirstMatch(c.ports, id, f.value); }
  }

  /** AddRegion is taken exactly up to index 255. */
  lemma AddRegionTakenIff(c: Chan, cookies: set<nat>, index: nat, size: nat)
    requires c.Valid() && c.port.Some?
    ensures var r := ParseAddRegion(c, cookies, index, size);
            && (r.Done? <==> index <= 255) && (r.Done? || r == Failed(c))
            && (r.Done? ==> var p, q := c.ports[c.port.value], r.chan.ports[c.port.value];
                            |q.regions| == |p.regions| + 1 && q.regions[|p.regions|] == Region(size, false)
                            && q.regions[..|p.regions|] == p.regions && q.tx == p.tx && q.rx == p.rx && q.held == p.held)
  {
  }

  /** AddRing is taken exactly if its index is below the port's own number of queue pairs, S2M rings to the receive side. */
  lemma AddRingTakenIff(c: Chan, cookies: set<nat>, s2m: bool, index: nat, ring: Ring)
    requires c.Valid() && c.port.Some?
    ensures var r, p := ParseAddRing(c, cookies, s2m, index, ring), c.ports[c.port.value];
            && (r.Done? <==> index < p.run.numQueuePairs) && (r.Done? || r == Failed(c))
            && (r.Done? ==> var q := r.chan.ports[c.port.value];
                            && (if s2m then q.rx == p.rx + [ring] && q.tx == p.tx else q.tx == p.tx + [ring] && q.rx == p.rx)
                            && q.regions == p.regions && q.held == p.held)
  {
  }

  /** Connect is taken exactly if every ring of the port carries a cookie; the regions are mapped in any case. */
  lemma ConnectTakenIff(c: Chan, cookies: set<nat>, reply: seq<Msg>)
    requires c.Valid() && c.port.Some?
    ensures var r, p := ParseConnect(c, cookies, reply), c.ports[c.port.value];
            && (r.Done? <==> forall x :: x in p.tx || x in p.rx ==> x.offset in cookies)
            && (r.Done? ==> r.chan.connected && r.chan.queue == c.queue + reply && r.chan.ports[c.port.value].AllMapped())
            && (!r.Done? ==> r.Failed? && r.failed.connected == c.connected && |r.failed.ports| == |c.ports|
                             && r.failed.ports[c.port.value].AllMapped())
  {
    var p := c.ports[c.port.value];
    if CookiesOk(p.tx, cookies) && CookiesOk(p.rx, cookies) {
      forall x | x in p.tx || x in p.rx ensures x.offset in cookies { }
    }
  }

  /** A server with a ring that carries no cookie answers Connect by Disconnect, closes, and its port is free again. */
  lemma NoCookieNoConnection(c: Chan, cookies: set<nat>, i: nat)
    requires c.Valid() && c.registered && c.port.Some? && c.ports[c.port.value].held
    requires var p := c.ports[c.port.value];
             (i < |p.tx| && p.tx[i].offset !in cookies) || (i < |p.rx| && p.rx[i].offset !in cookies)
    ensures var r := Deliver(c, cookies, Connect);
            && r.2 == [Disconnect] && !r.0.registered && !r.0.IsConnected()
            && |r.0.ports| == |c.ports| && r.0.ports[c.port.value].Clean()
  {
    ConnectTakenIff(c, cookies, [Connected]);
  }

  // ---- what AddRegion and AddRing can carry

  /** There is one AddRegion message a region, in turn, with its size and the low 16 bits of its index. */
  lemma RegionMsgsAre(p: Port, i: nat)
    requires i < |p.regions|
    ensures |RegionMsgs(p)| == |p.regions|
    ensures var m := RegionMsgs(p)[i];
            m.AddRegion? && m.size == p.regions[i].size && m.index < 0x1_0000 && (i - m.index) % 0x1_0000 == 0
  {
  }

  /** An AddRing message says what the ring is exactly if its fields are wide enough: 16 bits, 32 and 8. */
  lemma RingMsgExactIff(s2m: bool, i: nat, r: Ring)
    ensures var m := RingMsg(s2m, i, r);
            && m.AddRing? && m.s2m == s2m && m.ringIndex < 0x1_0000 && m.offset < 0x1_0000_0000 && m.log2 < 0x100
            && (m == AddRing(s2m, i, r.offset, r.log2) <==> i < 0x1_0000 && r.offset < 0x1_0000_0000 && r.log2 < 0x100)
  {
  }
}
