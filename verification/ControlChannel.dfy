/** The control channel object: its message queue, its handlers and their loops, in place. */
module ControlChannel {
  import opened Bytes
  import opened Control
  import opened RingMemory

  /** What parseMsg comes back with. */
  datatype Status = Fine | Erred | Crashed

  class Channel {
    var portList: seq<Port>
    var port: Option<nat>
    var msgQueue: seq<Msg>
    var isConnected: bool
    var registered: bool
    var panicked: bool

    function View(): Chan
      reads this
    {
      Chan(portList, port, msgQueue, isConnected, registered, panicked)
    }

    ghost predicate Valid()
      reads this
    {
      View().Valid()
    }

    constructor (portList: seq<Port>, port: Option<nat>)
      requires port.Some? ==> port.value < |portList|
      ensures View() == Chan(portList, port, [], false, true, false)
    {
      this.portList, this.port := portList, port;
      msgQueue, isConnected, registered, panicked := [], false, true, false;
    }

    /** sendMsg: takes the oldest message off the queue. */
    method SendMsg() returns (sent: seq<Msg>)
      modifies this`msgQueue
      ensures if old(msgQueue) == [] then sent == [] && msgQueue == []
              else sent == [old(msgQueue)[0]] && msgQueue == old(msgQueue)[1..]
    {
      sent := [];
      if |msgQueue| >= 1 {
        sent, msgQueue := [msgQueue[0]], msgQueue[1..];
      }
    }

    /** Port.disconnect: drops the queues, then unmaps region by region until one fails. */
    method DisconnectHere(i: nat) returns (ok: bool)
      requires i < |portList|
      modifies this`portList
      ensures (portList, ok) == (old(portList)[i := DisconnectPort(old(portList)[i]).0], DisconnectPort(old(portList)[i]).1)
    {
      var p := portList[i];
      if !p.held {
        assert portList[i := p] == portList;
        return true;
      }
      p := p.(tx := [], rx := []);
      for k := 0 to |p.regions|
        invariant forall h :: 0 <= h < k ==> p.regions[h].mapped
      {
        if !p.regions[k].mapped {
          portList := portList[i := p];
          return false;
        }
      }
      portList := portList[i := p.(regions := [], held := false)];
      ok := true;
    }

    /** close */
    method CloseChannel(send: bool) returns (sent: seq<Msg>, ok: bool)
      requires Valid()
      modifies this
      ensures Valid() && (View(), sent, ok) == Close(old(View()), send)
    {
      sent := [];
      if send {
        msgQueue := [Disconnect];
        sent := SendMsg();
      }
      if !registered {
        return sent, false;
      }
      registered := false;
      ok := true;
      if port.Some? {
        ok := DisconnectHere(port.value);
      }
    }

    /** The port search of parseInit. */
    method FindFree(id: nat) returns (r: Option<nat>)
      ensures r == FindPort(portList, id)
    {
      var i := 0;
      while i < |portList|
        invariant 0 <= i <= |portList| && forall h :: 0 <= h < i ==> !Match(portList[h], id)
      {
        if Match(portList[i], id) {
          return Some(i);
        }
        i := i + 1;
      }
      r := None;
    }

    method TakeInit(version: nat, id: nat, secret: seq<byte>, ghost cookies: set<nat>) returns (ok: bool)
      modifies this
      ensures ParseInit(old(View()), cookies, version, id, secret) ==
              if ok then Done(View(), cookies) else Failed(View())
    {
      if version != VERSION {
        return false;
      }
      var f := FindFree(id);
      if f.None? || portList[f.value].cfg.secret != secret {
        return false;
      }
      var p := portList[f.value];
      portList := portList[f.value := p.(held := true, run := p.cfg.memory)];
      port := f;
      msgQueue := msgQueue + [Ack];
      ok := true;
    }

    /** The mapping loop of connect. */
    static method MapRegions(rs: seq<Region>) returns (r: seq<Region>)
      ensures r == MapAll(rs)
    {
      r := rs;
      for i := 0 to |rs|
        invariant |r| == |rs| && (forall h :: 0 <= h < i ==> r[h] == rs[h].(mapped := true))
        invariant forall h :: i <= h < |rs| ==> r[h] == rs[h]
      {
        if !r[i].mapped {
          r := r[i := r[i].(mapped := true)];
        }
      }
    }

    /** The cookie loops of connect. */
    static method CheckCookies(rings: seq<Ring>, cookies: set<nat>) returns (ok: bool)
      ensures ok == CookiesOk(rings, cookies)
    {
      for i := 0 to |rings|
        invariant forall h :: 0 <= h < i ==> rings[h].offset in cookies
      {
        if rings[i].offset !in cookies {
          return false;
        }
      }
      ok := true;
    }

    /** parseConnect and parseConnected: Port.connect, then mark the channel connected. */
    method TakeConnect(cookies: set<nat>, reply: seq<Msg>) returns (ok: bool)
      requires Valid() && port.Some?
      modifies this
      ensures ParseConnect(old(View()), cookies, reply) == if ok then Done(View(), cookies) else Failed(View())
    {
      var p := portList[port.value];
      var rs := MapRegions(p.regions);
      portList := portList[port.value := p.(regions := rs)];
      ok := CheckCookies(p.tx, cookies);
      if ok {
        ok := CheckCookies(p.rx, cookies);
      }
      if ok {
        isConnected := true;
        msgQueue := msgQueue + reply;
      }
    }

    method TakeAddRegion(index: nat, size: nat, ghost cookies: set<nat>) returns (ok: bool)
      requires Valid() && port.Some?
      modifies this
      ensures ParseAddRegion(old(View()), cookies, index, size) == if ok then Done(View(), cookies) else Failed(View())
    {
      if index > 255 {
        return false;
      }
      var p := portList[port.value];
      portList := portList[port.value := p.(regions := p.regions + [Region(size, false)])];
      msgQueue := msgQueue + [Ack];
      ok := true;
    }

    method TakeAddRing(s2m: bool, index: nat, ring: Ring, ghost cookies: set<nat>) returns (ok: bool)
      requires Valid() && port.Some?
      modifies this
      ensures ParseAddRing(old(View()), cookies, s2m, index, ring) == if ok then Done(View(), cookies) else Failed(View())
    {
      var p := portList[port.value];
      if index >= p.run.numQueuePairs {
        return false;
      }
      p := if s2m then p.(rx := p.rx + [ring]) else p.(tx := p.tx + [ring]);
      portList := portList[port.value := p];
      msgQueue := msgQueue + [Ack];
      ok := true;
    }

    /** The enqueue loops that follow Hello. */
    method EnqueueScript(p: Port)
      requires p.run.numQueuePairs <= |p.tx| && p.run.numQueuePairs <= |p.rx|
      modifies this`msgQueue
      ensures msgQueue == old(msgQueue) + Script(p)
    {
      var q := msgQueue + [Init(VERSION, p.cfg.id, NoSecret())];
      var n := p.run.numQueuePairs;
      ghost var s := q;
      for i := 0 to |p.regions|
        invariant q == s + RegionMsgs(p)[..i]
      {
        q := q + [AddRegion(i % TWO16, p.regions[i].size)];
      }
      ghost var t := q;
      for i := 0 to n
        invariant q == t + RingMsgs(true, p.tx, n)[..i]
      {
        q := q + [RingMsg(true, i, p.tx[i])];
      }
      ghost var u := q;
      for i := 0 to n
        invariant q == u + RingMsgs(false, p.rx, n)[..i]
      {
        q := q + [RingMsg(false, i, p.rx[i])];
      }
      msgQueue := q + [Connect];
    }

    method TakeHello(h: Hello, cookies: set<nat>) returns (st: Status, cookies': set<nat>)
      requires Valid() && port.Some?
      modifies this
      ensures match st
              case Fine => ParseHello(old(View()), cookies, h) == Done(View(), cookies')
              case Erred => ParseHello(old(View()), cookies, h) == Failed(View()) && cookies' == cookies
              case Crashed => ParseHello(old(View()), cookies, h) == Panic && View() == old(View()) && cookies' == cookies
    {
      if h.versionMin > VERSION || h.versionMax < VERSION {
        return Erred, cookies;
      }
      var p := portList[port.value];
      var run := Negotiate(p.cfg.memory, h);
      if run.RegionSize() == 0 {
        portList := portList[port.value := p.(run := run)];
        return Erred, cookies;
      }
      var q := Initialize(p, run);
      if !run.FitsIn(q.regions[0].Reach()) {
        return Crashed, cookies;
      }
      portList := portList[port.value := q];
      EnqueueScript(q);
      return Fine, cookies + RingStarts(q.tx) + RingStarts(q.rx);
    }

    /** parseMsg up to its error label. */
    method Dispatch(m: Msg, cookies: set<nat>) returns (st: Status, cookies': set<nat>)
      requires Valid()
      modifies this
      ensures Valid()
      ensures match st
              case Fine => ParseMsg(old(View()), cookies, m) == Done(View(), cookies')
              case Erred => ParseMsg(old(View()), cookies, m) == Failed(View()) && cookies' == cookies
              case Crashed => ParseMsg(old(View()), cookies, m) == Panic && View() == old(View()) && cookies' == cookies
    {
      cookies' := cookies;
      var ok := true;
      if port.None? && !(m.Ack? || m.Init? || m.Disconnect?) {
        return Crashed, cookies;
      }
      match m {
        case Ack =>
        case HelloMsg(h) =>
          st, cookies' := TakeHello(h, cookies);
          return;
        case Init(version, id, secret) => ok := TakeInit(version, id, secret, cookies);
        case AddRegion(index, size) => ok := TakeAddRegion(index, size, cookies);
        case AddRing(s2m, index, offset, log2) => ok := TakeAddRing(s2m, index, Ring(offset, log2), cookies);
        case Connect => ok := TakeConnect(cookies, [Connected]);
        case Connected => ok := TakeConnect(cookies, []);
        case Disconnect => var sent; sent, ok := CloseChannel(false);
      }
      st := if ok then Fine else Erred;
    }

    /** handleEvent for a message. */
    method HandleEvent(m: Msg, cookies: set<nat>) returns (sent: seq<Msg>, cookies': set<nat>)
      requires Valid()
      modifies this
      ensures Valid() && (View(), cookies', sent) == Deliver(old(View()), cookies, m)
    {
      var st;
      st, cookies' := Dispatch(m, cookies);
      match st
      case Fine => sent := SendMsg();
      case Erred => var ok; sent, ok := CloseChannel(true);
      case Crashed =>
        panicked := true;
        sent := [];
    }
  }
}
