/** A socket's ports and the channels that hold them, over every run of creation, Init, close and deletion. */
module Ports {
  import opened Bytes
  import opened Control
  import opened Layout

  /** handle stands for the port's address; cc is the channel that holds it. */
  datatype Entry = Entry(handle: nat, cfg: PortCfg, cc: Option<nat>)

  /** live: the channel is in the socket's list and receives events. */
  datatype Link = Link(port: Option<nat>, live: bool)

  datatype Sock = Sock(ports: seq<Entry>, chans: map<nat, Link>, next: nat)

  /** unmapped: whether the regions of the port in question, if there is one, could be unmapped. */
  datatype Event =
    | NewPort(cfg: PortCfg)
    | Accept
    | InitMsg(chan: nat, id: nat, secret: seq<byte>, unmapped: bool)
    | CloseChan(chan: nat, unmapped: bool)
    | Delete(handle: nat, unmapped: bool)

  predicate SameRole(a: PortCfg, b: PortCfg) { a.id == b.id && a.isServer == b.isServer }

  /** The zero values of a configuration stand for the defaults. */
  function WithDefaults(m: MemoryConfig): MemoryConfig {
    MemoryConfig(if m.numQueuePairs == 0 then 1 else m.numQueuePairs,
                 if m.log2RingSize == 0 then 10 else m.log2RingSize,
                 if m.packetBufferSize == 0 then 2048 else m.packetBufferSize)
  }

  /** What is stored of a configuration that is given: fields that are not zero stay, the others are 1, 10 and 2048. */
  ghost predicate Stores(given: MemoryConfig, m: MemoryConfig) {
    && Kept(given.numQueuePairs, m.numQueuePairs, 1) && Kept(given.log2RingSize, m.log2RingSize, 10)
    && Kept(given.packetBufferSize, m.packetBufferSize, 2048)
  }

  predicate Kept(given: nat, n: nat, otherwise: nat) { (given > 0 ==> n == given) && (given == 0 ==> n == otherwise) }

  function Add(s: Sock, cfg: PortCfg): Sock {
    if exists i :: 0 <= i < |s.ports| && SameRole(s.ports[i].cfg, cfg) then s
    else s.(ports := s.ports + [Entry(s.next, cfg.(memory := WithDefaults(cfg.memory)), None)], next := s.next + 1)
  }

  predicate Free(e: Entry, id: nat) { e.cfg.id == id && e.cfg.isServer && e.cc.None? }

  /** The first free server port with that id. */
  function FirstFree(ports: seq<Entry>, id: nat): (r: Option<nat>)
    ensures r.Some? ==> r.value < |ports| && Free(ports[r.value], id)
    ensures r.None? ==> forall h :: 0 <= h < |ports| ==> !Free(ports[h], id)
  {
    First(ports, e => Free(e, id), 0)
  }

  /** close: the channel leaves the list; its port lets go of it if the regions can be unmapped. */
  function Shut(s: Sock, c: nat, unmapped: bool): (t: Sock)
    ensures |t.ports| == |s.ports|
  {
    if c !in s.chans || !s.chans[c].live then s
    else
      var l := s.chans[c];
      var t := s.(chans := s.chans[c := l.(live := false)]);
      if l.port.None? || !unmapped then t
      else t.(ports := Released(t.ports, l.port.value))
  }

  function Released(ports: seq<Entry>, handle: nat): (r: seq<Entry>)
    ensures |r| == |ports|
  {
    seq(|ports|, i requires 0 <= i < |ports| => if ports[i].handle == handle then ports[i].(cc := None) else ports[i])
  }

  /** There is no free server port of that id, or the first one has another secret. */
  predicate Refused(s: Sock, id: nat, secret: seq<byte>) {
    var f := FirstFree(s.ports, id);
    f.None? || s.ports[f.value].cfg.secret != secret
  }

  /** Init on a channel: bind the first free port of that id, or close. */
  function Bind(s: Sock, c: nat, id: nat, secret: seq<byte>, unmapped: bool): Sock
    requires c in s.chans
  {
    if Refused(s, id, secret) then Shut(s, c, unmapped)
    else
      var k := FirstFree(s.ports, id).value;
      var e := s.ports[k];
      s.(ports := s.ports[k := e.(cc := Some(c))], chans := s.chans[c := s.chans[c].(port := Some(e.handle))])
  }

  function IndexOf(ports: seq<Entry>, handle: nat): (r: Option<nat>)
    ensures r.Some? ==> r.value < |ports| && ports[r.value].handle == handle
  {
    First(ports, (e: Entry) => e.handle == handle, 0)
  }

  /** Delete: disconnect, whatever comes of it, then leave the list. */
  function Remove(s: Sock, handle: nat, unmapped: bool): Sock {
    var f := IndexOf(s.ports, handle);
    if f.None? then s
    else
      var e := s.ports[f.value];
      var t := if e.cc.Some? then Shut(s, e.cc.value, unmapped) else s;
      t.(ports := t.ports[..f.value] + t.ports[f.value + 1..])
  }

  function Step(s: Sock, ev: Event): Sock {
    match ev
    case NewPort(cfg) => Add(s, cfg)
    case Accept => s.(chans := s.chans[s.next := Link(None, true)], next := s.next + 1)
    case InitMsg(c, id, secret, unmapped) =>
      if c !in s.chans || !s.chans[c].live then s else Bind(s, c, id, secret, unmapped)
    case CloseChan(c, unmapped) => Shut(s, c, unmapped)
    case Delete(h, unmapped) => Remove(s, h, unmapped)
  }

  function Run(s: Sock, evs: seq<Event>): Sock
    decreases |evs|
  {
    if evs == [] then s else Step(Run(s, evs[..|evs| - 1]), evs[|evs| - 1])
  }

  // ---- the invariant

  /** Handles are distinct, and so are the pairs of id and role. */
  ghost predicate Unique(ports: seq<Entry>) {
    forall i, j :: 0 <= i < j < |ports| ==> ports[i].handle != ports[j].handle && !SameRole(ports[i].cfg, ports[j].cfg)
  }

  /** A port that is held points to a channel that points back. */
  ghost predicate PointsBack(s: Sock, e: Entry) {
    e.cc.Some? ==> e.cc.value in s.chans && s.chans[e.cc.value].port == Some(e.handle)
  }

  /** A live channel holds the port it points to. */
  ghost predicate HoldsIt(s: Sock, c: nat, e: Entry)
    requires c in s.chans
  {
    s.chans[c].live && s.chans[c].port == Some(e.handle) ==> e.cc == Some(c)
  }

  ghost predicate Lists(ports: seq<Entry>, handle: nat) {
    exists i :: 0 <= i < |ports| && ports[i].handle == handle
  }

  /** The port of a live channel is in the socket's list. */
  ghost predicate KnowsPort(s: Sock, c: nat)
    requires c in s.chans
  {
    s.chans[c].live && s.chans[c].port.Some? ==> Lists(s.ports, s.chans[c].port.value)
  }

  /** What holds of the port list whatever the peers send. */
  ghost predicate ListOk(s: Sock) {
    Unique(s.ports) && forall i :: 0 <= i < |s.ports| ==> s.ports[i].handle < s.next
  }

  ghost predicate Inv(s: Sock) {
    && ListOk(s)
    && (forall c :: c in s.chans ==> c < s.next && (s.chans[c].port.Some? ==> s.chans[c].port.value < s.next))
    && (forall c :: c in s.chans ==> KnowsPort(s, c))
    && (forall i :: 0 <= i < |s.ports| ==> PointsBack(s, s.ports[i]))
    && (forall i, c :: 0 <= i < |s.ports| && c in s.chans ==> HoldsIt(s, c, s.ports[i]))
  }

  ghost predicate SameList(s: Sock, t: Sock) {
    && |t.ports| == |s.ports| && s.next == t.next
    && forall i :: 0 <= i < |s.ports| ==> t.ports[i].handle == s.ports[i].handle && t.ports[i].cfg == s.ports[i].cfg
  }

  lemma DropKeepsList(s: Sock, k: nat)
    requires ListOk(s) && k < |s.ports|
    ensures ListOk(s.(ports := s.ports[..k] + s.ports[k + 1..]))
  {
    var t := s.(ports := s.ports[..k] + s.ports[k + 1..]);
    forall i | 0 <= i < |t.ports| ensures t.ports[i] == s.ports[if i < k then i else i + 1] {
    }
  }

  lemma SameListOk(s: Sock, t: Sock)
    requires ListOk(s) && SameList(s, t)
    ensures ListOk(t)
  {
  }

  lemma BindSame(s: Sock, c: nat, id: nat, secret: seq<byte>, unmapped: bool)
    requires c in s.chans
    ensures SameList(s, Bind(s, c, id, secret, unmapped))
  {
  }

  lemma RemoveKeepsList(s: Sock, h: nat, unmapped: bool)
    requires ListOk(s)
    ensures ListOk(Remove(s, h, unmapped))
  {
    var f := IndexOf(s.ports, h);
    if f.Some? {
      var cc := s.ports[f.value].cc;
      var t := if cc.Some? then Shut(s, cc.value, unmapped) else s;
      SameListOk(s, t);
      DropKeepsList(t, f.value);
    }
  }

  lemma AddKeepsList(s: Sock, cfg: PortCfg)
    requires ListOk(s)
    ensures ListOk(Add(s, cfg))
  {
  }

  lemma StepKeepsList(s: Sock, ev: Event)
    requires ListOk(s)
    ensures ListOk(Step(s, ev))
  {
    match ev
    case NewPort(cfg) => AddKeepsList(s, cfg);
    case Delete(h, unmapped) => RemoveKeepsList(s, h, unmapped);
    case InitMsg(c, id, secret, unmapped) =>
      if c in s.chans {
        BindSame(s, c, id, secret, unmapped);
        SameListOk(s, Bind(s, c, id, secret, unmapped));
      }
    case CloseChan(c, unmapped) => SameListOk(s, Shut(s, c, unmapped));
    case Accept =>
  }

  lemma AddKeeps(s: Sock, cfg: PortCfg)
    requires Inv(s)
    ensures Inv(Add(s, cfg))
  {
    var t := Add(s, cfg);
    forall c | c in t.chans ensures KnowsPort(t, c) { StillListed(s, t, c); }
  }

  lemma StillListed(s: Sock, t: Sock, c: nat)
    requires c in s.chans && c in t.chans && KnowsPort(s, c) && |s.ports| <= |t.ports|
    requires forall i :: 0 <= i < |s.ports| ==> t.ports[i].handle == s.ports[i].handle
    requires t.chans[c].live ==> s.chans[c].live && t.chans[c].port == s.chans[c].port
    ensures KnowsPort(t, c)
  {
    if t.chans[c].live && t.chans[c].port.Some? {
      var i :| 0 <= i < |s.ports| && s.ports[i].handle == s.chans[c].port.value;
      assert t.ports[i].handle == t.chans[c].port.value;
    }
  }

  lemma AcceptKeeps(s: Sock)
    requires Inv(s)
    ensures Inv(Step(s, Accept))
  {
    var t := Step(s, Accept);
    forall c | c in t.chans ensures KnowsPort(t, c) { if c != s.next { StillListed(s, t, c); } }
  }

  lemma ShutKeeps(s: Sock, c: nat, unmapped: bool)
    requires Inv(s)
    ensures Inv(Shut(s, c, unmapped))
  {
    var t := Shut(s, c, unmapped);
    forall d | d in t.chans ensures KnowsPort(t, d) { StillListed(s, t, d); }
    if c in s.chans && s.chans[c].live && s.chans[c].port.Some? {
      forall i, d | 0 <= i < |t.ports| && d in t.chans ensures HoldsIt(t, d, t.ports[i]) {
        assert HoldsIt(s, d, s.ports[i]) && HoldsIt(s, c, s.ports[i]);
      }
      forall i | 0 <= i < |t.ports| ensures PointsBack(t, t.ports[i]) {
        assert PointsBack(s, s.ports[i]);
      }
    }
  }

  lemma BindKeeps(s: Sock, c: nat, id: nat, secret: seq<byte>, unmapped: bool)
    requires Inv(s) && c in s.chans && s.chans[c].live && (s.chans[c].port.None? || Refused(s, id, secret))
    ensures Inv(Bind(s, c, id, secret, unmapped))
  {
    if Refused(s, id, secret) {
      ShutKeeps(s, c, unmapped);
    } else {
      var t, k := Bind(s, c, id, secret, unmapped), FirstFree(s.ports, id).value;
      forall i, d | 0 <= i < |t.ports| && d in t.chans ensures HoldsIt(t, d, t.ports[i]) {
        assert HoldsIt(s, d, s.ports[i]);
      }
      forall i | 0 <= i < |t.ports| ensures PointsBack(t, t.ports[i]) {
        assert PointsBack(s, s.ports[i]);
      }
      forall d | d in t.chans ensures KnowsPort(t, d) {
        if d == c { assert t.ports[k].handle == t.chans[c].port.value; } else { StillListed(s, t, d); }
      }
    }
  }

  /**
   Init on a live channel that has a port already: the ports and channels stay consistent exactly if it is
   refused.  Otherwise the first port is held by a channel that has moved on to another.
   */
  lemma SecondInitIff(s: Sock, c: nat, id: nat, secret: seq<byte>, unmapped: bool)
    requires Inv(s) && c in s.chans && s.chans[c].live && s.chans[c].port.Some?
    ensures Inv(Step(s, InitMsg(c, id, secret, unmapped))) <==> Refused(s, id, secret)
  {
    if Refused(s, id, secret) {
      BindKeeps(s, c, id, secret, unmapped);
    } else {
      var t := Bind(s, c, id, secret, unmapped);
      assert KnowsPort(s, c);
      var i :| 0 <= i < |s.ports| && s.ports[i].handle == s.chans[c].port.value;
      assert HoldsIt(s, c, s.ports[i]) && t.ports[i] == s.ports[i];
      assert !PointsBack(t, t.ports[i]);
    }
  }

  lemma DropKeeps(s: Sock, k: nat)
    requires Inv(s) && k < |s.ports|
    requires forall c :: c in s.chans && s.chans[c].live ==> s.chans[c].port != Some(s.ports[k].handle)
    ensures Inv(s.(ports := s.ports[..k] + s.ports[k + 1..]))
  {
    var t := s.(ports := s.ports[..k] + s.ports[k + 1..]);
    forall i | 0 <= i < |t.ports| ensures t.ports[i] == s.ports[if i < k then i else i + 1] {
    }
    forall c | c in t.chans ensures KnowsPort(t, c) {
      assert KnowsPort(s, c);
      if s.chans[c].live && s.chans[c].port.Some? {
        var i :| 0 <= i < |s.ports| && s.ports[i].handle == s.chans[c].port.value;
        assert t.ports[if i < k then i else i - 1] == s.ports[i];
      }
    }
  }

  lemma NobodyHolds(s: Sock, k: nat, unmapped: bool, t: Sock)
    requires Inv(s) && k < |s.ports|
    requires t == if s.ports[k].cc.Some? then Shut(s, s.ports[k].cc.value, unmapped) else s
    ensures forall c :: c in t.chans && t.chans[c].live ==> t.chans[c].port != Some(t.ports[k].handle)
  {
    forall c | c in t.chans && t.chans[c].live ensures t.chans[c].port != Some(t.ports[k].handle) {
      assert HoldsIt(s, c, s.ports[k]);
    }
  }

  lemma RemoveKeeps(s: Sock, h: nat, unmapped: bool)
    requires Inv(s)
    ensures Inv(Remove(s, h, unmapped))
  {
    var f := IndexOf(s.ports, h);
    if f.Some? {
      var e := s.ports[f.value];
      var t := if e.cc.Some? then Shut(s, e.cc.value, unmapped) else s;
      if e.cc.Some? { ShutKeeps(s, e.cc.value, unmapped); }
      NobodyHolds(s, f.value, unmapped, t);
      DropKeeps(t, f.value);
    }
  }

  /** Every event keeps the invariant, but for an Init that a channel with a port gets through. */
  lemma StepKeeps(s: Sock, ev: Event)
    requires Inv(s)
    requires ev.InitMsg? && ev.chan in s.chans ==> s.chans[ev.chan].port.None? || Refused(s, ev.id, ev.secret)
    ensures Inv(Step(s, ev))
  {
    match ev
    case NewPort(cfg) => AddKeeps(s, cfg);
    case Accept => AcceptKeeps(s);
    case InitMsg(c, id, secret, unmapped) =>
      if c in s.chans && s.chans[c].live { BindKeeps(s, c, id, secret, unmapped); }
    case CloseChan(c, unmapped) => ShutKeeps(s, c, unmapped);
    case Delete(h, unmapped) => RemoveKeeps(s, h, unmapped);
  }

  // ---- runs

  const EMPTY: Sock := Sock([], map[], 0)

  /** Each channel gets at most one Init. */
  ghost predicate OneInit(evs: seq<Event>) {
    forall i, j :: 0 <= i < j < |evs| && evs[i].InitMsg? && evs[j].InitMsg? ==> evs[i].chan != evs[j].chan
  }

  ghost predicate GotInit(evs: seq<Event>, c: nat) {
    exists i :: 0 <= i < |evs| && evs[i].InitMsg? && evs[i].chan == c
  }

  lemma StepPort(s: Sock, ev: Event, c: nat)
    requires c in Step(s, ev).chans && Step(s, ev).chans[c].port.Some?
    ensures (c in s.chans && s.chans[c].port.Some?) || (ev.InitMsg? && ev.chan == c)
  {
  }

  /** Only a channel that got an Init has a port. */
  lemma {:induction false} PortNeedsInit(evs: seq<Event>, c: nat)
    requires var s := Run(EMPTY, evs); c in s.chans && s.chans[c].port.Some?
    ensures GotInit(evs, c)
    decreases |evs|
  {
    if evs != [] {
      var n := |evs| - 1;
      StepPort(Run(EMPTY, evs[..n]), evs[n], c);
      if evs[n].InitMsg? && evs[n].chan == c {
      } else {
        PortNeedsInit(evs[..n], c);
        var i :| 0 <= i < n && evs[..n][i].InitMsg? && evs[..n][i].chan == c;
        assert evs[i].InitMsg? && evs[i].chan == c;
      }
    }
  }

  /** From an empty socket, over every run with at most one Init a channel. */
  lemma {:induction false} RunKeeps(evs: seq<Event>)
    requires OneInit(evs)
    ensures Inv(Run(EMPTY, evs))
    decreases |evs|
  {
    if evs != [] {
      var n := |evs| - 1;
      RunKeeps(evs[..n]);
      var s := Run(EMPTY, evs[..n]);
      if evs[n].InitMsg? && evs[n].chan in s.chans && s.chans[evs[n].chan].port.Some? {
        PortNeedsInit(evs[..n], evs[n].chan);
      }
      StepKeeps(s, evs[n]);
    }
  }

  lemma {:induction false} RunKeepsList(evs: seq<Event>)
    ensures ListOk(Run(EMPTY, evs))
    decreases |evs|
  {
    if evs != [] {
      RunKeepsList(evs[..|evs| - 1]);
      StepKeepsList(Run(EMPTY, evs[..|evs| - 1]), evs[|evs| - 1]);
    }
  }

  /** In every run, no two ports share id and role. */
  lemma RolesAreUnique(evs: seq<Event>, i: nat, j: nat)
    requires i < j < |Run(EMPTY, evs).ports|
    ensures !SameRole(Run(EMPTY, evs).ports[i].cfg, Run(EMPTY, evs).ports[j].cfg)
  {
    RunKeepsList(evs);
  }

  // ---- what creation, close and deletion bring about

  /** NewPort appends the port with the defaults filled in, unless there is one of that id and role. */
  lemma AddedIs(s: Sock, cfg: PortCfg)
    ensures var t := Add(s, cfg);
            if exists i :: 0 <= i < |s.ports| && SameRole(s.ports[i].cfg, cfg) then t == s
            else
              && |t.ports| == |s.ports| + 1 && t.ports[..|s.ports|] == s.ports && t.chans == s.chans
              && var e := t.ports[|s.ports|];
              && e.handle == s.next && e.cc == None && Stores(cfg.memory, e.cfg.memory)
              && e.cfg.id == cfg.id && e.cfg.isServer == cfg.isServer && e.cfg.secret == cfg.secret
  {
  }

  /** Closing a channel touches no port but the one it points to, and no other channel. */
  lemma ShutKeepsOthers(s: Sock, c: nat, unmapped: bool)
    ensures var t := Shut(s, c, unmapped);
            && t.next == s.next && t.chans.Keys == s.chans.Keys
            && (forall d :: d in s.chans && d != c ==> t.chans[d] == s.chans[d])
            && (forall i :: 0 <= i < |s.ports| && !(c in s.chans && s.chans[c].port == Some(s.ports[i].handle)) ==>
                  t.ports[i] == s.ports[i])
            && (c in s.chans ==> !t.chans[c].live)
  {
  }

  /** There is one server port of an id. */
  lemma OneServer(s: Sock, i: nat, k: nat)
    requires ListOk(s) && i < |s.ports| && k < |s.ports| && s.ports[i].cfg.id == s.ports[k].cfg.id
    requires s.ports[i].cfg.isServer && s.ports[k].cfg.isServer
    ensures i == k
  {
    assert SameRole(s.ports[i].cfg, s.ports[k].cfg) && SameRole(s.ports[k].cfg, s.ports[i].cfg);
  }

  /**
   A live channel's port after the channel has closed: an Init on another channel with its id gets it exactly if
   the regions could be unmapped and the secret is right.
   */
  lemma ReleasedIff(s: Sock, c: nat, k: nat, unmapped: bool, secret: seq<byte>)
    requires Inv(s) && k < |s.ports| && BoundTo(s, c, s.ports[k]) && s.ports[k].cfg.isServer
    ensures var t := Shut(s, c, unmapped);
            && t.ports[k].cfg == s.ports[k].cfg && (t.ports[k].cc.None? <==> unmapped)
            && (Refused(t, s.ports[k].cfg.id, secret) <==> !unmapped || secret != s.ports[k].cfg.secret)
  {
    var t, id := Shut(s, c, unmapped), s.ports[k].cfg.id;
    assert HoldsIt(s, c, s.ports[k]);
    assert t.ports[k].cfg == s.ports[k].cfg;
    forall i | 0 <= i < |t.ports| && Free(t.ports[i], id) ensures i == k { OneServer(s, i, k); }
    if unmapped { assert Free(t.ports[k], id); }
  }

  /** So the next channel that asks for it holds it. */
  lemma ReleasedIsTaken(s: Sock, c: nat, k: nat, d: nat, again: bool)
    requires Inv(s) && k < |s.ports| && BoundTo(s, c, s.ports[k]) && s.ports[k].cfg.isServer
    requires d != c && d in s.chans && s.chans[d].live && s.chans[d].port.None?
    ensures var t := Step(Step(s, CloseChan(c, true)), InitMsg(d, s.ports[k].cfg.id, s.ports[k].cfg.secret, again));
            |t.ports| == |s.ports| && t.ports[k].cc == Some(d) && BoundTo(t, d, t.ports[k]) && Inv(t)
  {
    var u, id := Shut(s, c, true), s.ports[k].cfg.id;
    ReleasedIff(s, c, k, true, s.ports[k].cfg.secret);
    ShutKeeps(s, c, true);
    BindKeeps(u, d, id, s.ports[k].cfg.secret, again);
    var f := FirstFree(u.ports, id).value;
    OneServer(s, f, k);
  }

  /** A list with the element at k taken out, compared by handles with the list before. */
  lemma TakenOut(ps: seq<Entry>, us: seq<Entry>, k: nat, ts: seq<Entry>, h: nat)
    requires |us| == |ps| && (forall i :: 0 <= i < |ps| ==> us[i].handle == ps[i].handle) && Unique(ps)
    requires k < |us| && ts == us[..k] + us[k + 1..]
    ensures Lists(ts, h) <==> Lists(ps, h) && h != ps[k].handle
  {
    forall i | 0 <= i < |ts| ensures ts[i].handle == ps[if i < k then i else i + 1].handle { }
    if Lists(ps, h) && h != ps[k].handle {
      var i :| 0 <= i < |ps| && ps[i].handle == h;
      assert ts[if i < k then i else i - 1].handle == h;
    }
  }

  /** After Delete the port is not listed any more and every other port is, whether or not it was held. */
  lemma Removed(s: Sock, handle: nat, unmapped: bool, h: nat)
    requires ListOk(s) && Lists(s.ports, handle)
    ensures var t := Remove(s, handle, unmapped);
            |t.ports| == |s.ports| - 1 && (Lists(t.ports, h) <==> Lists(s.ports, h) && h != handle)
  {
    var k := IndexOf(s.ports, handle).value;
    var u := if s.ports[k].cc.Some? then Shut(s, s.ports[k].cc.value, unmapped) else s;
    forall i | 0 <= i < |s.ports| ensures u.ports[i].handle == s.ports[i].handle { }
    TakenOut(s.ports, u.ports, k, Remove(s, handle, unmapped).ports, h);
  }

  /** And the channel that held it is closed. */
  lemma RemovedCloses(s: Sock, k: nat, unmapped: bool)
    requires ListOk(s) && k < |s.ports| && s.ports[k].cc.Some? && s.ports[k].cc.value in s.chans
    ensures var t := Remove(s, s.ports[k].handle, unmapped); s.ports[k].cc.value in t.chans && !t.chans[s.ports[k].cc.value].live
  {
    assert IndexOf(s.ports, s.ports[k].handle) == Some(k) by {
      var i := IndexOf(s.ports, s.ports[k].handle).value;
      if i != k { SameHandle(s, i, k); }
    }
    ShutKeepsOthers(s, s.ports[k].cc.value, unmapped);
  }

  lemma SameHandle(s: Sock, i: nat, k: nat)
    requires ListOk(s) && i < |s.ports| && k < |s.ports| && s.ports[i].handle == s.ports[k].handle
    ensures i == k
  {
  }

  /** A live channel that points to the port. */
  ghost predicate BoundTo(s: Sock, c: nat, e: Entry) {
    c in s.chans && s.chans[c].live && s.chans[c].port == Some(e.handle)
  }

  /**
   With at most one Init a channel: no two live channels are bound to one port, a live channel's port is
   held by it, and the channel that a held port names points back to it.
   */
  lemma PortsAreExclusive(evs: seq<Event>, i: nat, c: nat, d: nat)
    requires OneInit(evs) && i < |Run(EMPTY, evs).ports|
    ensures var s := Run(EMPTY, evs);
            var e := s.ports[i];
            && (BoundTo(s, c, e) && BoundTo(s, d, e) ==> c == d && e.cc == Some(c))
            && (e.cc.Some? ==> e.cc.value in s.chans && s.chans[e.cc.value].port == Some(e.handle))
  {
    RunKeeps(evs);
    var s := Run(EMPTY, evs);
    assert PointsBack(s, s.ports[i]);
    if c in s.chans && d in s.chans {
      assert HoldsIt(s, c, s.ports[i]) && HoldsIt(s, d, s.ports[i]);
    }
  }

  /** The code does not stop a channel from sending Init twice: this run leaves the first port held by nobody. */
  lemma SecondInitStrands(id1: nat, id2: nat)
    requires id1 != id2
    ensures var m := MemoryConfig(1, 10, 2048);
            var s := Run(EMPTY, [NewPort(PortCfg(id1, true, NoSecret(), m)), NewPort(PortCfg(id2, true, NoSecret(), m)),
                                 Accept, InitMsg(2, id1, NoSecret(), true), InitMsg(2, id2, NoSecret(), true)]);
            |s.ports| == 2 && s.ports[0].cc == Some(2) && !PointsBack(s, s.ports[0])
  {
    var m := MemoryConfig(1, 10, 2048);
    var a, b := PortCfg(id1, true, NoSecret(), m), PortCfg(id2, true, NoSecret(), m);
    var evs := [NewPort(a), NewPort(b), Accept, InitMsg(2, id1, NoSecret(), true), InitMsg(2, id2, NoSecret(), true)];
    var s1, s2 := Sock([Entry(0, a, None)], map[], 1), Sock([Entry(0, a, None), Entry(1, b, None)], map[], 2);
    var s3 := Sock([Entry(0, a, None), Entry(1, b, None)], map[2 := Link(None, true)], 3);
    assert Step(EMPTY, evs[0]) == s1 && Step(s1, evs[1]) == s2 && Step(s2, evs[2]) == s3;
    assert evs[..4][..3] == evs[..3] && evs[..3][..2] == evs[..2] && evs[..2][..1] == evs[..1] && evs[..1][..0] == [];
    assert Run(EMPTY, evs[..1]) == s1;
    assert Run(EMPTY, evs[..2]) == s2;
    assert Run(EMPTY, evs[..3]) == s3;
    var s4 := Bind(s3, 2, id1, NoSecret(), true);
    assert Run(EMPTY, evs[..4]) == s4;
    assert s4.ports == [Entry(0, a, Some(2)), Entry(1, b, None)];
    assert Free(s4.ports[1], id2) && !Free(s4.ports[0], id2);
    assert FirstFree(s4.ports, id2) == Some(1);
  }

  /** The socket object. */
  class Socket {
    var portList: seq<Entry>
    var next: nat

    constructor ()
      ensures portList == [] && next == 0
    {
      portList, next := [], 0;
    }

    /** NewPort: refuses a second port of the same id and role, else appends one with the defaults filled in. */
    method CreatePort(cfg: PortCfg) returns (r: Option<nat>)
      modifies this
      ensures forall chans :: Add(Sock(old(portList), chans, old(next)), cfg) == Sock(portList, chans, next)
      ensures r.Some? <==> !exists i :: 0 <= i < |old(portList)| && SameRole(old(portList)[i].cfg, cfg)
      ensures r.None? ==> portList == old(portList)
      ensures r.Some? ==> |portList| == |old(portList)| + 1 && portList[..|old(portList)|] == old(portList)
                          && var e := portList[|old(portList)|];
                          && e.handle == r.value == old(next) && e.cc == None && Stores(cfg.memory, e.cfg.memory)
                          && e.cfg.id == cfg.id && e.cfg.isServer == cfg.isServer && e.cfg.secret == cfg.secret
    {
      for i := 0 to |portList|
        invariant forall h :: 0 <= h < i ==> !SameRole(portList[h].cfg, cfg)
      {
        if SameRole(portList[i].cfg, cfg) {
          return None;
        }
      }
      var m := cfg.memory;
      if m.numQueuePairs == 0 {
        m := m.(numQueuePairs := 1);
      }
      if m.log2RingSize == 0 {
        m := m.(log2RingSize := 10);
      }
      if m.packetBufferSize == 0 {
        m := m.(packetBufferSize := 2048);
      }
      portList := portList + [Entry(next, cfg.(memory := m), None)];
      next := next + 1;
      r := Some(next - 1);
    }
  }
}
