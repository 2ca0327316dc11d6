/** Every run of a handshake in which either application may call Disconnect at any time. */
module Interrupted {
  import opened Control
  import opened Handshake

  /** Sent(k): the first k messages of the script are out; Gone: closed after k, with or without a Disconnect. */
  datatype ClientIs = Fresh | Sent(k: nat) | Joined | Gone(k: nat, said: bool) | Broken

  /** Took(j): the first j messages of the script are handled; Left: closed after that. */
  datatype ServerIs = Waiting | Took(j: nat) | Left(j: nat) {
    function Count(): nat { if Waiting? then 0 else j }
  }

  /** A port that cannot be used again: still held, its region announced and never mapped. */
  predicate Stuck(p: Port) {
    p.held && p.tx == [] && p.rx == [] && |p.regions| == 1 && !p.regions[0].mapped
  }

  /** A closed server: its port is stuck exactly if the region had been announced and not yet mapped. */
  ghost predicate LeftAt(E: Env, c: Chan, j: nat) {
    && Shut(c)
    && if j == 0 then c.port.None? && c.ports == E.ports
       else
         && E.Target().Some? && c.port == E.Target() && |c.ports| == |E.ports|
         && OnlyTarget(E, c.ports)
         && var p := c.ports[E.Target().value];
         if 2 <= j < E.Last() then Stuck(p) else p.Clean()
  }

  /** No port but the one that the client's id names has changed, and that one has kept its configuration. */
  ghost predicate OnlyTarget(E: Env, ports: seq<Port>) {
    && |ports| == |E.ports|
    && forall i :: 0 <= i < |ports| ==> ports[i].cfg == E.ports[i].cfg && (E.Target() != Some(i) ==> ports[i] == E.ports[i])
  }

  /** The event hands the server a message that it takes, so that its channel stays open. */
  ghost predicate TakesOne(s: System, a: Act)
    requires Shaped(s)
  {
    a.ServerRecv? && s.server.registered && !s.server.panicked && s.toServer != [] && Step(s, a).server.registered
  }

  /** How many messages the server has taken in a run. */
  ghost function Taken(s: System, acts: seq<Act>): nat
    requires Shaped(s)
    decreases |acts|
  {
    if acts == [] then 0
    else
      var pre, a := acts[..|acts| - 1], acts[|acts| - 1];
      Taken(s, pre) + if TakesOne(Run(s, pre), a) then 1 else 0
  }

  ghost predicate ServerAt(E: Env, c: Chan, v: ServerIs) {
    match v
    case Waiting => c == Chan(E.ports, None, [], false, false, false)
    case Took(j) => j <= E.Last() && E.GoodTo(j) && c == E.ServerAfter(j)
    case Left(j) => j <= E.Last() && E.GoodTo(j) && LeftAt(E, c, j)
  }

  ghost predicate ClientAt(E: Env, s: System, u: ClientIs)
    requires |E.FullScript()| == E.Last()
  {
    match u
    case Fresh => s.client == Chan([E.cp], Some(0), [], false, true, false) && s.clientSent == []
    case Sent(k) =>
      && E.HasRegion() && E.Fits() && 1 <= k <= E.Last() && Cookies(E, s.cookies)
      && s.client == E.ClientAfter(k) && s.clientSent == E.FullScript()[..k]
    case Joined =>
      && E.HasRegion() && E.Fits() && Cookies(E, s.cookies)
      && s.client == E.ClientAfter(E.Last()).(connected := true) && s.clientSent == E.FullScript()
    case Gone(k, said) =>
      && LetGo(s.client) && k <= E.Last() && (k > 0 ==> E.HasRegion() && E.Fits() && Cookies(E, s.cookies))
      && s.clientSent == E.FullScript()[..k] + if said then [Disconnect] else []
    case Broken =>
      && E.HasRegion() && !E.Fits() && s.clientSent == []
      && s.client == Chan([E.cp], Some(0), [], false, true, true)
  }

  /** From place i on there are Disconnects, and at least one. */
  ghost predicate Notices(ms: seq<Msg>, i: nat) {
    i < |ms| && forall h :: i <= h < |ms| ==> ms[h] == Disconnect
  }

  /** How far the two have come together, and what is on its way to the client. */
  ghost predicate Between(E: Env, s: System, u: ClientIs, v: ServerIs) {
    match u
    case Fresh => if v.Waiting? then s.toClient == [] else v == Took(0) && s.toClient == [HelloMsg(SERVER_HELLO)]
    case Sent(k) =>
      (match v
       case Waiting => false
       case Took(j) => (j + 1 == k && s.toClient == []) || (j == k && k > 0 && s.toClient == [Reply(E, k - 1)])
       case Left(_) =>
         || Notices(s.toClient, 0)
         || (Notices(s.toClient, 1) && k > 0 && s.toClient[0] == Reply(E, k - 1) && E.GoodTo(k)))
    case Joined => E.Compatible() && if v.Left? then Notices(s.toClient, 0) else v == Took(E.Last()) && s.toClient == []
    case Gone(k, said) =>
      (match v
       case Waiting => k == 0 && said
       case Took(j) => j <= k && said
       case Left(_) => true)
    case Broken => v == Took(0) && s.toClient == []
  }

  ghost predicate Loose(E: Env, s: System, u: ClientIs, v: ServerIs) {
    && E.Valid() && |E.FullScript()| == E.Last() && Shaped(s)
    && ClientAt(E, s, u) && ServerAt(E, s.server, v) && Between(E, s, u, v)
    && s.accepted == !v.Waiting?
    && (v.Waiting? ==> s.toServer == s.clientSent)
    && (v.Took? ==> v.j <= |s.clientSent| && s.toServer == s.clientSent[v.j..])
  }

  lemma StartsLoose(E: Env, s: System)
    requires Initial(E, s)
    ensures Loose(E, s, Fresh, Waiting)
  {
    ScriptAt(E, 0);
  }

  // ---- closing

  lemma ServerCloses(E: Env, j: nat, send: bool)
    requires E.Valid() && j <= E.Last() && E.GoodTo(j)
    ensures E.ServerAfter(j).Valid() && LeftAt(E, Close(E.ServerAfter(j), send).0, j)
    ensures Close(E.ServerAfter(j), send).1 == (if send then [Disconnect] else [])
    ensures Close(E.ServerAfter(j), send).0.queue == []
  {
    if j > 0 {
      var c, p := E.ServerAfter(j), E.ServerPort(j);
      assert c.ports[E.Target().value] == p;
      PortLeaves(E, j, p);
    }
  }

  lemma PortLeaves(E: Env, j: nat, p: Port)
    requires E.Valid() && 0 < j <= E.Last() && E.Target().Some? && p == E.ServerPort(j)
    ensures var q := DisconnectPort(p).0; if 2 <= j < E.Last() then Stuck(q) else q.Clean()
    ensures DisconnectPort(p).1 <==> !(2 <= j < E.Last())
  {
    if j >= 2 { assert p.regions[0].mapped == (j == E.Last()); }
  }

  lemma RefusalCloses(E: Env, cookies: set<nat>, j: nat)
    requires E.Valid() && j < E.Last() && E.GoodTo(j) && !E.GoodTo(j + 1) && |E.FullScript()| == E.Last()
    ensures var r := Deliver(E.ServerAfter(j), cookies, E.FullScript()[j]);
            LeftAt(E, r.0, j) && r.1 == cookies && r.2 == [Disconnect]
  {
    ScriptAt(E, j);
    ServerCloses(E, j, true);
    assert ParseMsg(E.ServerAfter(j), cookies, E.FullScript()[j]) == Failed(E.ServerAfter(j));
  }

  /** A Disconnect message closes a server; a port that cannot be cleaned up makes it answer with another. */
  lemma DisconnectCloses(E: Env, cookies: set<nat>, j: nat)
    requires E.Valid() && j <= E.Last() && E.GoodTo(j)
    ensures var r := Deliver(E.ServerAfter(j), cookies, Disconnect);
            LeftAt(E, r.0, j) && r.1 == cookies && (r.2 == [] || r.2 == [Disconnect])
  {
    ServerCloses(E, j, false);
    var d := Close(E.ServerAfter(j), false);
    assert d.2 ==> ParseMsg(E.ServerAfter(j), cookies, Disconnect) == Done(d.0, cookies);
    assert !d.2 ==> ParseMsg(E.ServerAfter(j), cookies, Disconnect) == Failed(d.0);
  }

  lemma ClientCloses(E: Env, c: Chan, send: bool)
    requires E.Valid() && c.Valid() && c.port == Some(0) && c.registered && !c.panicked
    requires c.ports == [E.cp] || c.ports == [E.ClientPort()]
    ensures var r := Close(c, send); LetGo(r.0) && r.2 && r.1 == (if send then [Disconnect] else [])
    ensures Close(c, send).0.queue == if send then [] else c.queue
  {
  }

  // ---- the steps

  lemma AcceptLoose(E: Env, s: System, u: ClientIs, v: ServerIs)
    requires Loose(E, s, u, v) && v.Waiting?
    ensures Loose(E, Step(s, Accept), u, Took(0))
  {
  }

  lemma HelloLoose(E: Env, s: System, u: ClientIs, v: ServerIs) returns (u': ClientIs)
    requires Loose(E, s, u, v) && u.Fresh? && v == Took(0)
    ensures Loose(E, Step(s, ClientRecv), u', v)
  {
    if E.HasRegion() && E.Fits() {
      HelloDelivered(E, s.cookies);
      assert E.FullScript()[..1] == [E.FullScript()[0]];
      u' := Sent(1);
    } else {
      HelloFails(E, s.cookies);
      assert E.FullScript()[..0] == [];
      u' := if E.HasRegion() then Broken else Gone(0, true);
    }
  }

  lemma AckIs(E: Env, s: System, k: nat, s': System)
    requires E.Valid() && |E.FullScript()| == E.Last() && Shaped(s) && k < E.Last() && s.client == E.ClientAfter(k)
    requires s.toClient != [] && s.toClient[0] == Ack && s.clientSent == E.FullScript()[..k]
    requires s' == s.(client := E.ClientAfter(k + 1), toClient := s.toClient[1..],
                      toServer := s.toServer + [E.FullScript()[k]], clientSent := E.FullScript()[..k + 1])
    ensures Step(s, ClientRecv) == s'
  {
    AckDelivered(E, s.cookies, k);
    assert E.FullScript()[..k + 1] == E.FullScript()[..k] + [E.FullScript()[k]];
  }

  lemma AckLoose(E: Env, s: System, k: nat, v: ServerIs)
    requires Loose(E, s, Sent(k), v) && s.toClient != [] && s.toClient[0] == Reply(E, k - 1) && k < E.Last()
    ensures Loose(E, Step(s, ClientRecv), Sent(k + 1), v)
  {
    var s' := s.(client := E.ClientAfter(k + 1), toClient := s.toClient[1..],
                 toServer := s.toServer + [E.FullScript()[k]], clientSent := E.FullScript()[..k + 1]);
    AckIs(E, s, k, s');
    assert E.FullScript()[..k + 1] == E.FullScript()[..k] + [E.FullScript()[k]];
  }

  lemma ConnectedLoose(E: Env, s: System, k: nat, v: ServerIs)
    requires Loose(E, s, Sent(k), v) && s.toClient != [] && s.toClient[0] == Reply(E, k - 1) && k == E.Last()
    ensures Loose(E, Step(s, ClientRecv), Joined, v)
  {
    ConnectedDelivered(E, s.cookies);
    assert E.FullScript()[..k] == E.FullScript();
  }

  lemma ReplyLoose(E: Env, s: System, k: nat, v: ServerIs) returns (u': ClientIs)
    requires Loose(E, s, Sent(k), v) && s.toClient != [] && s.toClient[0] == Reply(E, k - 1)
    ensures Loose(E, Step(s, ClientRecv), u', v)
  {
    if k < E.Last() {
      AckLoose(E, s, k, v);
      u' := Sent(k + 1);
    } else {
      ConnectedLoose(E, s, k, v);
      u' := Joined;
    }
  }

  /** A client that is told to disconnect closes, and still sends what is next in its queue. */
  lemma ToldIs(E: Env, s: System, d: Chan)
    requires E.Valid() && Shaped(s) && s.client.registered && !s.client.panicked && s.client.port == Some(0)
    requires s.client.ports == [E.cp] || s.client.ports == [E.ClientPort()]
    requires s.toClient != [] && s.toClient[0] == Disconnect && d == Close(s.client, false).0
    ensures var q := s.client.queue;
            var out := if q == [] then [] else [q[0]];
            LetGo(d) && d.queue == q &&
            Step(s, ClientRecv) == s.(client := if q == [] then d else d.(queue := q[1..]), toClient := s.toClient[1..],
                                      toServer := s.toServer + out, clientSent := s.clientSent + out)
  {
    ClientCloses(E, s.client, false);
    assert ParseMsg(s.client, s.cookies, Disconnect) == Done(d, s.cookies);
  }

  lemma ToldMore(E: Env, s: System, k: nat, v: ServerIs)
    requires Loose(E, s, Sent(k), v) && v.Left? && s.toClient != [] && s.toClient[0] == Disconnect && k < E.Last()
    ensures Loose(E, Step(s, ClientRecv), Gone(k + 1, false), v)
  {
    var S := E.FullScript();
    ToldIs(E, s, Close(s.client, false).0);
    assert S[..k + 1] == S[..k] + [S[k]] && S[k..][0] == S[k];
  }

  lemma ToldLast(E: Env, s: System, u: ClientIs, v: ServerIs)
    requires Loose(E, s, u, v) && v.Left? && s.toClient != [] && s.toClient[0] == Disconnect
    requires u == Sent(E.Last()) || u == Joined
    ensures Loose(E, Step(s, ClientRecv), Gone(E.Last(), false), v)
  {
    var S := E.FullScript();
    ToldIs(E, s, Close(s.client, false).0);
    assert S[..E.Last()] == S && S[E.Last()..] == [];
  }

  lemma ToldLoose(E: Env, s: System, k: nat, u: ClientIs, v: ServerIs) returns (u': ClientIs)
    requires Loose(E, s, u, v) && v.Left? && s.toClient != [] && s.toClient[0] == Disconnect
    requires u == Sent(k) || (u == Joined && k == E.Last())
    ensures Loose(E, Step(s, ClientRecv), u', v)
  {
    if k < E.Last() {
      ToldMore(E, s, k, v);
      u' := Gone(k + 1, false);
    } else {
      ToldLast(E, s, u, v);
      u' := Gone(k, false);
    }
  }

  lemma ClientRecvLoose(E: Env, s: System, u: ClientIs, v: ServerIs) returns (u': ClientIs)
    requires Loose(E, s, u, v)
    ensures Loose(E, Step(s, ClientRecv), u', v)
  {
    u' := u;
    if s.client.registered && !s.client.panicked && s.toClient != [] {
      match u
      case Fresh => u' := HelloLoose(E, s, u, v);
      case Sent(k) => if v.Left? && s.toClient[0] == Disconnect { u' := ToldLoose(E, s, k, u, v); }
                      else { u' := ReplyLoose(E, s, k, v); }
      case Joined => u' := ToldLoose(E, s, E.Last(), u, v);
      case _ =>
    }
  }

  lemma TakeLoose(E: Env, s: System, u: ClientIs, j: nat) returns (v': ServerIs)
    requires Loose(E, s, u, Took(j)) && j < E.Last() && s.toServer != [] && s.toServer[0] == E.FullScript()[j]
    requires Cookies(E, s.cookies) && (u.Sent? ==> j + 1 == u.k) && (u.Gone? ==> j + 1 <= u.k) && (u.Sent? || u.Gone?)
    ensures Loose(E, Step(s, ServerRecv), u, v')
    ensures v' == if Step(s, ServerRecv).server.registered then Took(j + 1) else Left(j)
  {
    if E.GoodTo(j + 1) {
      ServerAccepts(E, s.cookies, j);
      v' := Took(j + 1);
    } else {
      RefusalCloses(E, s.cookies, j);
      v' := Left(j);
    }
  }

  lemma LeaveLoose(E: Env, s: System, k: nat)
    requires Loose(E, s, Gone(k, true), Took(k)) && s.toServer != []
    ensures Loose(E, Step(s, ServerRecv), Gone(k, true), Left(k))
  {
    assert s.toServer[0] == Disconnect;
    DisconnectCloses(E, s.cookies, k);
  }

  lemma NextForServer(E: Env, s: System, u: ClientIs, j: nat)
    requires Loose(E, s, u, Took(j)) && s.toServer != []
    ensures (u.Sent? || u.Gone?) && j <= u.k
    ensures j < u.k ==> j < E.Last() && s.toServer[0] == E.FullScript()[j] && Cookies(E, s.cookies) && (u.Sent? ==> j + 1 == u.k)
    ensures j == u.k ==> u == Gone(j, true)
  {
    assert s.toServer[0] == s.clientSent[j];
  }

  lemma ServerRecvLoose(E: Env, s: System, u: ClientIs, v: ServerIs) returns (v': ServerIs)
    requires Loose(E, s, u, v)
    ensures Loose(E, Step(s, ServerRecv), u, v') && (v.Left? ==> v'.Left?)
    ensures v'.Count() == v.Count() + if TakesOne(s, ServerRecv) then 1 else 0
  {
    v' := v;
    if v.Took? && s.toServer != [] {
      NextForServer(E, s, u, v.j);
      if v.j < u.k { v' := TakeLoose(E, s, u, v.j); } else { LeaveLoose(E, s, v.j); v' := Left(v.j); }
    }
  }

  lemma CallIs(s: System)
    requires Shaped(s) && Held(s.client) && !s.client.panicked
    ensures var r := Close(s.client, true);
            Step(s, ClientCalls) == s.(client := r.0, toServer := s.toServer + r.1, clientSent := s.clientSent + r.1)
  {
  }

  lemma CallLoose(E: Env, s: System, u: ClientIs, v: ServerIs, k: nat)
    requires Loose(E, s, u, v) && !u.Gone? && !u.Broken?
    requires k == match u case Sent(k) => k case Joined => E.Last() case _ => 0
    ensures Loose(E, Step(s, ClientCalls), Gone(k, true), v)
  {
    ClientCloses(E, s.client, true);
    CallIs(s);
    assert E.FullScript()[..E.Last()] == E.FullScript();
  }

  lemma ClientCallsLoose(E: Env, s: System, u: ClientIs, v: ServerIs) returns (u': ClientIs)
    requires Loose(E, s, u, v)
    ensures Loose(E, Step(s, ClientCalls), u', v)
    ensures u'.Gone? || u'.Broken?
  {
    u' := u;
    if !u.Gone? && !u.Broken? {
      var k := match u case Sent(k) => k case Joined => E.Last() case _ => 0;
      CallLoose(E, s, u, v, k);
      u' := Gone(k, true);
    }
  }

  lemma ServerCallsLoose(E: Env, s: System, u: ClientIs, v: ServerIs) returns (v': ServerIs)
    requires Loose(E, s, u, v)
    ensures Loose(E, Step(s, ServerCalls), u, v')
    ensures Held(s.server) || v.Left? ==> v'.Left?
    ensures v'.Count() == v.Count()
  {
    v' := v;
    if Held(s.server) && v.Took? {
      ServerCloses(E, v.j, true);
      v' := Left(v.j);
    }
  }

  lemma LooseStep(E: Env, s: System, u: ClientIs, v: ServerIs, a: Act) returns (u': ClientIs, v': ServerIs)
    requires Loose(E, s, u, v)
    ensures Loose(E, Step(s, a), u', v')
    ensures u.Gone? || a.ClientCalls? ==> u'.Gone? || u'.Broken?
    ensures v.Left? || (a.ServerCalls? && Held(s.server)) ==> v'.Left?
    ensures v'.Count() == v.Count() + if TakesOne(s, a) then 1 else 0
  {
    u', v' := u, v;
    match a
    case Accept => if v.Waiting? { AcceptLoose(E, s, u, v); v' := Took(0); }
    case ClientRecv => u' := ClientRecvLoose(E, s, u, v);
    case ServerRecv => v' := ServerRecvLoose(E, s, u, v);
    case ClientCalls => u' := ClientCallsLoose(E, s, u, v);
    case ServerCalls => v' := ServerCallsLoose(E, s, u, v);
  }

  /** The server's application has called Disconnect on a port that a channel held. */
  ghost predicate ServerCalled(s: System, acts: seq<Act>)
    requires Shaped(s)
    decreases |acts|
  {
    acts != [] &&
    var pre, a := acts[..|acts| - 1], acts[|acts| - 1];
    ServerCalled(s, pre) || (a.ServerCalls? && Held(Run(s, pre).server))
  }

  lemma LastOf(acts: seq<Act>, a: Act)
    requires acts != []
    ensures a in acts ==> a in acts[..|acts| - 1] || a == acts[|acts| - 1]
  {
  }

  lemma {:induction false} LooseRun(E: Env, s: System, acts: seq<Act>) returns (u: ClientIs, v: ServerIs)
    requires Initial(E, s)
    ensures Loose(E, Run(s, acts), u, v)
    ensures ClientCalls in acts ==> u.Gone? || u.Broken?
    ensures ServerCalled(s, acts) ==> v.Left?
    ensures v.Count() == Taken(s, acts)
    decreases |acts|
  {
    if acts == [] {
      StartsLoose(E, s);
      u, v := Fresh, Waiting;
    } else {
      var pre, a := acts[..|acts| - 1], acts[|acts| - 1];
      var u0, v0 := LooseRun(E, s, pre);
      u, v := LooseStep(E, Run(s, pre), u0, v0, a);
      LastOf(acts, ClientCalls);
    }
  }

  // ---- the theorems

  /** What holds of both ends at any time, whatever has been called. */
  ghost predicate Orderly(E: Env, s: System) {
    && !s.server.panicked && (s.client.panicked ==> E.HasRegion() && !E.Fits())
    && s.client.port == Some(0) && 0 < |s.client.ports| && (!s.client.registered ==> s.client.ports[0].Clean())
    && (s.server.IsConnected() ==> E.Sound() && E.FullScript() <= s.clientSent)
    && (s.client.IsConnected() ==> E.Sound() && (s.server.IsConnected() || Disconnect in s.toClient))
  }

  lemma LooseIsOrderly(E: Env, s: System, u: ClientIs, v: ServerIs)
    requires Loose(E, s, u, v)
    ensures Orderly(E, s)
  {
    if v == Took(E.Last()) { assert s.server.ports[E.Target().value] == E.ServerPort(E.Last()); }
    if u.Joined? && v.Left? { assert s.toClient[0] == Disconnect; }
    if s.server.IsConnected() { ConnectedServer(E, s, u, v); }
  }

  lemma ConnectedServer(E: Env, s: System, u: ClientIs, v: ServerIs)
    requires Loose(E, s, u, v) && s.server.IsConnected()
    ensures v == Took(E.Last()) && E.Sound() && E.FullScript() <= s.clientSent
  {
    assert E.FullScript()[..E.Last()] == E.FullScript();
  }

  /**
   Disconnect calls at any time, by either end, in every run: the server never crashes, the client only on a
   region too small for its rings, a closed client's port is always free again, the server is connected only
   after the whole script, and a connected client faces a connected server or has notice of its end.
   */
  lemma AnyRunIsOrderly(E: Env, s: System, acts: seq<Act>)
    requires Initial(E, s)
    ensures Orderly(E, Run(s, acts))
  {
    var u, v := LooseRun(E, s, acts);
    LooseIsOrderly(E, Run(s, acts), u, v);
  }

  /** In no run does anything that this client does change another port of the server's socket. */
  lemma OtherPortsUntouched(E: Env, s: System, acts: seq<Act>)
    requires Initial(E, s)
    ensures OnlyTarget(E, Run(s, acts).server.ports)
  {
    var u, v := LooseRun(E, s, acts);
  }

  /** The port the channel is bound to cannot be used again. */
  predicate HasStuck(c: Chan)
    requires c.Valid()
  {
    c.port.Some? && Stuck(c.ports[c.port.value])
  }

  /**
   A server that has closed, in any run: its port is left held with a region that was never mapped exactly
   if it had taken AddRegion and not Connect; otherwise it had no port, or the port is free again.
   */
  lemma ClosedServer(E: Env, s: System, acts: seq<Act>)
    requires Initial(E, s) && Run(s, acts).accepted && !Run(s, acts).server.registered
    ensures var j := Taken(s, acts); j <= E.Last() && E.GoodTo(j) && LeftAt(E, Run(s, acts).server, j)
    ensures HasStuck(Run(s, acts).server) <==> 2 <= Taken(s, acts) < E.Last()
  {
    var u, v := LooseRun(E, s, acts);
  }

  /** A region has been announced to the channel's port and the two are not connected. */
  predicate HalfWay(c: Chan)
    requires c.Valid()
  {
    c.port.Some? && c.ports[c.port.value].regions != [] && !c.connected
  }

  lemma StageOf(E: Env, j: nat)
    requires E.Valid() && j <= E.Last() && E.GoodTo(j)
    ensures E.ServerAfter(j).Valid() && (HalfWay(E.ServerAfter(j)) <==> 2 <= j < E.Last())
  {
    if j > 0 { assert E.ServerAfter(j).ports[E.Target().value] == E.ServerPort(j); }
  }

  /**
   The step that closes the server, whatever it is and whenever it comes, leaves its port stuck exactly if
   just before it a region had been announced and the two were not connected.
   */
  lemma ClosingStep(E: Env, s: System, acts: seq<Act>, a: Act)
    requires Initial(E, s) && Run(s, acts).server.registered && !Step(Run(s, acts), a).server.registered
    ensures HasStuck(Step(Run(s, acts), a).server) <==> HalfWay(Run(s, acts).server)
    ensures var c := Step(Run(s, acts), a).server; HasStuck(c) || c.port.None? || c.ports[c.port.value].Clean()
  {
    var t := Run(s, acts);
    var u, v := LooseRun(E, s, acts);
    var u', v' := LooseStep(E, t, u, v, a);
    StageOf(E, v.j);
  }

  /** A closed server's ports never change again, and no later Init finds a stuck one. */
  lemma {:induction false} StuckForGood(s: System, acts: seq<Act>)
    requires Shaped(s) && s.accepted && !s.server.registered
    ensures var c := Run(s, acts).server; c.ports == s.server.ports && c.port == s.server.port && !c.registered
    ensures HasStuck(s.server) ==>
              HasStuck(Run(s, acts).server) && forall id :: FindPort(Run(s, acts).server.ports, id) != s.server.port
    ensures Run(s, acts).accepted
    decreases |acts|
  {
    if acts != [] { StuckForGood(s, acts[..|acts| - 1]); }
  }

  ghost predicate BothConnected(s: System) { s.client.IsConnected() && s.server.IsConnected() }

  ghost predicate BothClosed(s: System) {
    !s.client.registered && !s.server.registered && !s.client.IsConnected() && !s.server.IsConnected()
  }

  lemma SettledEnds(E: Env, s: System, u: ClientIs, v: ServerIs)
    requires Loose(E, s, u, v) && !u.Broken?
    ensures Settled(s) ==> if u.Joined? then BothConnected(s) else u.Gone? && BothClosed(s)
  {
    match u
    case Fresh =>
      if v.Waiting? { assert Step(s, Accept).accepted != s.accepted; }
      else { assert Step(s, ClientRecv).toClient == s.toClient[1..]; }
    case Sent(k) =>
      if s.toClient != [] { assert Step(s, ClientRecv).toClient == s.toClient[1..]; }
      else { assert Step(s, ServerRecv).toServer == s.toServer[1..]; }
    case Joined =>
      if v.Left? { assert Step(s, ClientRecv).toClient == s.toClient[1..]; }
      else { assert s.server.ports[E.Target().value] == E.ServerPort(E.Last()); }
    case Gone(k, said) =>
      if v.Waiting? { assert Step(s, Accept).accepted != s.accepted; }
      else if v.Took? { assert Step(s, ServerRecv).toServer == s.toServer[1..]; }
  }

  /**
   When nothing is left to handle and the client has not crashed, both ends are connected or both are closed;
   and both are closed if the client's application has called Disconnect at any time, or the server's on a
   port that was held.
   */
  lemma EndsTogether(E: Env, s: System, acts: seq<Act>)
    requires Initial(E, s) && Settled(Run(s, acts)) && !Run(s, acts).client.panicked
    ensures BothConnected(Run(s, acts)) || BothClosed(Run(s, acts))
    ensures ClientCalls in acts || ServerCalled(s, acts) ==> BothClosed(Run(s, acts))
  {
    var u, v := LooseRun(E, s, acts);
    SettledEnds(E, Run(s, acts), u, v);
  }
}
