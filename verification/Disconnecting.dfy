/** Disconnect calls and Disconnect messages, in any order, after both ends are connected. */
module Disconnecting {
  import opened Control
  import opened Handshake

  ghost predicate Up(c: Chan) {
    && c.Valid() && c.registered && !c.panicked && c.connected && c.queue == []
    && c.port.Some? && c.ports[c.port.value].held && c.ports[c.port.value].AllMapped()
  }

  /** No control channel, no queues, no regions, and no events any more. */
  ghost predicate Down(c: Chan) {
    c.Valid() && !c.registered && c.port.Some? && c.ports[c.port.value].Clean()
  }

  ghost predicate OnlyDisconnects(ms: seq<Msg>) { forall i :: 0 <= i < |ms| ==> ms[i] == Disconnect }

  /** Each end is up or down; an end that is up is owed a notice as soon as the other is down. */
  ghost predicate Parting(s: System) {
    && (Up(s.client) || Down(s.client)) && (Up(s.server) || Down(s.server)) && s.accepted
    && OnlyDisconnects(s.toClient) && OnlyDisconnects(s.toServer)
    && (Up(s.client) ==> (s.toClient == [] <==> Up(s.server)))
    && (Up(s.server) ==> (s.toServer == [] <==> Up(s.client)))
  }

  /** close cleans a port up exactly when all its regions are mapped. */
  lemma CloseCleansIff(c: Chan, send: bool)
    requires c.Valid() && c.registered && Held(c)
    ensures var r := Close(c, send).0;
            r.port == c.port && !r.registered && (r.ports[c.port.value].Clean() <==> c.ports[c.port.value].AllMapped())
  {
  }

  /** A Disconnect call, and the receipt of a Disconnect, take an end down. */
  lemma GoesDown(c: Chan, cookies: set<nat>)
    requires Up(c)
    ensures Down(Close(c, true).0) && Close(c, true).1 == [Disconnect]
    ensures Down(Deliver(c, cookies, Disconnect).0) && Deliver(c, cookies, Disconnect).1 == cookies
    ensures Deliver(c, cookies, Disconnect).2 == []
  {
    CloseCleansIff(c, true);
    CloseCleansIff(c, false);
  }

  lemma PartingStep(s: System, a: Act)
    requires Parting(s)
    ensures Parting(Step(s, a))
    ensures a.ClientCalls? ==> Down(Step(s, a).client)
    ensures a.ServerCalls? ==> Down(Step(s, a).server)
    ensures Down(s.client) ==> Step(s, a).client == s.client
    ensures Down(s.server) ==> Step(s, a).server == s.server
  {
    if Up(s.client) { GoesDown(s.client, s.cookies); }
    if Up(s.server) { GoesDown(s.server, s.cookies); }
  }

  /** Whatever the two applications call and whatever is delivered when: who called is down. */
  lemma {:induction false} DisconnectRun(s: System, acts: seq<Act>)
    requires Parting(s)
    ensures Parting(Run(s, acts))
    ensures Down(s.client) || ClientCalls in acts ==> Down(Run(s, acts).client)
    ensures Down(s.server) || ServerCalls in acts ==> Down(Run(s, acts).server)
    decreases |acts|
  {
    if acts != [] {
      var pre, a := acts[..|acts| - 1], acts[|acts| - 1];
      DisconnectRun(s, pre);
      PartingStep(Run(s, pre), a);
      assert acts == pre + [a];
    }
  }

  /** And once nothing is left to deliver, one call by either end has taken both down. */
  lemma BothDownInTheEnd(s: System, acts: seq<Act>)
    requires Parting(s) && (ClientCalls in acts || ServerCalls in acts) && Settled(Run(s, acts))
    ensures Down(Run(s, acts).client) && Down(Run(s, acts).server)
  {
    DisconnectRun(s, acts);
    SettledIsEven(Run(s, acts));
  }

  lemma SettledIsEven(s: System)
    requires Parting(s)
    ensures Settled(s) ==> (Down(s.client) <==> Down(s.server))
  {
    if Up(s.client) && Down(s.server) {
      assert s.toClient[0] == Disconnect;
      GoesDown(s.client, s.cookies);
      assert Step(s, ClientRecv).client != s.client;
    } else if Up(s.server) && Down(s.client) {
      assert s.toServer[0] == Disconnect;
      GoesDown(s.server, s.cookies);
      assert Step(s, ServerRecv).server != s.server;
    }
  }

  /** A finished handshake is where this starts. */
  lemma LinkedIsParting(E: Env, s: System, acts: seq<Act>)
    requires Initial(E, s) && forall i :: 0 <= i < |acts| ==> Handshaking(acts[i])
    requires Run(s, acts).client.IsConnected()
    ensures Parting(Run(s, acts)) && Up(Run(s, acts).client) && Up(Run(s, acts).server)
  {
    var ph := RunPhase(E, s, acts);
    ConnectedPhase(E, Run(s, acts), ph);
    ScriptParts(E);
  }
}
