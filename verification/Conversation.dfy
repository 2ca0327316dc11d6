/** Two channel objects and the socket between them: what a series of events and calls amounts to. */
module Conversation {
  import opened Control
  import opened ControlChannel
  import opened Handshake
  import opened Interrupted

  /** What lies between the two ends: the listener's event, both directions of the socket, the marked ring headers. */
  datatype Wire = Wire(accepted: bool, toClient: seq<Msg>, toServer: seq<Msg>, cookies: set<nat>, clientSent: seq<Msg>)

  function Both(client: Chan, server: Chan, w: Wire): System {
    System(client, server, w.accepted, w.toClient, w.toServer, w.cookies, w.clientSent)
  }

  /** One event or call on the objects. */
  method Perform(client: Channel, server: Channel, w: Wire, a: Act) returns (w': Wire)
    requires client != server && client.Valid() && server.Valid()
    modifies client, server
    ensures client.Valid() && server.Valid()
    ensures Both(client.View(), server.View(), w') == Step(Both(old(client.View()), old(server.View()), w), a)
  {
    w' := w;
    match a
    case Accept =>
      if !w.accepted {
        server.registered := true;
        w' := w.(accepted := true, toClient := w.toClient + [HelloMsg(SERVER_HELLO)]);
      }
    case ClientRecv =>
      if client.registered && !client.panicked && w.toClient != [] {
        var sent, cookies := client.HandleEvent(w.toClient[0], w.cookies);
        w' := w.(cookies := cookies, toClient := w.toClient[1..], toServer := w.toServer + sent,
                 clientSent := w.clientSent + sent);
      }
    case ServerRecv =>
      if server.registered && !server.panicked && w.toServer != [] {
        var sent, cookies := server.HandleEvent(w.toServer[0], w.cookies);
        w' := w.(cookies := cookies, toServer := w.toServer[1..], toClient := w.toClient + sent);
      }
    case ClientCalls =>
      if Held(client.View()) && !client.panicked {
        var sent, ok := client.CloseChannel(true);
        w' := w.(toServer := w.toServer + sent, clientSent := w.clientSent + sent);
      }
    case ServerCalls =>
      if Held(server.View()) && !server.panicked {
        var sent, ok := server.CloseChannel(true);
        w' := w.(toClient := w.toClient + sent);
      }
  }

  /**
   Any series of events and Disconnect calls on a client's and a server's channel: both objects stay
   orderly, and a handshake that was left alone and has nothing more to handle has the outcome that
   the two configurations determine.
   */
  method Play(client: Channel, server: Channel, acts: seq<Act>, ghost E: Env) returns (w: Wire)
    requires client != server && E.Valid()
    requires client.View() == Chan([E.cp], Some(0), [], false, true, false)
    requires server.View() == Chan(E.ports, None, [], false, false, false)
    modifies client, server
    ensures client.Valid() && server.Valid()
    ensures Both(client.View(), server.View(), w) ==
            Run(Both(old(client.View()), old(server.View()), Wire(false, [], [], {}, [])), acts)
    ensures Orderly(E, Both(client.View(), server.View(), w))
    ensures (forall i :: 0 <= i < |acts| ==> Handshaking(acts[i])) && Settled(Both(client.View(), server.View(), w)) ==>
              Outcome(E, Both(client.View(), server.View(), w))
  {
    w := Wire(false, [], [], {}, []);
    ghost var s := Both(client.View(), server.View(), w);
    for i := 0 to |acts|
      invariant client.Valid() && server.Valid()
      invariant Both(client.View(), server.View(), w) == Run(s, acts[..i])
    {
      w := Perform(client, server, w, acts[i]);
      assert acts[..i + 1][..i] == acts[..i];
    }
    assert acts[..|acts|] == acts;
    AnyRunIsOrderly(E, s, acts);
    if (forall i :: 0 <= i < |acts| ==> Handshaking(acts[i])) && Settled(Run(s, acts)) {
      ConnectsIffCompatible(E, s, acts);
    }
  }
}
