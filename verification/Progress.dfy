/** A write or a read left alone comes to its end, and what it has done by then. */
module Progress {
  import opened Bytes
  import opened Capacity
  import opened DataPath
  import opened FirstCalls
  import opened Refinement
  import opened RingMemory
  import A = RingProtocol
  import C = RingSteps

  // ---- the writer

  function WriteRank(w: A.Writer): nat {
    match w
    case WIdle => 0
    case WGet(j) => 3 * j.left + 4
    case WCopy(j, _) => 3 * j.left + 3
    case WPut(j, _) => 3 * j.left + 2
    case WPub(_) => 1
  }

  /** t is inside the write of pkt that began at s. */
  ghost predicate Underway(s: A.State, t: A.State, pkt: A.Packet, rooms: seq<nat>) {
    !t.w.WIdle? && t == s.(cells := t.cells, w := t.w) && t.w.job.sent.pkt == pkt && t.w.job.sent.rooms == rooms
  }

  /** t is after it, and x is its record. */
  ghost predicate Sent(s: A.State, t: A.State, pkt: A.Packet, rooms: seq<nat>, x: A.Sent, ok: bool) {
    && t.w.WIdle? && x.pkt == pkt && x.rooms == rooms
    && t == s.(cells := t.cells, pub := t.pub, w := t.w, accepted := s.accepted + (if ok then [x] else []),
               rejected := s.rejected + if ok then [] else [x])
  }

  ghost predicate Over(s: A.State, t: A.State, pkt: A.Packet, rooms: seq<nat>) {
    exists x, ok :: Sent(s, t, pkt, rooms, x, ok)
  }

  lemma UnderwayStep(P: A.Params, s: A.State, t: A.State, pkt: A.Packet, rooms: seq<nat>, t': A.State)
    requires A.Shaped(P, t) && Underway(s, t, pkt, rooms) && t' == A.WriteStep(P, t)
    ensures Over(s, t', pkt, rooms) || (Underway(s, t', pkt, rooms) && WriteRank(t'.w) < WriteRank(t.w))
  {
    match t.w
    case WPub(j) => assert Sent(s, t', pkt, rooms, j.sent, true);
    case WPut(j, room) =>
      var x := j.sent.(chunks := j.sent.chunks + [A.Piece(P, j.sent, room)]);
      if A.Total(x.chunks) < |x.pkt| && j.left <= 1 { assert Sent(s, t', pkt, rooms, x, false); }
    case _ =>
  }

  lemma OverStays(P: A.Params, s: A.State, t: A.State, pkt: A.Packet, rooms: seq<nat>)
    requires A.Shaped(P, t) && Over(s, t, pkt, rooms)
    ensures A.WriteStep(P, t) == t
  {
  }

  lemma {:induction false} WriteEnds(P: A.Params, s: A.State, s1: A.State, pkt: A.Packet, rooms: seq<nat>, n: nat, t: A.State)
    requires A.Shaped(P, s1) && Underway(s, s1, pkt, rooms) && t == A.Run(P, s1, A.Times(A.StepWrite, n))
    ensures Over(s, t, pkt, rooms) || (Underway(s, t, pkt, rooms) && WriteRank(t.w) + n <= WriteRank(s1.w))
    decreases n
  {
    if n > 0 {
      var u := A.Run(P, s1, A.Times(A.StepWrite, n - 1));
      WriteEnds(P, s, s1, pkt, rooms, n - 1, u);
      RunOne(P, s1, A.Times(A.StepWrite, n - 1), A.StepWrite);
      if Over(s, u, pkt, rooms) { OverStays(P, s, u, pkt, rooms); } else { UnderwayStep(P, s, u, pkt, rooms, t); }
    }
  }

  function WriteActs(pkt: A.Packet, n: nat): seq<A.Action> { [A.StartWrite(pkt)] + A.Times(A.StepWrite, 3 * n + 4) }

  lemma AfterFirst(P: A.Params, s: A.State, a: A.Action, acts: seq<A.Action>)
    requires A.Shaped(P, s)
    ensures A.Run(P, s, [a] + acts) == A.Run(P, A.Step(P, s, a), acts)
  {
    assert A.Run(P, s, []) == s && [] + [a] == [a];
    RunOne(P, s, [], a);
    A.RunAppend(P, s, [a], acts);
  }

  lemma StartUnderway(P: A.Params, s: A.State, pkt: A.Packet, s1: A.State)
    requires A.Shaped(P, s) && s.w.WIdle? && s.pub < s.lim && s1 == A.Step(P, s, A.StartWrite(pkt))
    ensures Underway(s, s1, pkt, Rooms(P, s)) && WriteRank(s1.w) == 3 * (s.lim - s.pub) + 4
  {
    FirstCalls.StartWriteIs(P, s, pkt, A.Job(s.pub, s.lim - s.pub, A.Sent(pkt, [], Rooms(P, s))));
  }

  lemma WriteIsOver(P: A.Params, s: A.State, pkt: A.Packet, t: A.State)
    requires A.Shaped(P, s) && s.w.WIdle? && s.pub < s.lim && t == A.Run(P, s, WriteActs(pkt, s.lim - s.pub))
    ensures Over(s, t, pkt, Rooms(P, s))
  {
    var s1, n := A.Step(P, s, A.StartWrite(pkt)), 3 * (s.lim - s.pub) + 4;
    AfterFirst(P, s, A.StartWrite(pkt), A.Times(A.StepWrite, n));
    StartUnderway(P, s, pkt, s1);
    WriteEnds(P, s, s1, pkt, Rooms(P, s), n, t);
  }

  /** A write for which the free slots suffice is accepted, and changes nothing else that counts. */
  lemma WriteSucceeds(P: A.Params, s: A.State, pkt: A.Packet, t: A.State) returns (x: A.Sent)
    requires Offered(P, s) && s.w.WIdle? && Suffices(Rooms(P, s), |pkt|) && t == A.Run(P, s, WriteActs(pkt, s.lim - s.pub))
    ensures Offered(P, t) && Sent(s, t, pkt, Rooms(P, s), x, true) && Even(P, x) && A.SentOk(P, x)
  {
    WriteIsOver(P, s, pkt, t);
    RunKeepsOffered(P, s, WriteActs(pkt, s.lim - s.pub));
    var y, ok :| Sent(s, t, pkt, Rooms(P, s), y, ok);
    x := y;
    Recorded(P, s, t, pkt, x, ok);
  }

  lemma Recorded(P: A.Params, s: A.State, t: A.State, pkt: A.Packet, x: A.Sent, ok: bool)
    requires A.Shaped(P, s) && s.pub <= s.lim && A.HistoryOk(P, t) && AllEven(P, t)
    requires Sent(s, t, pkt, Rooms(P, s), x, ok) && Suffices(Rooms(P, s), |pkt|)
    ensures ok && Even(P, x) && A.SentOk(P, x)
  {
    if ok {
      assert t.accepted[|s.accepted|] == x;
    } else {
      assert t.rejected[|s.rejected|] == x;
      RejectedFallsShort(P, x);
    }
  }

  // ---- the reader

  function ReadRank(P: A.Params, r: A.Reader): nat {
    match r
    case RIdle(_) => 0
    case RShort(_) => 0
    case RRefill(last, head) => if head < last + P.size then last + P.size - head + 1 else 1
    case RGet(_, _, left, _, _) => 2 * left + P.size + 3
    case RCopy(_, _, left, _, _, _, _) => 2 * left + P.size + 2
  }

  /** t is in or after a read that began at s with something to read. */
  ghost predicate Fetching(s: A.State, t: A.State) {
    && t.w == s.w && t.accepted == s.accepted && t.rejected == s.rejected
    && |t.delivered| == |s.delivered| + if t.r.RGet? || t.r.RCopy? then 0 else 1
  }

  lemma FetchStep(P: A.Params, s: A.State, t: A.State, t': A.State)
    requires A.Shaped(P, t) && Fetching(s, t) && t' == A.ReadStep(P, t) && A.Placed(P, t')
    requires !t'.r.RShort? && !t'.incomplete && !t.r.RShort?
    ensures Fetching(s, t') && (t.r.RIdle? || ReadRank(P, t'.r) < ReadRank(P, t.r))
  {
  }

  lemma {:induction false} ReadEnds(P: A.Params, s: A.State, s1: A.State, n: nat, t: A.State)
    requires A.Inv(P, s1) && Roomy(P, s1) && Fetching(s, s1) && t == A.Run(P, s1, A.Times(A.StepRead, n))
    ensures A.Inv(P, t) && Roomy(P, t) && Fetching(s, t) && (t.r.RIdle? || ReadRank(P, t.r) + n <= ReadRank(P, s1.r))
    decreases n
  {
    RunKeepsRoomy(P, s1, A.Times(A.StepRead, n));
    A.RunKeepsInv(P, s1, A.Times(A.StepRead, n));
    A.InvPlaced(P, t);
    if n > 0 {
      var u := A.Run(P, s1, A.Times(A.StepRead, n - 1));
      ReadEnds(P, s, s1, n - 1, u);
      RunOne(P, s1, A.Times(A.StepRead, n - 1), A.StepRead);
      FetchStep(P, s, u, t);
    }
  }

  function ReadActs(P: A.Params, space: nat, n: nat): seq<A.Action> {
    [A.StartRead(space)] + A.Times(A.StepRead, 2 * n + P.size + 3)
  }

  lemma SomethingUnread(P: A.Params, s: A.State)
    requires A.Inv(P, s)
    ensures |s.delivered| < |s.accepted| <==> s.r.last < s.pub
  {
    var u := A.Undelivered(s);
    if u != [] {
      assert u[0] == s.accepted[|s.delivered|] && A.SentOk(P, u[0]);
      assert |A.Flat(u)| == |u[0].chunks| + |A.Flat(u[1..])|;
    }
  }

  lemma StartFetch(P: A.Params, s: A.State, space: nat, s1: A.State)
    requires A.Inv(P, s) && s.r.RIdle? && s.r.last < s.pub && P.size * P.cap <= space && s1 == A.Step(P, s, A.StartRead(space))
    ensures A.Inv(P, s1) && Roomy(P, s1) && Fetching(s, s1) && ReadRank(P, s1.r) == 2 * (s.pub - s.r.last) + P.size + 3
  {
    A.StepKeepsInv(P, s, A.StartRead(space));
  }

  lemma ReadComesBack(P: A.Params, s: A.State, space: nat, t: A.State)
    requires A.Inv(P, s) && s.r.RIdle? && s.r.last < s.pub && P.size * P.cap <= space
    requires t == A.Run(P, s, ReadActs(P, space, s.pub - s.r.last))
    ensures A.Inv(P, t) && Fetching(s, t) && t.r.RIdle?
  {
    var s1, n := A.Step(P, s, A.StartRead(space)), 2 * (s.pub - s.r.last) + P.size + 3;
    AfterFirst(P, s, A.StartRead(space), A.Times(A.StepRead, n));
    StartFetch(P, s, space, s1);
    ReadEnds(P, s, s1, n, t);
    Ended(P, t.r);
  }

  /** A read with a ring's worth of space delivers the next packet. */
  lemma ReadSucceeds(P: A.Params, s: A.State, space: nat, t: A.State)
    requires Offered(P, s) && s.r.RIdle? && |s.delivered| < |s.accepted| && P.size * P.cap <= space
    requires t == A.Run(P, s, ReadActs(P, space, s.pub - s.r.last))
    ensures Offered(P, t) && t.r.RIdle? && t.w == s.w && t.accepted == s.accepted && |t.delivered| == |s.delivered| + 1
    ensures t.delivered[|s.delivered|] == A.Concat(s.accepted[|s.delivered|].chunks)
  {
    SomethingUnread(P, s);
    ReadComesBack(P, s, space, t);
    RunKeepsOffered(P, s, ReadActs(P, space, s.pub - s.r.last));
  }

  lemma Ended(P: A.Params, r: A.Reader)
    requires ReadRank(P, r) == 0
    ensures r.RIdle? || r.RShort?
  {
  }

  // ---- what a read returns

  lemma UnreadIff(G: Geometry, s: C.State, a: A.State)
    requires Good(G, s, a)
    ensures Unread(Conf(G), s) != 0 <==> |s.delivered| < |s.accepted|
  {
    UnreadIs(G, s, a);
    SomethingUnread(G.Abs(), a);
  }

  lemma UnreadInRun(G: Geometry, c: C.State, acts: seq<C.Action>, s: C.State)
    requires Fresh(G, c) && s == C.Run(Conf(G), c, acts)
    ensures C.Shaped(Conf(G), s) && (Unread(Conf(G), s) != 0 <==> |s.delivered| < |s.accepted|)
  {
    RunFromFresh(G, c, acts);
    UnreadIff(G, s, Behind(G, c, acts));
  }

  /** t is where a call of ReadPacket with that buffer, made in s, returns, with more having happened since. */
  ghost predicate ReadBack(q: C.Config, s: C.State, given: seq<byte>, more: seq<C.Action>, t: C.State) {
    && C.Shaped(q, s) && s.r.Returned() && t == C.Run(q, C.Step(q, s, C.StartRead(given)), more) && t.r.RDone?
    && forall i :: 0 <= i < |more| ==> !more[i].StartRead?
  }

  lemma ReturnsFrom(q: C.Config, s: C.State, given: seq<byte>, more: seq<C.Action>, t: C.State)
    requires ReadBack(q, s, given, more, t)
    ensures Came(s.delivered, t.delivered, t.r.off, t.r.buf, given, Unread(q, s) != 0)
  {
    StartFetches(q, s, given);
    RunFetches(q, C.Step(q, s, C.StartRead(given)), more, s.delivered, given, Unread(q, s) != 0);
  }

  /**
   A call of ReadPacket in any run, whatever the writer does meanwhile: when it returns it has delivered exactly
   one packet, if one was unread at its start, and returns its length; otherwise it has delivered nothing,
   returns 0 and leaves the caller's buffer as it was.
   */
  lemma ReadReturns(G: Geometry, c: C.State, acts: seq<C.Action>, s: C.State, given: seq<byte>, more: seq<C.Action>, t: C.State)
    requires Fresh(G, c) && s == C.Run(Conf(G), c, acts) && ReadBack(Conf(G), s, given, more, t)
    ensures Came(s.delivered, t.delivered, t.r.off, t.r.buf, given, |s.delivered| < |s.accepted|)
  {
    UnreadInRun(G, c, acts, s);
    ReturnsFrom(Conf(G), s, given, more, t);
  }
}
