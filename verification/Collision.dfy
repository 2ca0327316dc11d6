/**
 Both directions of the first queue pair in use: a run from initializeQueues on in which the server reads
 the packet that it has itself sent in place of the packet that the client sent.
 */
module Collision {
  import opened Bytes
  import opened CrossTalk
  import opened DataPath
  import opened FirstCalls
  import opened FreshRings
  import opened Interference
  import opened Layout
  import opened MemRegion
  import opened Refinement
  import opened RingMemory
  import opened SharedRegion
  import A = RingProtocol
  import C = RingSteps

  // ---- several steps on one ring

  function On(k: nat, acts: seq<C.Action>): seq<Event>
    decreases |acts|
  {
    if acts == [] then [] else On(k, acts[..|acts| - 1]) + [Event(k, acts[|acts| - 1])]
  }

  lemma StepOne(Gs: seq<Geometry>, w: World, evs: seq<Event>, e: Event)
    requires Shaped(Gs, w)
    ensures Run(Gs, w, evs + [e]) == Step(Gs, Run(Gs, w, evs), e)
  {
    assert (evs + [e])[..|evs|] == evs;
  }

  lemma {:induction false} SoloRun(Gs: seq<Geometry>, w: World, k: nat, acts: seq<C.Action>, w': World)
    requires Shaped(Gs, w) && k < |Gs| && w' == Run(Gs, w, On(k, acts))
    ensures C.Shaped(Conf(Gs[k]), View(w, k)) && View(w', k) == C.Run(Conf(Gs[k]), View(w, k), acts)
    ensures forall j :: 0 <= j < |Gs| && j != k ==> View(w', j) == View(w, j).(mem := w'.mem)
    decreases |acts|
  {
    assert ShapedAt(Gs, w, k);
    if acts != [] {
      var n := |acts| - 1;
      SoloRun(Gs, w, k, acts[..n], Run(Gs, w, On(k, acts[..n])));
      StepOne(Gs, w, On(k, acts[..n]), Event(k, acts[n]));
    }
  }

  lemma {:induction false} EventsAppend(Gs: seq<Geometry>, w: World, evs: seq<Event>, more: seq<Event>)
    requires Shaped(Gs, w)
    ensures Run(Gs, w, evs + more) == Run(Gs, Run(Gs, w, evs), more)
    decreases |more|
  {
    if more == [] {
      assert evs + more == evs;
    } else {
      var n := |more| - 1;
      EventsAppend(Gs, w, evs, more[..n]);
      assert (evs + more)[..|evs + more| - 1] == evs + more[..n];
    }
  }

  // ---- a ring alone leaves the area of another ring as it is

  lemma StepKeepsArea(G: Geometry, H: Geometry, s: C.State, a: A.State, act: C.Action)
    requires Good(G, s, a) && Compatible(G, H)
    ensures SameRange(s.mem, C.Step(Conf(G), s, act).mem, H.ring.offset, H.ring.End())
  {
    var m' := C.Step(Conf(G), s, act).mem;
    if Copies(s, act) {
      var i := G.ring.Slot(s.w.slot);
      CopyStores(G, s, a, i);
      assert G.Apart(H.ring.offset, H.ring.End(), i);
      SameBytes(s.mem, m', G.bufs[i], G.bufs[i] + G.cap, H.ring.offset, H.ring.End());
    } else {
      OwnStores(Conf(G), s, act);
      SameBytes(s.mem, m', G.ring.offset, G.ring.End(), H.ring.offset, H.ring.End());
    }
  }

  lemma SameTwice(m: seq<byte>, m': seq<byte>, m'': seq<byte>, lo: nat, hi: nat)
    requires SameRange(m, m', lo, hi) && SameRange(m', m'', lo, hi)
    ensures SameRange(m, m'', lo, hi)
  {
  }

  lemma {:induction false} RunKeepsArea(G: Geometry, H: Geometry, s: C.State, a: A.State, acts: seq<C.Action>)
    requires Good(G, s, a) && Compatible(G, H)
    ensures SameRange(s.mem, C.Run(Conf(G), s, acts).mem, H.ring.offset, H.ring.End())
    decreases |acts|
  {
    if acts != [] {
      var n := |acts| - 1;
      RunKeepsArea(G, H, s, a, acts[..n]);
      GoodRun(G, s, a, acts[..n]);
      var s' := C.Run(Conf(G), s, acts[..n]);
      StepKeepsArea(G, H, s', A.Run(G.Abs(), a, AbsActs(acts[..n])), acts[n]);
      SameTwice(s.mem, s'.mem, C.Run(Conf(G), s, acts).mem, H.ring.offset, H.ring.End());
    }
  }

  lemma FreshStays(H: Geometry, m: seq<byte>, m': seq<byte>)
    requires Fresh(H, AtRest(m)) && SameRange(m, m', H.ring.offset, H.ring.End())
    ensures Fresh(H, AtRest(m'))
  {
    forall i | 0 <= i < H.ring.Size() ensures H.LaidAt(m', i) && H.CellAt(m', i).len == H.cap {
      DescStays(H, m, m', i);
    }
    FieldRange(m, m', H.ring.offset, H.ring.End(), H.ring.offset + HEAD_OFFSET);
    FieldRange(m, m', H.ring.offset, H.ring.End(), H.ring.offset + TAIL_OFFSET);
  }

  // ---- first: the client sends p

  function Send(p: C.Packet): seq<C.Action> { [C.StartWrite(p), C.StepWrite, C.StepWrite, C.StepWrite, C.StepWrite] }

  lemma AfterSend(G: Geometry, m: seq<byte>, p: C.Packet, s: C.State, a: A.State)
    requires Fresh(G, AtRest(m)) && G.dir.S2M? && |p| <= G.cap
    requires s == C.Run(Conf(G), AtRest(m), Send(p)) && a == Written(G.Abs(), Start(G, m), p)
    ensures Good(G, s, a)
  {
    RunFromFresh(G, AtRest(m), Send(p));
    SendBehind(G, m, p);
  }

  lemma SendBehind(G: Geometry, m: seq<byte>, p: C.Packet)
    requires Fresh(G, AtRest(m)) && G.dir.S2M? && |p| <= G.cap
    ensures Behind(G, AtRest(m), Send(p)) == Written(G.Abs(), Start(G, m), p)
  {
    assert AbsActs(Send(p)) == WriteCall(p);
    WriteRun(G.Abs(), Start(G, m), p);
  }

  // ---- then: the client offers its slots, and the server sends q through the first

  function Answer(size: nat, q: C.Packet): seq<C.Action> { COffer(size) + Send(q) }

  function Answered(P: A.Params, s: A.State, q: A.Packet): A.State
    requires A.Shaped(P, s) && s.pub == 0
  {
    Written(P, Offered0(P, s), q)
  }

  lemma AnswerRun(P: A.Params, s: A.State, q: A.Packet)
    requires A.Initial(P, s) && P.dir.M2S? && |q| <= P.cap
    ensures A.Run(P, s, Offer(P.size) + WriteCall(q)) == Answered(P, s, q)
  {
    OfferRun(P, s);
    A.RunAppend(P, s, Offer(P.size), WriteCall(q));
    WriteRun(P, Offered0(P, s), q);
  }

  lemma AnswerFront(G: Geometry, m: seq<byte>, q: C.Packet, s: C.State, a: A.State)
    requires G.Laid(m) && MemRel(G, s.mem, a) && |q| <= G.cap && a == Answered(G.Abs(), Start(G, m), q)
    ensures q <= G.CellAt(s.mem, 0).data
  {
    AtZero(G.Abs());
    assert a.cells[0] == G.CellAt(s.mem, 0) && G.Cells(m)[0] == G.CellAt(m, 0);
  }

  lemma AnswerAccepted(G: Geometry, m: seq<byte>, q: C.Packet, s: C.State, a: A.State)
    requires G.Laid(m) && Rel(G, s, a) && a == Answered(G.Abs(), Start(G, m), q)
    ensures SentOnly(s, q)
  {
    OnlyOne(G, s, a, q);
  }

  lemma AfterAnswer(G: Geometry, m: seq<byte>, q: C.Packet, s: C.State)
    requires Fresh(G, AtRest(m)) && G.dir.M2S? && |q| <= G.cap
    requires s == C.Run(Conf(G), AtRest(m), Answer(G.ring.Size(), q))
    ensures G.Valid() && |s.mem| == G.total && q <= G.CellAt(s.mem, 0).data && SentOnly(s, q)
  {
    var acts := Answer(G.ring.Size(), q);
    RunFromFresh(G, AtRest(m), acts);
    AnswerBehind(G, m, q);
    AnswerFront(G, m, q, s, Behind(G, AtRest(m), acts));
    AnswerAccepted(G, m, q, s, Behind(G, AtRest(m), acts));
  }

  lemma AbsAnswer(size: nat, q: C.Packet)
    ensures AbsActs(Answer(size, q)) == Offer(size) + WriteCall(q)
  {
    AbsOffer(size);
    AbsAppend(COffer(size), Send(q));
    assert AbsActs(Send(q)) == WriteCall(q);
  }

  lemma AnswerBehind(G: Geometry, m: seq<byte>, q: C.Packet)
    requires Fresh(G, AtRest(m)) && G.dir.M2S? && |q| <= G.cap
    ensures Behind(G, AtRest(m), Answer(G.ring.Size(), q)) == Answered(G.Abs(), Start(G, m), q)
  {
    FreshStart(G, AtRest(m));
    AbsAnswer(G.ring.Size(), q);
    AnswerRun(G.Abs(), Start(G, m), q);
  }

  // ---- last: the server reads

  function Receive(buf: seq<byte>): seq<C.Action> { [C.StartRead(buf), C.StepRead, C.StepRead] }

  /** ReadPacket returns the buffer it was given, at its length. */
  lemma ReadKeepsLength(q: C.Config, s: C.State, buf: seq<byte>, s': C.State)
    requires C.Shaped(q, s) && s.r.Returned() && s.delivered == [] && s' == C.Run(q, s, Receive(buf))
    ensures |s'.delivered| == 1 ==> |s'.delivered[0].buf| == |buf|
  {
    C.RunThree(q, s, C.StartRead(buf), C.StepRead, C.StepRead);
  }

  /** One unread one-slot packet. */
  ghost predicate Waiting(P: A.Params, b: A.State) {
    && A.Shaped(P, b) && b.r == A.RIdle(0) && b.pub == 1 && b.lim == P.size && b.w.WIdle?
    && !b.cells[A.At(P, 0)].next && b.cells[A.At(P, 0)].len <= P.cap && b.delivered == []
  }

  lemma WaitingSteps(P: A.Params, b: A.State, space: nat)
    requires Waiting(P, b)
    ensures A.Step(P, b, A.StartRead(space)) == b.(r := A.RGet(0, 0, 1, [], space))
    ensures A.Step(P, b.(r := A.RGet(0, 0, 1, [], space)), A.StepRead) ==
            b.(r := A.RCopy(0, 0, 1, [], space, false, b.cells[A.At(P, 0)].len))
  {
  }

  lemma WaitingFacts(G: Geometry, b: A.State, space: nat)
    requires G.Valid() && Waiting(G.Abs(), b)
    ensures Facts(G, b) && Facts(G, b.(r := A.RGet(0, 0, 1, [], space)))
    ensures Facts(G, b.(r := A.RCopy(0, 0, 1, [], space, false, b.cells[A.At(G.Abs(), 0)].len)))
  {
    SizeFits(G);
  }

  lemma StepRel(G: Geometry, s: C.State, b: A.State, act: C.Action, b': A.State)
    requires Rel(G, s, b) && Facts(G, b) && b' == A.Step(G.Abs(), b, AbsAct(act))
    ensures Rel(G, C.Step(Conf(G), s, act), b')
  {
    FactsRefine(G, s, b, act);
  }

  lemma ReceiveTwo(G: Geometry, s: C.State, b: A.State, buf: seq<byte>, b2: A.State)
    requires Rel(G, s, b) && Waiting(G.Abs(), b)
    requires b2 == b.(r := A.RCopy(0, 0, 1, [], |buf|, false, b.cells[A.At(G.Abs(), 0)].len))
    ensures Rel(G, C.Step(Conf(G), C.Step(Conf(G), s, C.StartRead(buf)), C.StepRead), b2)
    ensures A.Step(G.Abs(), A.Step(G.Abs(), b, A.StartRead(|buf|)), A.StepRead) == b2 && Facts(G, b2)
  {
    WaitingSteps(G.Abs(), b, |buf|);
    WaitingFacts(G, b, |buf|);
    var b1 := b.(r := A.RGet(0, 0, 1, [], |buf|));
    StepRel(G, s, b, C.StartRead(buf), b1);
    StepRel(G, C.Step(Conf(G), s, C.StartRead(buf)), b1, C.StepRead, b2);
  }

  lemma ReceiveLast(G: Geometry, s: C.State, b: A.State, buf: seq<byte>, s2: C.State, b2: A.State)
    requires C.Shaped(Conf(G), s) && A.Shaped(G.Abs(), b) && Rel(G, s2, b2) && Facts(G, b2)
    requires s2 == C.Step(Conf(G), C.Step(Conf(G), s, C.StartRead(buf)), C.StepRead)
    requires b2 == A.Step(G.Abs(), A.Step(G.Abs(), b, A.StartRead(|buf|)), A.StepRead)
    ensures Rel(G, C.Run(Conf(G), s, Receive(buf)), A.Run(G.Abs(), b, ReadCall(|buf|)))
  {
    C.RunThree(Conf(G), s, C.StartRead(buf), C.StepRead, C.StepRead);
    RunThree(G.Abs(), b, A.StartRead(|buf|), A.StepRead, A.StepRead);
    StepRel(G, s2, b2, C.StepRead, A.Run(G.Abs(), b, ReadCall(|buf|)));
  }

  lemma ReceiveRefines(G: Geometry, s: C.State, b: A.State, buf: seq<byte>)
    requires Rel(G, s, b) && Waiting(G.Abs(), b)
    ensures Rel(G, C.Run(Conf(G), s, Receive(buf)), A.Run(G.Abs(), b, ReadCall(|buf|)))
  {
    var b2 := b.(r := A.RCopy(0, 0, 1, [], |buf|, false, b.cells[A.At(G.Abs(), 0)].len));
    ReceiveTwo(G, s, b, buf, b2);
    ReceiveLast(G, s, b, buf, C.Step(Conf(G), C.Step(Conf(G), s, C.StartRead(buf)), C.StepRead), b2);
  }

  lemma WholeOutput(os: seq<C.Output>, x: seq<byte>)
    requires OutsRel(os, [x]) && |os[0].buf| == |x|
    ensures os == [C.Output(|x|, x)]
  {
    assert OutRel(os[0].n, os[0].buf, [x][0]);
    assert os[0].buf[..|x|] == os[0].buf && x[..|x|] == x;
    assert os[0] == C.Output(|x|, x);
  }

  lemma CellDelivered(G: Geometry, s: C.State, b: A.State, buf: seq<byte>, x: seq<byte>, s': C.State)
    requires Rel(G, s, b) && Waiting(G.Abs(), b) && s' == C.Run(Conf(G), s, Receive(buf))
    requires x <= b.cells[A.At(G.Abs(), 0)].data && b.cells[A.At(G.Abs(), 0)].len == |x|
    ensures OutsRel(s'.delivered, [x])
  {
    ReceiveRefines(G, s, b, buf);
    DeliversCell(G.Abs(), b, |buf|, x);
    RelOuts(G, s', A.Run(G.Abs(), b, ReadCall(|buf|)));
  }

  lemma DeliversCell(P: A.Params, b: A.State, space: nat, x: seq<byte>)
    requires Waiting(P, b) && x <= b.cells[A.At(P, 0)].data && b.cells[A.At(P, 0)].len == |x|
    ensures A.Run(P, b, ReadCall(space)).delivered == [x]
  {
    ReadRun(P, b, space);
    assert b.cells[A.At(P, 0)].data[..|x|] == x && [] + [x] == [x];
  }

  lemma RelOuts(G: Geometry, s: C.State, a: A.State)
    requires Rel(G, s, a)
    ensures OutsRel(s.delivered, a.delivered)
  {
  }

  lemma ReceivesCell(G: Geometry, s: C.State, b: A.State, buf: seq<byte>, x: seq<byte>, s': C.State)
    requires Rel(G, s, b) && Waiting(G.Abs(), b) && s' == C.Run(Conf(G), s, Receive(buf))
    requires x <= b.cells[A.At(G.Abs(), 0)].data && b.cells[A.At(G.Abs(), 0)].len == |x| == |buf|
    ensures s'.delivered == [C.Output(|x|, x)] && s'.accepted == s.accepted && s'.w == s.w
  {
    CellDelivered(G, s, b, buf, x, s');
    ReadKeepsLength(Conf(G), s, buf, s');
    KeepsAccepted(Conf(G), s, Receive(buf));
    WholeOutput(s'.delivered, x);
  }

  lemma ReadAccepts(q: C.Config, s: C.State, act: C.Action)
    requires C.Shaped(q, s) && (act.StartRead? || act.StepRead?)
    ensures C.Step(q, s, act).accepted == s.accepted && C.Step(q, s, act).w == s.w
  {
  }

  lemma {:induction false} KeepsAccepted(q: C.Config, s: C.State, acts: seq<C.Action>)
    requires C.Shaped(q, s) && forall i :: 0 <= i < |acts| ==> acts[i].StartRead? || acts[i].StepRead?
    ensures C.Run(q, s, acts).accepted == s.accepted && C.Run(q, s, acts).w == s.w
    decreases |acts|
  {
    if acts != [] {
      var n := |acts| - 1;
      KeepsAccepted(q, s, acts[..n]);
      ReadAccepts(q, C.Run(q, s, acts[..n]), acts[n]);
    }
  }

  // ---- the whole run

  /** p is the one packet accepted, and WritePacket has returned its length. */
  ghost predicate SentOnly(s: C.State, p: C.Packet) {
    s.w.WDone? && |s.accepted| == 1 && s.accepted[0].pkt == p && s.accepted[0].n == |p|
  }

  function CollisionRun(size: nat, p: C.Packet, q: C.Packet, buf: seq<byte>): seq<Event> {
    On(0, Send(p)) + On(1, Answer(size, q)) + On(0, Receive(buf))
  }

  /** S in state s, after a run on another ring has put q in front of its first buffer. */
  lemma Overwritten(S: Geometry, s: C.State, a: A.State, m': seq<byte>, p: C.Packet, q: C.Packet, b: A.State)
    requires Rel(S, s, a) && S.dir.S2M? && SameRange(s.mem, m', S.ring.offset, S.ring.End())
    requires Waiting(S.Abs(), a) && a.cells[A.At(S.Abs(), 0)].len == |p| == |q|
    requires |m'| == S.total && q <= S.CellAt(m', 0).data && b == a.(cells := S.Cells(m'))
    ensures Rel(S, s.(mem := m'), b) && Waiting(S.Abs(), b)
    ensures q <= b.cells[A.At(S.Abs(), 0)].data && b.cells[A.At(S.Abs(), 0)].len == |q|
  {
    AtZero(S.Abs());
    AreaMem(S, s.mem, m', a, b);
    HarmlessRel(S, s, a, m', b);
    DescStays(S, s.mem, m', 0);
    assert a.cells[0] == S.CellAt(s.mem, 0) && b.cells[0] == S.CellAt(m', 0);
  }

  lemma SentIsWaiting(G: Geometry, m: seq<byte>, p: C.Packet, a: A.State)
    requires Fresh(G, AtRest(m)) && G.dir.S2M? && |p| <= G.cap && a == Written(G.Abs(), Start(G, m), p)
    ensures Waiting(G.Abs(), a) && a.cells[A.At(G.Abs(), 0)].len == |p|
  {
    AtZero(G.Abs());
  }

  lemma OnlyOne(G: Geometry, s: C.State, a: A.State, p: C.Packet)
    requires Rel(G, s, a) && a.w.WIdle? && |a.accepted| == 1 && a.accepted[0].pkt == p && a.accepted[0].chunks == [p]
    ensures SentOnly(s, p)
  {
    assert CallRel(s.accepted[0], a.accepted[0], true);
    TotalOfOne(p);
  }

  lemma TotalOfOne(p: C.Packet)
    ensures A.Total([p]) == |p|
  {
    A.TotalAppend([], p);
    assert [] + [p] == [p];
  }

  lemma AcceptedIs(G: Geometry, s: C.State, a: A.State, m: seq<byte>, p: C.Packet)
    requires Fresh(G, AtRest(m)) && G.dir.S2M? && a == Written(G.Abs(), Start(G, m), p) && Rel(G, s, a)
    ensures SentOnly(s, p)
  {
    OnlyOne(G, s, a, p);
  }

  /** The server's answer: its bytes lie in front of the shared buffer, and the S2M ring's area is as it was. */
  lemma SecondPart(S: Geometry, M: Geometry, m: seq<byte>, s1: C.State, q: C.Packet, s2: C.State)
    requires Fresh(M, AtRest(m)) && SameRange(m, s1.mem, M.ring.offset, M.ring.End()) && Compatible(M, S)
    requires M.dir.M2S? && |q| <= M.cap && M.ring.End() <= |s1.mem|
    requires s2 == C.Run(Conf(M), AtRest(s1.mem), Answer(M.ring.Size(), q))
    ensures M.Valid() && |s2.mem| == M.total && q <= M.CellAt(s2.mem, 0).data && SentOnly(s2, q)
    ensures SameRange(s1.mem, s2.mem, S.ring.offset, S.ring.End())
  {
    FreshStays(M, m, s1.mem);
    AfterAnswer(M, s1.mem, q, s2);
    FreshIsGood(M, s1.mem);
    RunKeepsArea(M, S, AtRest(s1.mem), Start(M, s1.mem), Answer(M.ring.Size(), q));
  }

  /** The client's packet: it lies waiting in slot 0, and the M2S ring's area is as it was. */
  lemma FirstPart(S: Geometry, M: Geometry, m: seq<byte>, p: C.Packet, s1: C.State, a: A.State)
    requires Fresh(S, AtRest(m)) && S.dir.S2M? && |p| <= S.cap && Compatible(S, M)
    requires s1 == C.Run(Conf(S), AtRest(m), Send(p)) && a == Written(S.Abs(), Start(S, m), p)
    ensures Rel(S, s1, a) && Waiting(S.Abs(), a) && a.cells[A.At(S.Abs(), 0)].len == |p|
    ensures SameRange(m, s1.mem, M.ring.offset, M.ring.End()) && SentOnly(s1, p)
  {
    AfterSend(S, m, p, s1, a);
    AcceptedIs(S, s1, a, m, p);
    SentIsWaiting(S, m, p, a);
    FreshIsGood(S, m);
    RunKeepsArea(S, M, AtRest(m), Start(S, m), Send(p));
  }

  /** The three parts on the bytes of the region. */
  lemma ThreeParts(S: Geometry, M: Geometry, m: seq<byte>, p: C.Packet, q: C.Packet, buf: seq<byte>,
                   s1: C.State, a: A.State, s2: C.State, s3: C.State)
    requires Fresh(M, AtRest(m)) && Compatible(M, S)
    requires S.dir.S2M? && M.dir.M2S? && S.bufs == M.bufs && S.cap == M.cap && |p| == |q| == |buf| <= S.cap
    requires Rel(S, s1, a) && Waiting(S.Abs(), a) && a.cells[A.At(S.Abs(), 0)].len == |p|
    requires SameRange(m, s1.mem, M.ring.offset, M.ring.End()) && SentOnly(s1, p)
    requires M.ring.End() <= |s1.mem| && s2 == C.Run(Conf(M), AtRest(s1.mem), Answer(M.ring.Size(), q))
    requires S.ring.End() <= |s2.mem| && s3 == C.Run(Conf(S), s1.(mem := s2.mem), Receive(buf))
    ensures SentOnly(s2, q) && SentOnly(s3, p) && s3.delivered == [C.Output(|p|, q)]
  {
    SecondPart(S, M, m, s1, q, s2);
    LastPart(S, s1, a, s2.mem, p, q, buf, s3);
  }

  lemma LastPart(S: Geometry, s: C.State, a: A.State, m': seq<byte>, p: C.Packet, q: C.Packet, buf: seq<byte>, s': C.State)
    requires Rel(S, s, a) && S.dir.S2M? && SameRange(s.mem, m', S.ring.offset, S.ring.End())
    requires Waiting(S.Abs(), a) && a.cells[A.At(S.Abs(), 0)].len == |p| == |q| == |buf|
    requires |m'| == S.total && q <= S.CellAt(m', 0).data && s' == C.Run(Conf(S), s.(mem := m'), Receive(buf))
    ensures s'.delivered == [C.Output(|p|, q)] && s'.accepted == s.accepted && s'.w == s.w
  {
    var b := a.(cells := S.Cells(m'));
    Overwritten(S, s, a, m', p, q, b);
    ReceivesCell(S, s.(mem := m'), b, buf, q, s');
  }

  lemma FreshIsGood(G: Geometry, m: seq<byte>)
    requires Fresh(G, AtRest(m))
    ensures Good(G, AtRest(m), Start(G, m))
  {
    RunFromFresh(G, AtRest(m), []);
    assert AbsActs([]) == [];
  }

  lemma PairRuns(S: Geometry, M: Geometry, m: seq<byte>, p: C.Packet, q: C.Packet, buf: seq<byte>, w: World)
    requires Fresh(S, AtRest(m)) && Fresh(M, AtRest(m)) && Compatible(S, M) && Compatible(M, S)
    requires S.dir.S2M? && M.dir.M2S? && S.bufs == M.bufs && S.cap == M.cap && |p| == |q| == |buf| <= S.cap
    requires Shaped([S, M], Begin(m)) && w == Run([S, M], Begin(m), CollisionRun(M.ring.Size(), p, q, buf))
    ensures SentOnly(View(w, 1), q) && SentOnly(View(w, 0), p) && View(w, 0).delivered == [C.Output(|p|, q)]
  {
    var Gs, w0 := [S, M], Begin(m);
    var e1, e2, e3 := On(0, Send(p)), On(1, Answer(M.ring.Size(), q)), On(0, Receive(buf));
    var w1 := Run(Gs, w0, e1);
    SoloRun(Gs, w0, 0, Send(p), w1);
    var w2 := Run(Gs, w1, e2);
    SoloRun(Gs, w1, 1, Answer(M.ring.Size(), q), w2);
    EventsAppend(Gs, w0, e1, e2);
    EventsAppend(Gs, w0, e1 + e2, e3);
    SoloRun(Gs, w2, 0, Receive(buf), w);
    assert View(w1, 1) == AtRest(w1.mem);
    var a := Written(S.Abs(), Start(S, m), p);
    FirstPart(S, M, m, p, View(w1, 0), a);
    ThreeParts(S, M, m, p, q, buf, View(w1, 0), a, View(w2, 1), View(w, 0));
  }

  /**
   For every usable configuration, the default one included, and all packets p and q of one length up to the
   buffer size: both WritePacket calls return with the packet sent, the client's of p and then the server's of
   q, and the server's next read returns q in place of p.
   */
  lemma ReadsItsOwn(c: MemoryConfig, m0: seq<byte>, m: seq<byte>, p: C.Packet, q: C.Packet, buf: seq<byte>)
    requires Sound(c) && Initialized(c, m0, m) && |m| == c.RegionSize() && |p| == |q| == |buf| <= c.packetBufferSize
    ensures Shaped(Pair(c), Begin(m))
    ensures var w := Run(Pair(c), Begin(m), CollisionRun(Pow2(c.log2RingSize), p, q, buf));
            && SentOnly(View(w, 0), p) && SentOnly(View(w, 1), q) && View(w, 0).delivered == [C.Output(|p|, q)]
  {
    var S, M := FirstRing(c, A.S2M), FirstRing(c, A.M2S);
    PairFresh(c, m0, m);
    PairCompatible(c);
    InitializedIsFresh(c, m0, m, A.S2M);
    InitializedIsFresh(c, m0, m, A.M2S);
    assert Compatible(Pair(c)[0], Pair(c)[1]) && Compatible(Pair(c)[1], Pair(c)[0]);
    PairRuns(S, M, m, p, q, buf, Run(Pair(c), Begin(m), CollisionRun(Pow2(c.log2RingSize), p, q, buf)));
  }

  /** So with both directions in use and no care taken, some run of every configuration is out of order. */
  lemma SomeRunIsOutOfOrder(c: MemoryConfig, m0: seq<byte>, m: seq<byte>)
    requires Sound(c) && Initialized(c, m0, m) && |m| == c.RegionSize()
    ensures Shaped(Pair(c), Begin(m)) && Pair(c)[0].Abs().Valid()
    ensures exists evs :: !InOrder(Pair(c)[0].Abs(), View(Run(Pair(c), Begin(m), evs), 0))
  {
    var P, evs := Pair(c)[0].Abs(), CollisionRun(Pow2(c.log2RingSize), [1], [2], [0]);
    ReadsItsOwn(c, m0, m, [1], [2], [0]);
    var s := View(Run(Pair(c), Begin(m), evs), 0);
    NotReceived(P, s.accepted[0]);
    assert s.delivered[0] == C.Output(1, [2]) && s.accepted[0].pkt == [1];
  }

  lemma NotReceived(P: A.Params, call: C.Call)
    requires P.Valid() && call.pkt == [1]
    ensures !Received(P, C.Output(1, [2]), call)
  {
    assert [2][..1] == [2] && [1][..1] == [1];
    assert [2][0] != [1][0];
  }
}
