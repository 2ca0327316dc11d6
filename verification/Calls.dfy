/** Two queue objects on one region, one at each end of a ring: what a series of their calls amounts to. */
module Calls {
  import opened Bytes
  import opened Capacity
  import opened DataPath
  import opened Ledger
  import opened PacketProcessing
  import opened Progress
  import opened Refinement
  import opened RingMemory
  import opened SharedRegion
  import A = RingProtocol
  import C = RingSteps

  // ---- one call of WritePacket

  ghost predicate AtWork(w: C.Writer) { w.WGet? || w.WCopy? || w.WPut? || w.WPub? }

  /** t is inside the write of pkt that began at s with that on offer. */
  ghost predicate Writing(s: C.State, t: C.State, pkt: C.Packet, rooms: seq<nat>) {
    t == s.(mem := t.mem, w := t.w, rooms := rooms) && AtWork(t.w) && t.w.pkt == pkt
  }

  /** t is after it: the packet is accepted, or it is turned away and 0 returned. */
  ghost predicate Wrote(s: C.State, t: C.State, call: C.Call, sent: bool) {
    && t.w == C.WDone(call.n) && (!sent ==> call.n == 0)
    && t == s.(mem := t.mem, w := t.w, rooms := call.rooms,
               accepted := s.accepted + if sent then [call] else [], rejected := s.rejected + if sent then [] else [call])
  }

  /** One or the other. */
  ghost predicate Ended(s: C.State, t: C.State, pkt: C.Packet, rooms: seq<nat>) {
    t.w.WDone? && exists sent :: Wrote(s, t, C.Call(pkt, rooms, t.w.n), sent)
  }

  lemma WriteStepIs(q: C.Config, t: C.State, t': C.State)
    requires C.Shaped(q, t) && AtWork(t.w) && t' == C.Step(q, t, C.StepWrite)
    ensures t.w.WPub? ==>
              t' == t.(mem := t'.mem, w := C.WDone(t.w.n), accepted := t.accepted + [C.Call(t.w.pkt, t.rooms, t.w.n)])
    ensures !t.w.WPub? && AtWork(t'.w) ==> t' == t.(mem := t'.mem, w := t'.w) && t'.w.pkt == t.w.pkt
    ensures !t.w.WPub? && !AtWork(t'.w) && !t'.w.WFault? ==>
              t' == t.(mem := t'.mem, w := C.WDone(0), rejected := t.rejected + [C.Call(t.w.pkt, t.rooms, 0)])
  {
  }

  lemma WritingStep(q: C.Config, s: C.State, t: C.State, pkt: C.Packet, rooms: seq<nat>, t': C.State)
    requires C.Shaped(q, t) && Writing(s, t, pkt, rooms) && t' == C.Step(q, t, C.StepWrite) && !t'.w.WFault?
    ensures Writing(s, t', pkt, rooms) || Ended(s, t', pkt, rooms)
  {
    WriteStepIs(q, t, t');
    if t.w.WPub? {
      assert Wrote(s, t', C.Call(pkt, rooms, t'.w.n), true);
    } else if !AtWork(t'.w) {
      assert Wrote(s, t', C.Call(pkt, rooms, t'.w.n), false);
    }
  }

  lemma DoneStays(q: C.Config, t: C.State)
    requires C.Shaped(q, t) && t.w.WDone?
    ensures C.Step(q, t, C.StepWrite) == t
  {
  }

  lemma {:induction false} WriteSteps(G: Geometry, s: C.State, s1: C.State, pkt: C.Packet, rooms: seq<nat>, k: nat, t: C.State)
    requires Sane(G, s1) && C.Shaped(Conf(G), s1) && (Writing(s, s1, pkt, rooms) || Ended(s, s1, pkt, rooms))
    requires t == C.Run(Conf(G), s1, A.Times(C.StepWrite, k))
    ensures Sane(G, t) && (Writing(s, t, pkt, rooms) || Ended(s, t, pkt, rooms))
    decreases k
  {
    if k > 0 {
      var u := C.Run(Conf(G), s1, A.Times(C.StepWrite, k - 1));
      WriteSteps(G, s, s1, pkt, rooms, k - 1, u);
      C.RunTimes(Conf(G), s1, C.StepWrite, k);
      SaneStep(G, u, C.StepWrite);
      SaneIsSafe(G, t);
      if Writing(s, u, pkt, rooms) { WritingStep(Conf(G), s, u, pkt, rooms, t); } else { DoneStays(Conf(G), u); }
    }
  }

  // ---- one call of ReadPacket

  /** t is in or after the read that began at s with that buffer; some tells whether there was a packet to read. */
  ghost predicate Reading(s: C.State, t: C.State, given: seq<byte>, some: bool) {
    && t.w == s.w && t.accepted == s.accepted && t.rejected == s.rejected
    && t.returned == s.returned + (if t.r.RDone? then 1 else 0)
    && Fetched(s.delivered, t.delivered, t.r, given, some)
  }

  lemma ReadingStep(q: C.Config, s: C.State, t: C.State, given: seq<byte>, some: bool)
    requires C.Shaped(q, t) && Reading(s, t, given, some)
    ensures Reading(s, C.Step(q, t, C.StepRead), given, some)
  {
    StepFetches(q, t, C.StepRead, s.delivered, given, some);
  }

  lemma {:induction false} ReadSteps(q: C.Config, s: C.State, s1: C.State, given: seq<byte>, some: bool, k: nat)
    requires C.Shaped(q, s1) && Reading(s, s1, given, some)
    ensures Reading(s, C.Run(q, s1, A.Times(C.StepRead, k)), given, some)
    decreases k
  {
    if k > 0 {
      ReadSteps(q, s, s1, given, some, k - 1);
      C.RunTimes(q, s1, C.StepRead, k);
      ReadingStep(q, s, C.Run(q, s1, A.Times(C.StepRead, k - 1)), given, some);
    }
  }

  /** The packet that a read in s begins with, cut up as it was sent. */
  function Unreadable(rest: bool, s: C.State, len: nat): bool {
    |s.delivered| < |s.accepted| &&
    var call := s.accepted[|s.delivered|];
    Overruns(Cut(rest, call.pkt, call.rooms), len)
  }

  /** r is in or after the read with a buffer of that length, which panics only if it is too short. */
  ghost predicate Reaching(rest: bool, s: C.State, r: C.Reader, len: nat) {
    match r
    case RGet(_, _, _, _, buf) => |buf| == len
    case RCopy(_, _, _, _, buf, _) => |buf| == len
    case RShort(_, _) => Unreadable(rest, s, len)
    case RFault(_) => true
    case _ => !Unreadable(rest, s, len)
  }

  lemma CopyReaches(P: A.Params, a: A.State)
    requires A.Inv(P, a) && Whole(P, a) && a.r.RCopy?
    ensures var x := a.accepted[|a.delivered|];
            var chunks := Cut(P.rest, x.pkt, x.rooms);
            && (|a.r.acc| > a.r.space ==> Overruns(chunks, a.r.space))
            && (|a.r.acc| <= a.r.space && !a.r.next ==> !Overruns(chunks, a.r.space))
  {
    var x, j := a.accepted[|a.delivered|], a.r.slot - a.r.last;
    assert A.SentOk(P, x) && Even(P, x);
    CutIs(P, x);
    A.CellBeingRead(P, a);
    A.ConcatLength(x.chunks[..j]);
    TotalGrows(x.chunks, j, |x.chunks| - 1);
  }

  /** What the next copy of a read under way finds. */
  lemma CopyFinds(G: Geometry, t: C.State, a: A.State)
    requires Good(G, t, a) && t.r.RCopy?
    ensures |t.delivered| < |t.accepted| && |t.r.desc| == DESC_SIZE
    ensures t.r.off > |t.r.buf| ==> Unreadable(G.rest, t, |t.r.buf|)
    ensures t.r.off <= |t.r.buf| && Get16(t.r.desc, DESC_FLAGS) % 2 != 1 ==> !Unreadable(G.rest, t, |t.r.buf|)
  {
    CopyReaches(G.Abs(), a);
    var d := |a.delivered|;
    assert CallRel(t.accepted[d], a.accepted[d], true);
  }

  lemma CopyEnds(q: C.Config, m: seq<byte>, r: C.Reader)
    requires q.ring.End() <= |m| && r.Valid() && r.RCopy?
    ensures var r' := C.ReadStep(q, m, r).1;
            && (r'.RShort? ==> r.off > |r.buf|) && (r'.RGet? ==> |r'.buf| == |r.buf|) && !r'.RCopy? && !r'.RDone?
            && (r'.RRefill? ==> r.off <= |r.buf| && Get16(r.desc, DESC_FLAGS) % 2 != 1)
  {
  }

  lemma ReachingCopy(G: Geometry, s: C.State, t: C.State, len: nat, r: C.Reader)
    requires Sane(G, t) && C.Shaped(Conf(G), t) && t.r.RCopy? && |t.r.buf| == len
    requires t.accepted == s.accepted && t.delivered == s.delivered
    requires r == C.ReadStep(Conf(G), t.mem, t.r).1 && !r.RIncomplete?
    ensures Reaching(G.rest, s, r, len)
  {
    var a :| Good(G, t, a);
    CopyFinds(G, t, a);
    CopyEnds(Conf(G), t.mem, t.r);
  }

  lemma ReachingOther(q: C.Config, m: seq<byte>, r: C.Reader, s: C.State, len: nat)
    requires q.ring.End() <= |m| && r.Valid() && !r.RCopy? && Reaching(q.rest, s, r, len)
    ensures Reaching(q.rest, s, C.ReadStep(q, m, r).1, len)
  {
  }

  lemma ReachingStep(G: Geometry, s: C.State, t: C.State, given: seq<byte>, some: bool, len: nat, r: C.Reader)
    requires Sane(G, t) && C.Shaped(Conf(G), t) && Reading(s, t, given, some) && Reaching(G.rest, s, t.r, len)
    requires r == C.ReadStep(Conf(G), t.mem, t.r).1 && !r.RIncomplete?
    ensures Reaching(G.rest, s, r, len)
  {
    if t.r.RCopy? { ReachingCopy(G, s, t, len, r); } else { ReachingOther(Conf(G), t.mem, t.r, s, len); }
  }

  lemma StepReadIs(q: C.Config, u: C.State, t: C.State)
    requires C.Shaped(q, u) && t == C.Step(q, u, C.StepRead)
    ensures t.r == C.ReadStep(q, u.mem, u.r).1
  {
  }

  lemma {:induction false} ReachingSteps(G: Geometry, s: C.State, s1: C.State, given: seq<byte>, some: bool, k: nat, t: C.State)
    requires Sane(G, s1) && C.Shaped(Conf(G), s1) && Reading(s, s1, given, some) && Reaching(G.rest, s, s1.r, |given|)
    requires t == C.Run(Conf(G), s1, A.Times(C.StepRead, k))
    ensures Reaching(G.rest, s, t.r, |given|)
    decreases k
  {
    if k > 0 {
      var u := C.Run(Conf(G), s1, A.Times(C.StepRead, k - 1));
      ReachingSteps(G, s, s1, given, some, k - 1, u);
      C.RunTimes(Conf(G), s1, C.StepRead, k);
      RunStaysSane(G, s1, A.Times(C.StepRead, k - 1));
      ReadSteps(Conf(G), s, s1, given, some, k - 1);
      RunStaysSane(G, s1, A.Times(C.StepRead, k));
      StepReadIs(Conf(G), u, t);
      ReachingStep(G, s, u, given, some, |given|, t.r);
    }
  }

  // ---- two queues

  /** A sending and a receiving queue on one ring; only the client's buffer size matters. */
  ghost predicate Ends(G: Geometry, tx: Queue, rx: Queue) {
    && tx != rx && tx.data == rx.data && tx.ring == rx.ring == G.ring && !G.rest
    && tx.isServer == G.dir.M2S? && rx.isServer == G.dir.S2M?
    && (if G.dir.S2M? then tx else rx).bufferSize == G.cap
  }

  /** Both are at rest, and s says where. */
  ghost predicate Tied(tx: Queue, rx: Queue, s: C.State)
    reads tx, rx, tx.data
  {
    tx.Valid() && rx.Valid() && s.mem == tx.data[..] && s.w.WDone? && s.r.RDone? && s.r.last == rx.Last()
  }

  lemma StartedWrite(q: C.Config, s: C.State, pkt: C.Packet, s1: C.State)
    requires C.Shaped(q, s) && s.w.WDone? && s1 == C.Step(q, s, C.StartWrite(pkt))
    ensures (s1.mem, s1.w) == (s.mem, C.BeginWrite(q, s.mem, pkt)) && s1.r == s.r
    ensures Writing(s, s1, pkt, C.FreeRooms(q, s.mem)) || Ended(s, s1, pkt, C.FreeRooms(q, s.mem))
  {
    if s1.w.WDone? { assert Wrote(s, s1, C.Call(pkt, C.FreeRooms(q, s.mem), 0), false); }
  }

  /** The trace of a write, as a trace of the ring's own configuration. */
  lemma {:induction false} WriteTrace(G: Geometry, q: C.Config, m: seq<byte>, pkt: C.Packet, tr: seq<C.WPoint>)
    requires q == C.Config(G.dir, G.ring, q.cap, G.rest) && (G.dir.S2M? ==> q.cap == G.cap)
    requires C.WTrace(q, tr) && G.ring.End() <= |m| && tr[0] == (m, C.BeginWrite(q, m, pkt))
    ensures C.WTrace(Conf(G), tr) && tr[0] == (m, C.BeginWrite(Conf(G), m, pkt))
  {
    if G.dir.M2S? { ServerWriteTrace(q, G.cap, tr); }
  }

  lemma {:induction false} WriteTraced(q: C.Config, s: C.State, pkt: C.Packet, s1: C.State, tr: seq<C.WPoint>, s': C.State)
    requires C.Shaped(q, s) && s1 == C.Step(q, s, C.StartWrite(pkt)) && C.WTrace(q, tr) && tr[0] == (s1.mem, s1.w)
    requires s' == C.Run(q, s, [C.StartWrite(pkt)] + A.Times(C.StepWrite, |tr| - 1))
    ensures s' == C.Run(q, s1, A.Times(C.StepWrite, |tr| - 1)) && (s'.mem, s'.w) == tr[|tr| - 1] && s'.r == s1.r
  {
    WriteTraceIsRun(q, s1, tr);
    AfterStart(q, s, C.StartWrite(pkt), A.Times(C.StepWrite, |tr| - 1));
  }

  /** A call of WritePacket that came to its end: its steps, and the packet sent or refused. */
  lemma {:induction false} WriteCall(G: Geometry, s: C.State, pkt: C.Packet, tr: seq<C.WPoint>)
    returns (sent: bool, acts: seq<C.Action>, s': C.State)
    requires Sane(G, s) && C.Shaped(Conf(G), s) && s.w.WDone? && C.WTrace(Conf(G), tr)
    requires tr[0] == (s.mem, C.BeginWrite(Conf(G), s.mem, pkt)) && !AtWork(tr[|tr| - 1].1)
    ensures s' == C.Run(Conf(G), s, acts) && Sane(G, s') && (s'.mem, s'.w) == tr[|tr| - 1] && s'.r == s.r
    ensures s'.w.WDone? && Wrote(s, s', C.Call(pkt, C.FreeRooms(Conf(G), s.mem), s'.w.n), sent)
  {
    var s1, rooms := C.Step(Conf(G), s, C.StartWrite(pkt)), C.FreeRooms(Conf(G), s.mem);
    acts := [C.StartWrite(pkt)] + A.Times(C.StepWrite, |tr| - 1);
    s' := C.Run(Conf(G), s, acts);
    SaneStep(G, s, C.StartWrite(pkt));
    StartedWrite(Conf(G), s, pkt, s1);
    WriteTraced(Conf(G), s, pkt, s1, tr, s');
    WriteSteps(G, s, s1, pkt, rooms, |tr| - 1, s');
    sent :| Wrote(s, s', C.Call(pkt, rooms, s'.w.n), sent);
  }

  lemma JudgedGood(G: Geometry, s': C.State, a: A.State, call: C.Call, sent: bool)
    requires Good(G, s', a)
    requires if sent then s'.accepted != [] && s'.accepted[|s'.accepted| - 1] == call
             else s'.rejected != [] && s'.rejected[|s'.rejected| - 1] == call
    ensures Judged(G.Abs(), call, sent)
    ensures sent ==> Counted(G.Abs(), call)
  {
    var i := |if sent then s'.accepted else s'.rejected| - 1;
    if sent {
      assert A.SentOk(G.Abs(), a.accepted[i]) && Even(G.Abs(), a.accepted[i]) && CallRel(call, a.accepted[i], true);
      AcceptedJudged(G.Abs(), call, a.accepted[i]);
      Carried(G.Abs(), a.accepted[i]);
    } else {
      assert A.RejectOk(G.Abs(), a.rejected[i]) && Even(G.Abs(), a.rejected[i]) && CallRel(call, a.rejected[i], false);
      RejectedJudged(G.Abs(), call, a.rejected[i]);
    }
  }

  /** What WritePacket returns for a packet it sends. */
  ghost predicate Counted(P: A.Params, call: C.Call)
    requires P.Valid()
  {
    && |call.pkt| <= call.n == |Joined(P.rest, call.pkt, call.rooms)| && (P.rest || P.Regular() ==> call.n == |Wire(P, call.pkt)|)
    && (|call.pkt| <= Least(P) ==> call.n == |call.pkt|)
  }

  /** A write is judged by what was on offer at its start. */
  lemma WroteIsJudged(G: Geometry, s: C.State, s': C.State, call: C.Call, sent: bool)
    requires Sane(G, s') && Wrote(s, s', call, sent)
    ensures G.Valid() && Judged(G.Abs(), call, sent) && (sent ==> Counted(G.Abs(), call))
  {
    var a :| Good(G, s', a);
    JudgedGood(G, s', a, call, sent);
  }

  lemma AfterStart(q: C.Config, s: C.State, a: C.Action, acts: seq<C.Action>)
    requires C.Shaped(q, s)
    ensures C.Run(q, s, [a] + acts) == C.Run(q, C.Step(q, s, a), acts)
  {
    C.RunAppend(q, s, [a], acts);
    assert [a][..0] == [] && C.Run(q, s, []) == s;
  }

  /**
   WritePacket on the sending queue, for every buffer size: the packet is accepted exactly if the free slots
   suffice for it, and otherwise it is refused and 0 returned.
   */
  method Send(tx: Queue, rx: Queue, pkt: seq<byte>, ghost G: Geometry, ghost s: C.State)
    returns (n: nat, ghost sent: bool, ghost acts: seq<C.Action>, ghost s': C.State)
    requires Ends(G, tx, rx) && Tied(tx, rx, s) && Sane(G, s) && C.Shaped(Conf(G), s)
    modifies tx.data
    ensures Tied(tx, rx, s') && Sane(G, s') && s' == C.Run(Conf(G), s, acts)
    ensures Wrote(s, s', C.Call(pkt, C.FreeRooms(Conf(G), s.mem), n), sent) && s'.r == s.r && G.Valid()
    ensures Judged(G.Abs(), C.Call(pkt, C.FreeRooms(Conf(G), s.mem), n), sent)
    ensures sent ==> Counted(G.Abs(), C.Call(pkt, C.FreeRooms(Conf(G), s.mem), n))
  {
    var r, tr := tx.WritePacket(pkt);
    WriteTrace(G, tx.TxConfig(), s.mem, pkt, tr);
    sent, acts, s' := WriteCall(G, s, pkt, tr);
    n := r.n;
    WroteIsJudged(G, s, s', C.Call(pkt, C.FreeRooms(Conf(G), s.mem), n), sent);
  }

  lemma StartedRead(q: C.Config, s: C.State, buf: seq<byte>, s1: C.State)
    requires C.Shaped(q, s) && s.r.RDone? && s1 == C.Step(q, s, C.StartRead(buf))
    ensures (s1.mem, s1.r) == (s.mem, C.BeginRead(q, s.mem, s.r.last, buf)) && Reading(s, s1, buf, Unread(q, s) != 0)
  {
    StartFetches(q, s, buf);
  }

  lemma {:induction false} ReadTrace(G: Geometry, q: C.Config, m: seq<byte>, last: nat, buf: seq<byte>, tr: seq<C.RPoint>)
    requires q == C.Config(G.dir, G.ring, q.cap, G.rest) && (G.dir.M2S? ==> q.cap == G.cap)
    requires C.RTrace(q, tr) && G.ring.End() <= |m| && tr[0] == (m, C.BeginRead(q, m, last, buf))
    ensures C.RTrace(Conf(G), tr) && tr[0] == (m, C.BeginRead(Conf(G), m, last, buf))
  {
    if G.dir.S2M? { ServerReadTrace(q, G.cap, tr); }
  }

  lemma {:induction false} ReadTraced(q: C.Config, s: C.State, buf: seq<byte>, s1: C.State, tr: seq<C.RPoint>, s': C.State)
    requires C.Shaped(q, s) && s1 == C.Step(q, s, C.StartRead(buf)) && C.RTrace(q, tr) && tr[0] == (s1.mem, s1.r)
    requires s' == C.Run(q, s, [C.StartRead(buf)] + A.Times(C.StepRead, |tr| - 1))
    ensures s' == C.Run(q, s1, A.Times(C.StepRead, |tr| - 1)) && (s'.mem, s'.r) == tr[|tr| - 1] && s'.w == s1.w
  {
    ReadTraceIsRun(q, s1, tr);
    AfterStart(q, s, C.StartRead(buf), A.Times(C.StepRead, |tr| - 1));
  }

  /** The steps of a call of ReadPacket with a buffer of that length. */
  ghost predicate IsRead(acts: seq<C.Action>, len: nat) {
    exists buf, k: nat :: |buf| == len && acts == [C.StartRead(buf)] + A.Times(C.StepRead, k)
  }

  lemma UnreadIffMore(G: Geometry, s: C.State)
    requires Sane(G, s) && C.Shaped(Conf(G), s)
    ensures Unread(Conf(G), s) != 0 <==> |s.delivered| < |s.accepted|
  {
    var a :| Good(G, s, a);
    UnreadIff(G, s, a);
  }

  lemma StartReaches(G: Geometry, s: C.State, buf: seq<byte>, s1: C.State)
    requires C.Shaped(Conf(G), s) && s.r.RDone? && s1 == C.Step(Conf(G), s, C.StartRead(buf))
    requires Unread(Conf(G), s) != 0 <==> |s.delivered| < |s.accepted|
    ensures Reaching(G.rest, s, s1.r, |buf|)
  {
    StartedRead(Conf(G), s, buf, s1);
  }

  lemma ReadReaches(G: Geometry, s: C.State, acts: seq<C.Action>, len: nat)
    requires Sane(G, s) && C.Shaped(Conf(G), s) && s.r.RDone? && IsRead(acts, len)
    ensures Reaching(G.rest, s, C.Run(Conf(G), s, acts).r, len)
  {
    var buf, k: nat :| |buf| == len && acts == [C.StartRead(buf)] + A.Times(C.StepRead, k);
    var s1 := C.Step(Conf(G), s, C.StartRead(buf));
    UnreadIffMore(G, s);
    StartReaches(G, s, buf, s1);
    StartedRead(Conf(G), s, buf, s1);
    SaneStep(G, s, C.StartRead(buf));
    AfterStart(Conf(G), s, C.StartRead(buf), A.Times(C.StepRead, k));
    ReachingSteps(G, s, s1, buf, Unread(Conf(G), s) != 0, k, C.Run(Conf(G), s, acts));
  }

  /** A call of ReadPacket, to its return or its panic: its steps, and the packet delivered if there was one. */
  lemma {:induction false} ReadCall(G: Geometry, s: C.State, buf: seq<byte>, tr: seq<C.RPoint>)
    returns (acts: seq<C.Action>, s': C.State)
    requires C.Shaped(Conf(G), s) && s.r.RDone? && C.RTrace(Conf(G), tr)
    requires tr[0] == (s.mem, C.BeginRead(Conf(G), s.mem, s.r.last, buf))
    ensures s' == C.Run(Conf(G), s, acts) && (s'.mem, s'.r) == tr[|tr| - 1] && s'.w == s.w
    ensures Reading(s, s', buf, Unread(Conf(G), s) != 0) && IsRead(acts, |buf|)
  {
    var s1 := C.Step(Conf(G), s, C.StartRead(buf));
    acts := [C.StartRead(buf)] + A.Times(C.StepRead, |tr| - 1);
    s' := C.Run(Conf(G), s, acts);
    StartedRead(Conf(G), s, buf, s1);
    ReadTraced(Conf(G), s, buf, s1, tr, s');
    ReadSteps(Conf(G), s, s1, buf, Unread(Conf(G), s) != 0, |tr| - 1);
  }

  lemma RunStaysSane(G: Geometry, s: C.State, acts: seq<C.Action>)
    requires Sane(G, s) && C.Shaped(Conf(G), s)
    ensures Sane(G, C.Run(Conf(G), s, acts)) && Unharmed(C.Run(Conf(G), s, acts))
  {
    var a :| Good(G, s, a);
    GoodRun(G, s, a, acts);
    SaneIsSafe(G, C.Run(Conf(G), s, acts));
  }

  /** What ReadPacket handed back for a buffer of zeros: the packet, or nothing at all. */
  ghost predicate Handed(some: bool, n: nat, buf: seq<byte>, len: nat, got: seq<C.Output>) {
    if some then got == [C.Output(n, buf)] else got == [] && n == 0 && buf == seq(len, _ => 0)
  }

  /** ReadPacket on the receiving queue is a run of the reader; n and buf are what the call itself gave back. */
  method ReadOne(tx: Queue, rx: Queue, len: nat, ghost G: Geometry, ghost s: C.State)
    returns (ok: bool, n: nat, buf: seq<byte>, ghost got: seq<C.Output>, ghost acts: seq<C.Action>, ghost s': C.State)
    requires Ends(G, tx, rx) && Tied(tx, rx, s) && C.Shaped(Conf(G), s)
    modifies tx.data, rx`lastHead, rx`lastTail
    ensures s' == C.Run(Conf(G), s, acts) && IsRead(acts, len)
    ensures s'.accepted == s.accepted && s'.delivered == s.delivered + got
    ensures s'.returned == s.returned + if ok then 1 else 0
    ensures if ok then Handed(Unread(Conf(G), s) != 0, n, buf, len, got) else got == []
    ensures |buf| == len
    ensures if ok then Tied(tx, rx, s') else s'.r.RShort? || s'.r.RFault? || s'.r.RIncomplete?
  {
    var a := new byte[len](_ => 0);
    ghost var was := a[..];
    var r, tr := rx.ReadPacket(a);
    ReadTrace(G, rx.RxConfig(), s.mem, s.r.last, was, tr);
    acts, s' := ReadCall(G, s, was, tr);
    Delivered(s, s', was, Unread(Conf(G), s) != 0);
    ok, buf := r.Length?, a[..];
    n := if ok then r.n else 0;
    got := if Unread(Conf(G), s) != 0 && ok then [C.Output(n, buf)] else [];
  }

  /**
   ReadPacket on the receiving queue, for every buffer size: exactly one packet if one is left; none if none
   is, with 0 returned and the buffer as it was; or a panic, exactly if the last piece of that packet begins
   beyond the buffer.
   */
  method Receive(tx: Queue, rx: Queue, len: nat, ghost G: Geometry, ghost s: C.State)
    returns (ok: bool, n: nat, buf: seq<byte>, ghost got: seq<C.Output>, ghost acts: seq<C.Action>, ghost s': C.State)
    requires Ends(G, tx, rx) && Tied(tx, rx, s) && Sane(G, s) && C.Shaped(Conf(G), s)
    modifies tx.data, rx`lastHead, rx`lastTail
    ensures s' == C.Run(Conf(G), s, acts) && Sane(G, s')
    ensures s'.accepted == s.accepted && s'.delivered == s.delivered + got
    ensures |buf| == len && (ok <==> !Unreadable(G.rest, s, len))
    ensures ok ==> Tied(tx, rx, s') && s'.returned > 0 && Handed(|s.delivered| < |s.accepted|, n, buf, len, got)
    ensures !ok ==> s'.r.RShort? && got == [] && s'.returned == s.returned
  {
    UnreadIffMore(G, s);
    ok, n, buf, got, acts, s' := ReadOne(tx, rx, len, G, s);
    RunStaysSane(G, s, acts);
    ReadReaches(G, s, acts, len);
  }

  lemma Delivered(s: C.State, s': C.State, given: seq<byte>, some: bool)
    requires Reading(s, s', given, some) && s'.r.Halted()
    ensures s'.accepted == s.accepted && s'.w == s.w && s'.returned == s.returned + if s'.r.RDone? then 1 else 0
    ensures s'.delivered == s.delivered + if some && s'.r.RDone? then [C.Output(s'.r.off, s'.r.buf)] else []
    ensures s'.r.RDone? && !some ==> s'.r.off == 0 && s'.r.buf == given
  {
  }

  // ---- any series of calls

  function RingRoom(G: Geometry): nat { G.ring.Size() * G.cap }

  /** What ReadPacket gave back for a buffer of len zeros when the book was b. */
  ghost predicate Gave(b: Book, len: nat, n: nat, buf: seq<byte>) {
    |buf| == len && if b.queue == [] then n == 0 && buf == seq(len, _ => 0) else OutRel(n, buf, A.Concat(b.queue[0].chunks))
  }

  ghost predicate GaveAt(P: A.Params, calls: seq<Call>, ns: seq<nat>, bufs: seq<seq<byte>>, i: nat)
    requires i < |calls| == |ns| == |bufs|
  {
    calls[i].Take? ==> Gave(After(P, calls[..i]), calls[i].len, ns[i], bufs[i])
  }

  /** The same for all calls of a series. */
  ghost predicate AllGave(P: A.Params, calls: seq<Call>, ns: seq<nat>, bufs: seq<seq<byte>>) {
    |calls| == |ns| == |bufs| && forall i :: 0 <= i < |calls| ==> GaveAt(P, calls, ns, bufs, i)
  }

  lemma GaveNext(P: A.Params, calls: seq<Call>, ns: seq<nat>, bufs: seq<seq<byte>>, call: Call, n: nat, buf: seq<byte>)
    requires AllGave(P, calls, ns, bufs) && (call.Take? ==> Gave(After(P, calls), call.len, n, buf))
    ensures AllGave(P, calls + [call], ns + [n], bufs + [buf])
  {
    var cs, ms, bs := calls + [call], ns + [n], bufs + [buf];
    forall i | 0 <= i < |cs| ensures GaveAt(P, cs, ms, bs, i) {
      if i < |calls| {
        assert GaveAt(P, calls, ns, bufs, i) && cs[..i] == calls[..i];
      } else {
        assert cs[..i] == calls;
      }
    }
  }

  /** What the calls made so far have come to. */
  ghost predicate SoFar(G: Geometry, s: C.State, calls: seq<Call>, ns: seq<nat>, got: seq<C.Output>) {
    var P := G.Abs();
    && P.Valid() && got == s.delivered && ns == Counts(P, calls)
    && CallsRel(s.accepted, AllSent(P, calls), true) && |s.delivered| + |After(P, calls).queue| == |s.accepted|
    && (After(P, calls).open <==> G.dir.S2M? || s.returned > 0)
  }

  lemma SameSent(P: A.Params, cs: seq<C.Call>, xs: seq<A.Sent>, ys: seq<A.Sent>)
    requires CallsRel(cs, xs, true) && CallsRel(cs, ys, true) && Fine(P, xs) && Fine(P, ys)
    ensures xs == ys
  {
    forall i | 0 <= i < |cs| ensures xs[i] == ys[i] {
      assert CallRel(cs[i], xs[i], true) && CallRel(cs[i], ys[i], true);
      CutIs(P, xs[i]);
      CutIs(P, ys[i]);
    }
  }

  lemma {:induction false} FlatLens(xs: seq<A.Sent>)
    ensures |A.Flat(xs)| == |LensOf(xs)|
    decreases |xs|
  {
    if xs != [] {
      var n := |xs| - 1;
      assert xs == xs[..n] + [xs[n]];
      A.FlatAppend(xs[..n], xs[n]);
      FlatLens(xs[..n]);
    }
  }

  /** How many slots are free between calls. */
  lemma FreeCount(P: A.Params, a: A.State, b: Book)
    requires A.Inv(P, a) && a.r.RIdle? && BookOk(P, b, a.accepted) && |a.delivered| + |b.queue| == |a.accepted|
    requires b.open <==> P.dir.S2M? || a.returned > 0
    ensures a.lim - a.pub == |b.free|
  {
    assert A.Undelivered(a) == b.queue;
    FlatLens(b.queue);
  }

  lemma SameRooms(P: A.Params, h: seq<nat>, rooms: seq<nat>, rooms': seq<nat>)
    requires RoomsAfter(P, h, rooms) && RoomsAfter(P, h, rooms') && |rooms| == |rooms'|
    ensures rooms == rooms'
  {
  }

  lemma FreeGood(G: Geometry, s: C.State, a: A.State, calls: seq<Call>, ns: seq<nat>, got: seq<C.Output>)
    requires Good(G, s, a) && s.w.WDone? && s.r.RDone? && SoFar(G, s, calls, ns, got)
    ensures C.FreeRooms(Conf(G), s.mem) == After(G.Abs(), calls).free
  {
    var P, sent := G.Abs(), AllSent(G.Abs(), calls);
    BookAlways(P, calls);
    assert Fine(P, a.accepted);
    SameSent(P, s.accepted, a.accepted, sent);
    UsedLensAre(P, sent, s.accepted);
    GoodRooms(G, s, a);
    FreeCount(P, a, After(P, calls));
    SameRooms(P, LensOf(sent), C.FreeRooms(Conf(G), s.mem), After(P, calls).free);
  }

  /** The free slots in memory are those of the book, and offer what it says. */
  lemma FreeIs(G: Geometry, s: C.State, calls: seq<Call>, ns: seq<nat>, got: seq<C.Output>)
    requires Sane(G, s) && C.Shaped(Conf(G), s) && s.w.WDone? && s.r.RDone? && SoFar(G, s, calls, ns, got)
    ensures C.FreeRooms(Conf(G), s.mem) == After(G.Abs(), calls).free
  {
    var a :| Good(G, s, a);
    FreeGood(G, s, a, calls, ns, got);
  }

  lemma EntryIs(P: A.Params, b: Book, call: C.Call)
    requires call.rooms == b.free && call.n == |Joined(P.rest, call.pkt, call.rooms)|
    ensures CallRel(call, Entry(P, b, call.pkt), true)
  {
    A.ConcatLength(Cut(P.rest, call.pkt, call.rooms));
  }

  lemma SentOne(G: Geometry, s: C.State, calls: seq<Call>, ns: seq<nat>, got: seq<C.Output>, s': C.State, call: C.Call, fate: bool)
    requires SoFar(G, s, calls, ns, got) && Wrote(s, s', call, fate) && call.rooms == After(G.Abs(), calls).free
    requires Judged(G.Abs(), call, fate) && (fate ==> Counted(G.Abs(), call))
    ensures SoFar(G, s', calls + [Put(call.pkt)], ns + [call.n], got)
  {
    Next(G.Abs(), calls, Put(call.pkt));
    if fate { EntryIs(G.Abs(), After(G.Abs(), calls), call); }
  }

  lemma ReceivedOne(G: Geometry, s: C.State, calls: seq<Call>, ns: seq<nat>, got: seq<C.Output>,
                    s': C.State, out: seq<C.Output>, len: nat, n: nat)
    requires SoFar(G, s, calls, ns, got) && s'.accepted == s.accepted && s'.delivered == s.delivered + out
    requires s'.returned > 0 && |out| == if |s.delivered| < |s.accepted| then 1 else 0
    requires n == if out == [] then 0 else s.accepted[|s.delivered|].n
    ensures SoFar(G, s', calls + [Take(len)], ns + [n], got + out)
  {
    var P, d := G.Abs(), |s.delivered|;
    Next(P, calls, Take(len));
    BookAlways(P, calls);
    if out != [] {
      assert After(P, calls).queue[0] == AllSent(P, calls)[d] && CallRel(s.accepted[d], AllSent(P, calls)[d], true);
    }
  }

  lemma NoneReceived(G: Geometry, s: C.State, calls: seq<Call>, ns: seq<nat>, got: seq<C.Output>, s': C.State)
    requires SoFar(G, s, calls, ns, got) && s'.accepted == s.accepted && s'.delivered == s.delivered + []
    requires s'.returned == s.returned
    ensures SoFar(G, s', calls, ns, got)
  {
    assert s'.delivered == s.delivered;
  }

  /** A read panics exactly if the book says so. */
  lemma PanicIs(G: Geometry, s: C.State, calls: seq<Call>, ns: seq<nat>, got: seq<C.Output>, len: nat)
    requires SoFar(G, s, calls, ns, got)
    ensures Unreadable(G.rest, s, len) <==> Panics(After(G.Abs(), calls), Take(len))
  {
    var P, d := G.Abs(), |s.delivered|;
    BookAlways(P, calls);
    if d < |s.accepted| {
      var x := AllSent(P, calls)[d];
      assert After(P, calls).queue[0] == x && CallRel(s.accepted[d], x, true);
      CutIs(P, x);
    }
  }

  /** A call of the series that sends. */
  method PutOne(tx: Queue, rx: Queue, pkt: seq<byte>, ghost ns: seq<nat>, ghost got: seq<C.Output>, ghost calls: seq<Call>,
                ghost G: Geometry, ghost s: C.State)
    returns (n: nat, ghost more: seq<C.Action>, ghost s': C.State)
    requires Ends(G, tx, rx) && Tied(tx, rx, s) && Sane(G, s) && C.Shaped(Conf(G), s) && SoFar(G, s, calls, ns, got)
    modifies tx.data
    ensures s' == C.Run(Conf(G), s, more) && Sane(G, s') && Tied(tx, rx, s')
    ensures SoFar(G, s', calls + [Put(pkt)], ns + [n], got)
  {
    ghost var sent;
    FreeIs(G, s, calls, ns, got);
    n, sent, more, s' := Send(tx, rx, pkt, G, s);
    SentOne(G, s, calls, ns, got, s', C.Call(pkt, C.FreeRooms(Conf(G), s.mem), n), sent);
  }

  /** What a read returns is what the write of that packet returned. */
  lemma CountAgrees(G: Geometry, s: C.State, s': C.State, out: C.Output)
    requires Sane(G, s') && s'.accepted == s.accepted && s'.delivered == s.delivered + [out]
    ensures |s.delivered| < |s.accepted| && out.n == s.accepted[|s.delivered|].n
  {
    SaneIsSafe(G, s');
    assert InTurn(G.Abs(), s'.delivered[|s.delivered|], s'.accepted[|s.delivered|]);
  }

  /** What a call of the series that reads has come to. */
  lemma TookOne(G: Geometry, s: C.State, calls: seq<Call>, ns: seq<nat>, got: seq<C.Output>, s': C.State,
                out: seq<C.Output>, len: nat, n: nat, buf: seq<byte>)
    requires Sane(G, s') && SoFar(G, s, calls, ns, got) && s'.accepted == s.accepted && s'.delivered == s.delivered + out
    requires s'.returned > 0 && Handed(|s.delivered| < |s.accepted|, n, buf, len, out)
    ensures SoFar(G, s', calls + [Take(len)], ns + [n], got + out)
  {
    if out != [] {
      assert out == [out[0]];
      CountAgrees(G, s, s', out[0]);
    }
    ReceivedOne(G, s, calls, ns, got, s', out, len, n);
  }

  /** What the call gave back is what the ledger says. */
  lemma GaveOne(G: Geometry, s: C.State, calls: seq<Call>, ns: seq<nat>, got: seq<C.Output>, s': C.State,
                out: seq<C.Output>, len: nat, n: nat, buf: seq<byte>)
    requires Sane(G, s') && SoFar(G, s, calls, ns, got) && s'.accepted == s.accepted && s'.delivered == s.delivered + out
    requires Handed(|s.delivered| < |s.accepted|, n, buf, len, out) && |buf| == len
    ensures Gave(After(G.Abs(), calls), len, n, buf)
  {
    var P, d := G.Abs(), |s.delivered|;
    BookAlways(P, calls);
    if d < |s.accepted| {
      var x := AllSent(P, calls)[d];
      SaneIsSafe(G, s');
      assert After(P, calls).queue[0] == x && CallRel(s.accepted[d], x, true);
      assert s'.delivered[d] == C.Output(n, buf) && InTurn(P, s'.delivered[d], s'.accepted[d]);
      CutIs(P, x);
    }
  }

  /** A call of the series that reads: n and buf are what ReadPacket gave back. */
  method TakeOne(tx: Queue, rx: Queue, len: nat, ghost ns: seq<nat>, ghost got: seq<C.Output>, ghost calls: seq<Call>,
                 ghost G: Geometry, ghost s: C.State)
    returns (ok: bool, n: nat, buf: seq<byte>, ghost got': seq<C.Output>, ghost more: seq<C.Action>, ghost s': C.State)
    requires Ends(G, tx, rx) && Tied(tx, rx, s) && Sane(G, s) && C.Shaped(Conf(G), s) && SoFar(G, s, calls, ns, got)
    modifies tx.data, rx`lastHead, rx`lastTail
    ensures s' == C.Run(Conf(G), s, more) && Sane(G, s') && (ok ==> Tied(tx, rx, s'))
    ensures ok <==> !Panics(After(G.Abs(), calls), Take(len))
    ensures ok ==> Gave(After(G.Abs(), calls), len, n, buf)
    ensures if ok then SoFar(G, s', calls + [Take(len)], ns + [n], got') else SoFar(G, s', calls, ns, got')
  {
    ghost var out;
    PanicIs(G, s, calls, ns, got, len);
    ok, n, buf, out, more, s' := Receive(tx, rx, len, G, s);
    if ok {
      TookOne(G, s, calls, ns, got, s', out, len, n, buf);
      GaveOne(G, s, calls, ns, got, s', out, len, n, buf);
      got' := got + out;
    } else {
      NoneReceived(G, s, calls, ns, got, s');
      got' := got;
    }
  }

  /** Call i of the series panics. */
  predicate Stops(P: A.Params, calls: seq<Call>, i: nat)
    requires i < |calls|
  {
    Panics(After(P, calls[..i]), calls[i])
  }

  /** The first n calls do not panic. */
  ghost predicate Calm(P: A.Params, calls: seq<Call>, n: nat)
    requires n <= |calls|
  {
    forall i :: 0 <= i < n ==> !Stops(P, calls, i)
  }

  lemma StopsIs(P: A.Params, calls: seq<Call>, i: nat, made: seq<Call>)
    requires i < |calls| && made == calls[..i]
    ensures Stops(P, calls, i) <==> Panics(After(P, made), calls[i])
  {
  }

  lemma CalmMore(P: A.Params, calls: seq<Call>, n: nat, made: seq<Call>)
    requires n < |calls| && Calm(P, calls, n) && !Stops(P, calls, n) && made == calls[..n]
    ensures Calm(P, calls, n + 1) && made + [calls[n]] == calls[..n + 1]
  {
  }

  /** The next call of the series. */
  method Turn(tx: Queue, rx: Queue, call: Call, ghost ns: seq<nat>, ghost got: seq<C.Output>, ghost calls: seq<Call>,
              ghost G: Geometry, ghost s: C.State)
    returns (ok: bool, n: nat, buf: seq<byte>, ghost got': seq<C.Output>, ghost more: seq<C.Action>, ghost s': C.State)
    requires Ends(G, tx, rx) && Tied(tx, rx, s) && Sane(G, s) && C.Shaped(Conf(G), s) && SoFar(G, s, calls, ns, got)
    modifies tx.data, rx`lastHead, rx`lastTail
    ensures s' == C.Run(Conf(G), s, more) && Sane(G, s') && (ok ==> Tied(tx, rx, s'))
    ensures ok <==> !Panics(After(G.Abs(), calls), call)
    ensures ok && call.Take? ==> Gave(After(G.Abs(), calls), call.len, n, buf)
    ensures if ok then SoFar(G, s', calls + [call], ns + [n], got') else SoFar(G, s', calls, ns, got')
  {
    match call
    case Put(pkt) =>
      ok, buf, got' := true, [], got;
      n, more, s' := PutOne(tx, rx, pkt, ns, got, calls, G, s);
    case Take(len) => ok, n, buf, got', more, s' := TakeOne(tx, rx, len, ns, got, calls, G, s);
  }

  /** The calls one after the other, up to the first that does not return. */
  method Series(tx: Queue, rx: Queue, calls: seq<Call>, ghost G: Geometry, ghost c: C.State)
    returns (done: nat, ns: seq<nat>, bufs: seq<seq<byte>>, ghost got: seq<C.Output>, ghost s: C.State)
    requires Ends(G, tx, rx) && Tied(tx, rx, c) && Sane(G, c) && C.Shaped(Conf(G), c) && SoFar(G, c, [], [], [])
    modifies tx.data, rx`lastHead, rx`lastTail
    ensures done <= |calls| && Sane(G, s) && SoFar(G, s, calls[..done], ns, got) && Calm(G.Abs(), calls, done)
    ensures AllGave(G.Abs(), calls[..done], ns, bufs)
    ensures done < |calls| ==> Stops(G.Abs(), calls, done)
  {
    s := c;
    ghost var more, made := [], [];
    done, ns, bufs, got := 0, [], [], [];
    var ok := true;
    while done < |calls| && ok
      invariant done <= |calls| && Sane(G, s) && C.Shaped(Conf(G), s) && (ok ==> Tied(tx, rx, s))
      invariant made == calls[..done] && SoFar(G, s, made, ns, got) && Calm(G.Abs(), calls, done)
      invariant AllGave(G.Abs(), made, ns, bufs)
      invariant !ok ==> done < |calls| && Stops(G.Abs(), calls, done)
      decreases |calls| - done, ok
    {
      var n, buf;
      ok, n, buf, got, more, s := Turn(tx, rx, calls[done], ns, got, made, G, s);
      StopsIs(G.Abs(), calls, done, made);
      if ok {
        CalmMore(G.Abs(), calls, done, made);
        GaveNext(G.Abs(), made, ns, bufs, calls[done], n, buf);
        made, ns, bufs := made + [calls[done]], ns + [n], bufs + [buf];
        done := done + 1;
      }
    }
  }

  /** The packets read are the first of the packets sent, all but those still queued. */
  ghost predicate Exchanged(P: A.Params, calls: seq<Call>, got: seq<C.Output>)
    requires P.Valid()
  {
    var sent := AllSent(P, calls);
    && |got| + |After(P, calls).queue| == |sent|
    && forall i :: 0 <= i < |got| ==> Received(P, got[i], C.Call(sent[i].pkt, sent[i].rooms, got[i].n))
  }

  lemma SafeExchange(G: Geometry, s: C.State, calls: seq<Call>, ns: seq<nat>, got: seq<C.Output>)
    requires Sane(G, s) && SoFar(G, s, calls, ns, got)
    ensures Exchanged(G.Abs(), calls, got)
  {
    var P, sent := G.Abs(), AllSent(G.Abs(), calls);
    SaneIsSafe(G, s);
    forall i | 0 <= i < |got| ensures Received(P, got[i], C.Call(sent[i].pkt, sent[i].rooms, got[i].n)) {
      assert InTurn(P, s.delivered[i], s.accepted[i]) && CallRel(s.accepted[i], sent[i], true);
    }
  }

  /**
   Any series of WritePacket and ReadPacket calls of two queue objects at the ends of a fresh ring, for every
   buffer size: what each call returns and leaves in its buffer, which packets go in, and where the series stops
   with a panic are what the ledger says of the calls before.
   */
  method Exchange(tx: Queue, rx: Queue, calls: seq<Call>, ghost G: Geometry, ghost c: C.State)
    returns (done: nat, ns: seq<nat>, bufs: seq<seq<byte>>, ghost got: seq<C.Output>)
    requires Ends(G, tx, rx) && Tied(tx, rx, c) && Fresh(G, c)
    modifies tx.data, rx`lastHead, rx`lastTail
    ensures done <= |calls| && ns == Counts(G.Abs(), calls[..done]) && Exchanged(G.Abs(), calls[..done], got)
    ensures AllGave(G.Abs(), calls[..done], ns, bufs)
    ensures Calm(G.Abs(), calls, done) && (done < |calls| ==> Stops(G.Abs(), calls, done))
    ensures done < |calls| ==> calls[done].Take? && calls[done].len < RingRoom(G)
  {
    FreshIsSane(G, c);
    StartSoFar(G, c);
    ghost var s;
    done, ns, bufs, got, s := Series(tx, rx, calls, G, c);
    SafeExchange(G, s, calls[..done], ns, got);
    if done < |calls| { PanicIsShort(G.Abs(), calls[..done], calls[done]); }
  }

  lemma StartSoFar(G: Geometry, c: C.State)
    requires Fresh(G, c)
    ensures SoFar(G, c, [], [], []) && C.Shaped(Conf(G), c)
  {
  }
}
