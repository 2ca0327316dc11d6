/** What holds of every run of WritePacket and ReadPacket on one ring of shared memory. */
module DataPath {
  import opened Arith
  import opened Bytes
  import opened Capacity
  import opened Refinement
  import opened RingMemory
  import A = RingProtocol
  import C = RingSteps

  /** A ring as initializeQueues leaves it, no call made yet. */
  ghost predicate Fresh(G: Geometry, c: C.State) {
    && G.Laid(c.mem) && ReadHead(G.ring, c.mem) == 0 && ReadTail(G.ring, c.mem) == 0
    && (forall i :: 0 <= i < G.ring.Size() ==> G.CellAt(c.mem, i).len == G.cap)
    && c.w.WDone? && c.r.RDone? && c.r.last == 0
    && c.accepted == [] && c.rejected == [] && c.delivered == [] && !c.incomplete
    && c.consumed == 0 && c.returned == 0 && c.refilled == 0
  }

  ghost function Start(G: Geometry, m: seq<byte>): A.State
    requires G.Laid(m)
  {
    A.State(G.Cells(m), 0, if G.dir.S2M? then G.ring.Size() else 0, A.WIdle, A.RIdle(0), [], [], [], false, 0, 0)
  }

  function AbsActs(acts: seq<C.Action>): (r: seq<A.Action>)
    ensures |r| == |acts|
  {
    seq(|acts|, i requires 0 <= i < |acts| => AbsAct(acts[i]))
  }

  lemma FreshStart(G: Geometry, c: C.State)
    requires Fresh(G, c)
    ensures A.Initial(G.Abs(), Start(G, c.mem)) && Rel(G, c, Start(G, c.mem))
  {
    forall i | 0 <= i < G.ring.Size() ensures G.Cells(c.mem)[i].len == G.cap {
      assert G.Cells(c.mem)[i] == G.CellAt(c.mem, i);
    }
  }

  /** A whole byte-level run follows a run of the protocol. */
  lemma {:induction false} RunRefines(G: Geometry, c: C.State, a: A.State, acts: seq<C.Action>)
    requires Rel(G, c, a) && A.Inv(G.Abs(), a)
    ensures A.Inv(G.Abs(), A.Run(G.Abs(), a, AbsActs(acts)))
    ensures Rel(G, C.Run(Conf(G), c, acts), A.Run(G.Abs(), a, AbsActs(acts)))
    decreases |acts|
  {
    if acts != [] {
      var pre, last := acts[..|acts| - 1], acts[|acts| - 1];
      RunRefines(G, c, a, pre);
      AbsRunStep(G.Abs(), a, acts);
      var c', a' := C.Run(Conf(G), c, pre), A.Run(G.Abs(), a, AbsActs(pre));
      StepRefines(G, c', a', last);
      A.StepKeepsInv(G.Abs(), a', AbsAct(last));
    }
  }

  lemma AbsRunStep(P: A.Params, a: A.State, acts: seq<C.Action>)
    requires A.Shaped(P, a) && acts != []
    ensures A.Run(P, a, AbsActs(acts)) ==
            A.Step(P, A.Run(P, a, AbsActs(acts[..|acts| - 1])), AbsAct(acts[|acts| - 1]))
  {
    assert AbsActs(acts)[..|acts| - 1] == AbsActs(acts[..|acts| - 1]);
  }

  /** The protocol state behind a run from a fresh ring. */
  ghost function Behind(G: Geometry, c: C.State, acts: seq<C.Action>): A.State
    requires Fresh(G, c)
  {
    A.Run(G.Abs(), Start(G, c.mem), AbsActs(acts))
  }

  /** a is a protocol state, with the invariants, that s stands for. */
  ghost predicate Good(G: Geometry, s: C.State, a: A.State) {
    Rel(G, s, a) && A.Inv(G.Abs(), a) && Whole(G.Abs(), a)
  }

  lemma GoodRun(G: Geometry, s: C.State, a: A.State, acts: seq<C.Action>)
    requires Good(G, s, a)
    ensures Good(G, C.Run(Conf(G), s, acts), A.Run(G.Abs(), a, AbsActs(acts)))
  {
    RunRefines(G, s, a, acts);
    RunKeepsOffered(G.Abs(), a, AbsActs(acts));
  }

  lemma InitialWhole(P: A.Params, s: A.State)
    requires A.Initial(P, s)
    ensures Whole(P, s)
  {
  }

  lemma RunFromFresh(G: Geometry, c: C.State, acts: seq<C.Action>)
    requires Fresh(G, c)
    ensures Good(G, C.Run(Conf(G), c, acts), Behind(G, c, acts))
  {
    FreshStart(G, c);
    A.InitialInv(G.Abs(), Start(G, c.mem));
    InitialWhole(G.Abs(), Start(G, c.mem));
    GoodRun(G, c, Start(G, c.mem), acts);
  }

  // ---- safety

  /** No access has left the region and no read has met a broken chain. */
  ghost predicate Unharmed(s: C.State) {
    !s.w.WFault? && !s.r.RFault? && !s.incomplete && !s.r.RIncomplete?
  }

  /** The slot that the writer's next step reads or writes, if it is a descriptor or buffer access. */
  ghost predicate WriterAt(w: C.Writer, x: nat) { (w.WGet? || w.WCopy? || w.WPut?) && x == w.slot }

  ghost predicate ReaderAt(r: C.Reader, y: nat) {
    ((r.RGet? || r.RCopy?) && y == r.slot) || (r.RRefill? && r.todo > 0 && y == r.head)
  }

  /** The next accesses of the two peers fall on different slots of the table. */
  ghost predicate Separate(G: Geometry, s: C.State) {
    forall x, y :: WriterAt(s.w, x) && ReaderAt(s.r, y) ==> G.ring.Slot(x) != G.ring.Slot(y)
  }

  lemma ApartBehind(G: Geometry, w: C.Writer, r: C.Reader, a: A.State, x: nat, y: nat)
    requires G.Valid() && A.Inv(G.Abs(), a) && WriterRel(G, w, a.w) && ReaderRel(G, r, a.r)
    requires WriterAt(w, x) && ReaderAt(r, y)
    ensures G.ring.Slot(x) != G.ring.Slot(y)
  {
    var t, u := a.w.job.slot, if r.RRefill? then a.r.head else a.r.slot;
    SlotIsAt(G, x, t);
    SlotIsAt(G, y, u);
    A.NoSharedCell(G.Abs(), a, t, u);
  }

  lemma GoodIsSafe(G: Geometry, s: C.State, a: A.State)
    requires Good(G, s, a)
    ensures Unharmed(s) && Separate(G, s)
  {
    forall x, y | WriterAt(s.w, x) && ReaderAt(s.r, y) ensures G.ring.Slot(x) != G.ring.Slot(y) {
      ApartBehind(G, s.w, s.r, a, x, y);
    }
  }

  /** In no run does a memory access leave the region or a read meet a broken chain. */
  lemma NoFault(G: Geometry, c: C.State, acts: seq<C.Action>)
    requires Fresh(G, c)
    ensures Unharmed(C.Run(Conf(G), c, acts))
  {
    RunFromFresh(G, c, acts);
    GoodIsSafe(G, C.Run(Conf(G), c, acts), Behind(G, c, acts));
  }

  /** In no interleaving do the two peers' next accesses fall on the same slot of the table. */
  lemma PeersApart(G: Geometry, c: C.State, acts: seq<C.Action>)
    requires Fresh(G, c)
    ensures Separate(G, C.Run(Conf(G), c, acts))
  {
    RunFromFresh(G, c, acts);
    GoodIsSafe(G, C.Run(Conf(G), c, acts), Behind(G, c, acts));
  }

  // ---- first in, first out

  /**
   What ReadPacket returned against the call: the pieces that the slots on offer cut the packet into, joined.
   When every free slot offers the whole buffer, and for the copy that goes on where the last one ended, that
   is Wire; and it is the packet itself up to the least length that a slot can offer.
   */
  ghost predicate Received(P: A.Params, out: C.Output, call: C.Call)
    requires P.Valid()
  {
    && OutRel(out.n, out.buf, Joined(P.rest, call.pkt, call.rooms))
    && (P.rest || P.Regular() ==> OutRel(out.n, out.buf, Wire(P, call.pkt)))
    && (|call.pkt| <= Least(P) ==> OutRel(out.n, out.buf, call.pkt))
  }

  /** The i-th packet read is the i-th accepted, and ReadPacket returned the length that WritePacket returned for it. */
  ghost predicate InTurn(P: A.Params, out: C.Output, call: C.Call)
    requires P.Valid()
  {
    Received(P, out, call) && out.n == call.n
  }

  /** The packets read are the first packets accepted, in order, none lost, repeated or invented. */
  ghost predicate InOrder(P: A.Params, s: C.State)
    requires P.Valid()
  {
    && |s.delivered| <= |s.accepted|
    && forall i :: 0 <= i < |s.delivered| ==> InTurn(P, s.delivered[i], s.accepted[i])
  }

  /** The pieces of an accepted packet, joined, are what the ring carries for it. */
  lemma Carried(P: A.Params, x: A.Sent)
    requires P.Valid() && A.SentOk(P, x) && Even(P, x)
    ensures P.rest || P.Regular() ==> A.Concat(x.chunks) == Wire(P, x.pkt)
    ensures |x.pkt| <= Least(P) ==> A.Concat(x.chunks) == x.pkt
    ensures |A.Concat(x.chunks)| == A.Total(x.chunks) && A.Concat(x.chunks) == Joined(P.rest, x.pkt, x.rooms)
  {
    A.ConcatLength(x.chunks);
    CutIs(P, x);
    if !P.rest {
      if P.Regular() { AcceptedShape(P, x); }
      if |x.pkt| <= Least(P) { LeastIsExact(P, x); }
    }
  }

  lemma GoodIsInOrder(G: Geometry, s: C.State, a: A.State)
    requires Good(G, s, a)
    ensures InOrder(G.Abs(), s)
  {
    forall i | 0 <= i < |s.delivered| ensures InTurn(G.Abs(), s.delivered[i], s.accepted[i]) {
      var x := a.accepted[i];
      assert A.SentOk(G.Abs(), x) && CallRel(s.accepted[i], x, true) && Even(G.Abs(), x);
      Carried(G.Abs(), x);
      assert a.delivered[i] == A.Concat(x.chunks) && OutRel(s.delivered[i].n, s.delivered[i].buf, a.delivered[i]);
    }
  }

  /**
   First in, first out over every interleaving of the two peers of a ring, for every buffer size: each packet
   read is the next packet accepted, made of the pieces that the slots on offer cut it into.
   */
  lemma Fifo(G: Geometry, c: C.State, acts: seq<C.Action>)
    requires Fresh(G, c)
    ensures InOrder(G.Abs(), C.Run(Conf(G), c, acts))
  {
    RunFromFresh(G, c, acts);
    GoodIsInOrder(G, C.Run(Conf(G), c, acts), Behind(G, c, acts));
  }

  /** A copy that goes on where the last one ended delivers packets of every length over every buffer size. */
  lemma RestIsExact(G: Geometry, c: C.State, acts: seq<C.Action>, i: nat)
    requires Fresh(G, c) && G.rest && i < |C.Run(Conf(G), c, acts).delivered|
    ensures i < |C.Run(Conf(G), c, acts).accepted|
    ensures var s := C.Run(Conf(G), c, acts);
            var out, pkt := s.delivered[i], s.accepted[i].pkt;
            out.n == |pkt| && (|pkt| <= |out.buf| ==> out.buf[..out.n] == pkt)
  {
    Fifo(G, c, acts);
    var s := C.Run(Conf(G), c, acts);
    assert InTurn(G.Abs(), s.delivered[i], s.accepted[i]);
  }

  /** The code's copy delivers a packet that no slot can cut byte for byte into a buffer that holds it. */
  lemma ByteExact(G: Geometry, c: C.State, acts: seq<C.Action>, i: nat)
    requires Fresh(G, c) && i < |C.Run(Conf(G), c, acts).delivered|
    ensures i < |C.Run(Conf(G), c, acts).accepted|
    ensures var s := C.Run(Conf(G), c, acts);
            var out, pkt := s.delivered[i], s.accepted[i].pkt;
            |pkt| <= Least(G.Abs()) && |pkt| <= |out.buf| ==> out.n == |pkt| && out.buf[..out.n] == pkt
  {
    Fifo(G, c, acts);
    var s := C.Run(Conf(G), c, acts);
    assert InTurn(G.Abs(), s.delivered[i], s.accepted[i]);
  }

  /** What WritePacket returns for an accepted packet is the number of bytes sent: at least the packet's length. */
  lemma ReturnsBytesSent(G: Geometry, c: C.State, acts: seq<C.Action>, s: C.State, i: nat)
    requires Fresh(G, c) && s == C.Run(Conf(G), c, acts) && i < |s.accepted|
    ensures var call := s.accepted[i];
            && |call.pkt| <= call.n == |Joined(G.rest, call.pkt, call.rooms)|
            && (i < |s.delivered| ==> s.delivered[i].n == call.n)
            && (G.rest || G.Abs().Regular() ==> call.n == |Wire(G.Abs(), call.pkt)|)
            && (|call.pkt| <= Least(G.Abs()) ==> call.n == |call.pkt|)
  {
    RunFromFresh(G, c, acts);
    var x := Behind(G, c, acts).accepted[i];
    assert A.SentOk(G.Abs(), x) && CallRel(s.accepted[i], x, true) && Even(G.Abs(), x);
    Carried(G.Abs(), x);
    Fifo(G, c, acts);
    if i < |s.delivered| { assert InTurn(G.Abs(), s.delivered[i], s.accepted[i]); }
  }

  // ---- which writes are accepted

  /** As many free slots as the packet has buffers' worth. */
  ghost predicate Fits(call: C.Call, cap: nat)
    requires cap > 0
  {
    NumSlots(|call.pkt|, cap) <= |call.rooms|
  }

  /** A call as accepted or turned away, against what the free slots offered at its start. */
  ghost predicate Judged(P: A.Params, call: C.Call, sent: bool)
    requires P.Valid()
  {
    (sent <==> Suffices(call.rooms, |call.pkt|)) && (P.Regular() ==> (sent <==> Fits(call, P.cap)))
  }

  lemma AcceptedJudged(P: A.Params, call: C.Call, x: A.Sent)
    requires P.Valid() && A.SentOk(P, x) && Even(P, x) && CallRel(call, x, true)
    ensures Judged(P, call, true)
  {
    AcceptedSuffices(P, x);
    if P.Regular() { AcceptedShape(P, x); }
  }

  lemma RejectedJudged(P: A.Params, call: C.Call, x: A.Sent)
    requires P.Valid() && A.RejectOk(P, x) && Even(P, x) && CallRel(call, x, false)
    ensures Judged(P, call, false)
  {
    RejectedFallsShort(P, x);
    if P.Regular() { RejectedShape(P, x); }
  }

  /**
   For every buffer size a write is accepted exactly when a slot was free at its start and the free slots
   together offered the packet's length; with whole slots, exactly when as many were free as it needs.
   */
  lemma AcceptedIffRoom(G: Geometry, c: C.State, acts: seq<C.Action>, call: C.Call)
    requires Fresh(G, c)
    ensures G.Abs().Valid()
    ensures call in C.Run(Conf(G), c, acts).accepted ==> Judged(G.Abs(), call, true)
    ensures call in C.Run(Conf(G), c, acts).rejected ==> Judged(G.Abs(), call, false)
  {
    RunFromFresh(G, c, acts);
    var s, a := C.Run(Conf(G), c, acts), Behind(G, c, acts);
    if call in s.accepted { GoodAccepted(G, s, a, call); }
    if call in s.rejected { GoodRejected(G, s, a, call); }
  }

  lemma GoodAccepted(G: Geometry, s: C.State, a: A.State, call: C.Call)
    requires Good(G, s, a) && call in s.accepted
    ensures Judged(G.Abs(), call, true)
  {
    var i :| 0 <= i < |s.accepted| && s.accepted[i] == call;
    assert A.SentOk(G.Abs(), a.accepted[i]) && Even(G.Abs(), a.accepted[i]) && CallRel(call, a.accepted[i], true);
    AcceptedJudged(G.Abs(), call, a.accepted[i]);
  }

  lemma GoodRejected(G: Geometry, s: C.State, a: A.State, call: C.Call)
    requires Good(G, s, a) && call in s.rejected
    ensures Judged(G.Abs(), call, false)
  {
    var i :| 0 <= i < |s.rejected| && s.rejected[i] == call;
    assert A.RejectOk(G.Abs(), a.rejected[i]) && Even(G.Abs(), a.rejected[i]) && CallRel(call, a.rejected[i], false);
    RejectedJudged(G.Abs(), call, a.rejected[i]);
  }

  // ---- published slots and refused writes

  function ReadIndex(r: C.Reader): nat { if r.RFault? then 0 else r.last }

  /** How many slots are published and not yet consumed. */
  function Unread(q: C.Config, s: C.State): nat
    requires q.ring.End() <= |s.mem|
  {
    (C.WriteIndex(q, s.mem) - ReadIndex(s.r)) % TWO16
  }

  function PacketsOf(calls: seq<C.Call>): (pkts: seq<A.Packet>)
    ensures |pkts| == |calls| && forall i :: 0 <= i < |calls| ==> pkts[i] == calls[i].pkt
  {
    if calls == [] then [] else PacketsOf(calls[..|calls| - 1]) + [calls[|calls| - 1].pkt]
  }

  /** The slots that packets take when every slot offers the whole buffer. */
  function SlotsOf(pkts: seq<A.Packet>, cap: nat): nat
    requires cap > 0
  {
    if pkts == [] then 0 else SlotsOf(pkts[..|pkts| - 1], cap) + NumSlots(|pkts[|pkts| - 1]|, cap)
  }

  lemma UnreadFrom(q: C.Config, s: C.State, last: nat, pub: nat)
    requires q.ring.End() <= |s.mem| && last <= pub < last + TWO16
    requires ReadIndex(s.r) == last % TWO16 && C.WriteIndex(q, s.mem) == pub % TWO16
    ensures Unread(q, s) == pub - last
  {
    Difference(last, pub, ReadIndex(s.r), C.WriteIndex(q, s.mem));
  }

  lemma UnreadIs(G: Geometry, s: C.State, a: A.State)
    requires Good(G, s, a)
    ensures Unread(Conf(G), s) == a.pub - a.r.last
  {
    SizeFits(G);
    UnreadFrom(Conf(G), s, a.r.last, a.pub);
  }

  lemma FlatNext(P: A.Params, xs: seq<A.Sent>, calls: seq<C.Call>, n: nat)
    requires P.Valid() && n < |xs| == |calls| && |A.Flat(xs[..n])| == SlotsOf(PacketsOf(calls[..n]), P.cap)
    requires |xs[n].chunks| == NumSlots(|calls[n].pkt|, P.cap)
    ensures |A.Flat(xs[..n + 1])| == SlotsOf(PacketsOf(calls[..n + 1]), P.cap)
  {
    assert xs[..n + 1] == xs[..n] + [xs[n]];
    A.FlatAppend(xs[..n], xs[n]);
    assert PacketsOf(calls[..n + 1])[..n] == PacketsOf(calls[..n]);
  }

  lemma {:induction false} FlatSlots(P: A.Params, xs: seq<A.Sent>, calls: seq<C.Call>, n: nat)
    requires P.Regular() && CallsRel(calls, xs, true) && n <= |xs|
    requires forall i :: 0 <= i < |xs| ==> A.SentOk(P, xs[i]) && Even(P, xs[i])
    ensures |A.Flat(xs[..n])| == SlotsOf(PacketsOf(calls[..n]), P.cap)
    decreases n
  {
    if n > 0 {
      FlatSlots(P, xs, calls, n - 1);
      assert CallRel(calls[n - 1], xs[n - 1], true);
      AcceptedShape(P, xs[n - 1]);
      FlatNext(P, xs, calls, n - 1);
    }
  }

  /** With whole slots the slots consumed are those that the delivered packets need. */
  lemma ConsumedIs(G: Geometry, s: C.State, a: A.State)
    requires Good(G, s, a) && G.Abs().Regular()
    ensures |s.delivered| <= |s.accepted| && s.consumed == SlotsOf(PacketsOf(s.accepted[..|s.delivered|]), G.cap)
  {
    var n := |s.delivered|;
    FlatSlots(G.Abs(), a.accepted, s.accepted, n);
  }

  /** What the indices in memory say about the protocol state. */
  lemma IndicesAre(G: Geometry, s: C.State, a: A.State)
    requires Good(G, s, a)
    ensures G.Valid() && |s.mem| == G.total && A.Placed(G.Abs(), a) && |s.accepted| == |a.accepted|
    ensures ReadIndex(s.r) == a.r.last % TWO16 && C.WriteIndex(Conf(G), s.mem) == a.pub % TWO16
    ensures Unread(Conf(G), s) == a.pub - a.r.last
    ensures s.consumed == a.r.last
  {
    A.InvPlaced(G.Abs(), a);
    UnreadIs(G, s, a);
  }

  /** Flags, length and buffer of slot x are the same in both memories. */
  ghost predicate SameSlot(G: Geometry, m: seq<byte>, m': seq<byte>, x: nat)
    requires G.Valid() && |m| == |m'| == G.total
  {
    G.CellAt(m', G.ring.Slot(x)) == G.CellAt(m, G.ring.Slot(x))
  }

  lemma SameCell(G: Geometry, m: seq<byte>, m': seq<byte>, x: nat, t: nat, i: nat)
    requires G.Valid() && |m| == |m'| == G.total && Cong(x, t) && i == A.At(G.Abs(), t)
    requires G.Cells(m')[i] == G.Cells(m)[i]
    ensures SameSlot(G, m, m', x)
  {
    SlotIsAt(G, x, t);
    assert G.Cells(m)[i] == G.CellAt(m, i) && G.Cells(m')[i] == G.CellAt(m', i);
  }

  lemma SlotAhead(G: Geometry, m: seq<byte>, a: A.State, m': seq<byte>, a': A.State, base: nat, t: nat, x: nat)
    requires MemRel(G, m, a) && MemRel(G, m', a') && base <= t && x == base % TWO16 + (t - base)
    requires a'.cells[A.At(G.Abs(), t)] == a.cells[A.At(G.Abs(), t)]
    ensures SameSlot(G, m, m', x)
  {
    CongPlus(base, t - base);
    SameCell(G, m, m', x, t, A.At(G.Abs(), t));
  }

  /** The slots from base on, seen from the wrapped index. */
  lemma SlotsAhead(G: Geometry, m: seq<byte>, a: A.State, m': seq<byte>, a': A.State, base: nat, hi: nat, x: nat)
    requires MemRel(G, m, a) && MemRel(G, m', a') && A.SameCells(G.Abs(), a, a', base, hi)
    requires base % TWO16 <= x < base % TWO16 + (hi - base)
    ensures SameSlot(G, m, m', x)
  {
    var t := base + (x - base % TWO16);
    assert a'.cells[A.At(G.Abs(), t)] == a.cells[A.At(G.Abs(), t)];
    SlotAhead(G, m, a, m', a', base, t, x);
  }

  lemma StaysIf(G: Geometry, m: seq<byte>, a: A.State, m': seq<byte>, a': A.State, k: nat, x: nat)
    requires MemRel(G, m, a) && MemRel(G, m', a') && A.SameCells(G.Abs(), a, a', a'.r.last, a.pub)
    requires k < a.pub - a.r.last && x == a.r.last % TWO16 + k
    ensures a'.r.last <= a.r.last + k ==> SameSlot(G, m, m', x)
  {
    var t := a.r.last + k;
    if a'.r.last <= t {
      assert a'.cells[A.At(G.Abs(), t)] == a.cells[A.At(G.Abs(), t)];
      SlotAhead(G, m, a, m', a', a.r.last, t, x);
    }
  }

  /** Two states of a run: what their bytes and indices say. */
  ghost predicate Related(G: Geometry, s: C.State, a: A.State, s': C.State, a': A.State) {
    && MemRel(G, s.mem, a) && MemRel(G, s'.mem, a') && A.SameCells(G.Abs(), a, a', a'.r.last, a.pub)
    && ReadIndex(s.r) == a.r.last % TWO16 && Unread(Conf(G), s) == a.pub - a.r.last
  }

  lemma RunRelates(G: Geometry, s: C.State, a: A.State, more: seq<C.Action>, a': A.State)
    requires Good(G, s, a) && a' == A.Run(G.Abs(), a, AbsActs(more))
    ensures Related(G, s, a, C.Run(Conf(G), s, more), a')
    ensures s.consumed == a.r.last && C.Run(Conf(G), s, more).consumed == a'.r.last
  {
    GoodRun(G, s, a, more);
    IndicesAre(G, s, a);
    A.UnreadAreStable(G.Abs(), a, AbsActs(more), a');
  }

  lemma StayGood(G: Geometry, s: C.State, a: A.State, s': C.State, a': A.State, k: nat)
    requires Related(G, s, a, s', a') && k < Unread(Conf(G), s)
    requires s.consumed == a.r.last && s'.consumed == a'.r.last
    ensures s'.consumed <= s.consumed + k ==> SameSlot(G, s.mem, s'.mem, ReadIndex(s.r) + k)
  {
    StaysIf(G, s.mem, a, s'.mem, a', k, ReadIndex(s.r) + k);
  }

  /**
   A run that goes on from s: the k-th unread slot of s keeps its bytes for as long as no more than k slots
   have been consumed since.
   */
  lemma PublishedBytesStay(G: Geometry, c: C.State, acts: seq<C.Action>, s: C.State, more: seq<C.Action>, s': C.State,
                           k: nat)
    requires Fresh(G, c) && s == C.Run(Conf(G), c, acts) && s' == C.Run(Conf(G), s, more) && k < Unread(Conf(G), s)
    ensures |s.mem| == |s'.mem| == G.total
    ensures s'.consumed <= s.consumed + k ==> SameSlot(G, s.mem, s'.mem, ReadIndex(s.r) + k)
  {
    RunFromFresh(G, c, acts);
    var a := Behind(G, c, acts);
    var a' := A.Run(G.Abs(), a, AbsActs(more));
    RunRelates(G, s, a, more, a');
    StayGood(G, s, a, s', a', k);
  }

  /** The lengths put in the slots of accepted packets, one after the other. */
  function UsedLens(rest: bool, calls: seq<C.Call>): seq<nat> {
    if calls == [] then []
    else
      var n := |calls| - 1;
      UsedLens(rest, calls[..n]) + Lens(Cut(rest, calls[n].pkt, calls[n].rooms))
  }

  lemma UsedByOne(P: A.Params, x: A.Sent, call: C.Call)
    requires A.SentOk(P, x) && Even(P, x) && CallRel(call, x, true)
    ensures Cut(P.rest, call.pkt, call.rooms) == x.chunks
  {
    CutIs(P, x);
  }

  lemma UsedNext(rest: bool, xs: seq<A.Sent>, calls: seq<C.Call>, n: nat)
    requires n < |xs| == |calls| && UsedLens(rest, calls[..n]) == LensOf(xs[..n])
    requires Cut(rest, calls[n].pkt, calls[n].rooms) == xs[n].chunks
    ensures UsedLens(rest, calls[..n + 1]) == LensOf(xs[..n + 1])
  {
    assert calls[..n + 1][..n] == calls[..n] && xs[..n + 1][..n] == xs[..n];
  }

  lemma {:induction false} UsedLensUpTo(P: A.Params, xs: seq<A.Sent>, calls: seq<C.Call>, n: nat)
    requires CallsRel(calls, xs, true) && n <= |xs|
    requires forall i :: 0 <= i < |xs| ==> A.SentOk(P, xs[i]) && Even(P, xs[i])
    ensures UsedLens(P.rest, calls[..n]) == LensOf(xs[..n])
    decreases n
  {
    if n > 0 {
      UsedLensUpTo(P, xs, calls, n - 1);
      UsedByOne(P, xs[n - 1], calls[n - 1]);
      UsedNext(P.rest, xs, calls, n - 1);
    }
  }

  lemma UsedLensAre(P: A.Params, xs: seq<A.Sent>, calls: seq<C.Call>)
    requires CallsRel(calls, xs, true) && forall i :: 0 <= i < |xs| ==> A.SentOk(P, xs[i]) && Even(P, xs[i])
    ensures UsedLens(P.rest, calls) == LensOf(xs)
  {
    UsedLensUpTo(P, xs, calls, |xs|);
    assert calls[..|xs|] == calls && xs[..|xs|] == xs;
  }

  lemma OffersAfter(P: A.Params, a: A.State, rooms: seq<nat>)
    requires A.Placed(P, a) && Traced(P, a) && !a.w.WPub? && A.AreOffers(P, a.cells, a.pub, rooms)
    requires |rooms| <= a.lim - a.pub
    ensures RoomsAfter(P, LensOf(a.accepted), rooms)
  {
    forall k | 0 <= k < |rooms| ensures rooms[k] == RoomAt(P, LensOf(a.accepted), a.pub + k) { OfferIs(P, a, a.pub + k); }
  }

  lemma GoodRooms(G: Geometry, s: C.State, a: A.State)
    requires Good(G, s, a) && !s.w.WPub?
    ensures var h, rooms := UsedLens(G.rest, s.accepted), C.FreeRooms(Conf(G), s.mem);
            |h| == a.pub && |rooms| == a.lim - a.pub && RoomsAfter(G.Abs(), h, rooms)
  {
    UsedLensAre(G.Abs(), a.accepted, s.accepted);
    A.InvPlaced(G.Abs(), a);
    FreeSlots(G, s.mem, a);
    RoomsAre(G, s.mem, a, C.FreeRooms(Conf(G), s.mem));
    OffersAfter(G.Abs(), a, C.FreeRooms(Conf(G), s.mem));
  }

  /**
   What the free slots offer, for every buffer size and in every run: it is determined by the packets accepted
   so far, whatever else has been tried, read or refilled.
   */
  lemma RoomsByHistory(G: Geometry, c: C.State, acts: seq<C.Action>, s: C.State)
    requires Fresh(G, c) && s == C.Run(Conf(G), c, acts) && !s.w.WPub?
    ensures |s.mem| == G.total && RoomsAfter(G.Abs(), UsedLens(G.rest, s.accepted), C.FreeRooms(Conf(G), s.mem))
  {
    RunFromFresh(G, c, acts);
    GoodRooms(G, s, Behind(G, c, acts));
  }

  /** The writer's index and the unread slots are as they were in s. */
  ghost predicate NothingSeen(G: Geometry, s: C.State, s': C.State) {
    && G.Valid() && |s.mem| == |s'.mem| == G.total
    && C.WriteIndex(Conf(G), s'.mem) == C.WriteIndex(Conf(G), s.mem)
    && var last := ReadIndex(s'.r);
    forall x :: last <= x < last + Unread(Conf(G), s') ==> SameSlot(G, s.mem, s'.mem, x)
  }

  lemma UnseenBetween(G: Geometry, s: C.State, a: A.State, s': C.State, a': A.State)
    requires MemRel(G, s.mem, a) && MemRel(G, s'.mem, a') && A.SameCells(G.Abs(), a, a', a'.r.last, a.pub)
    requires a'.pub == a.pub
    requires C.WriteIndex(Conf(G), s.mem) == a.pub % TWO16 && C.WriteIndex(Conf(G), s'.mem) == a'.pub % TWO16
    requires ReadIndex(s'.r) == a'.r.last % TWO16 && Unread(Conf(G), s') == a'.pub - a'.r.last
    ensures NothingSeen(G, s, s')
  {
    var last := ReadIndex(s'.r);
    forall x | last <= x < last + Unread(Conf(G), s') ensures SameSlot(G, s.mem, s'.mem, x) {
      SlotsAhead(G, s.mem, a, s'.mem, a', a'.r.last, a.pub, x);
    }
  }

  lemma SameCalls(cs: seq<C.Call>, cs': seq<C.Call>, xs: seq<A.Sent>)
    requires CallsRel(cs, xs, true) && CallsRel(cs', xs, true)
    ensures cs' == cs
  {
    forall i | 0 <= i < |xs| ensures cs[i] == cs'[i] {
      assert CallRel(cs[i], xs[i], true) && CallRel(cs'[i], xs[i], true);
    }
  }

  lemma MoreRooms(P: A.Params, h: seq<nat>, rooms: seq<nat>, rooms': seq<nat>)
    requires RoomsAfter(P, h, rooms) && RoomsAfter(P, h, rooms') && |rooms| <= |rooms'|
    ensures rooms <= rooms'
  {
  }

  lemma RoomsGrow(G: Geometry, s: C.State, a: A.State, s': C.State, a': A.State)
    requires Good(G, s, a) && Good(G, s', a') && a'.accepted == a.accepted && a'.pub == a.pub && a.lim <= a'.lim
    requires !s.w.WPub? && !s'.w.WPub?
    ensures C.FreeRooms(Conf(G), s.mem) <= C.FreeRooms(Conf(G), s'.mem)
  {
    GoodRooms(G, s, a);
    GoodRooms(G, s', a');
    SameCalls(s.accepted, s'.accepted, a.accepted);
    MoreRooms(G.Abs(), UsedLens(G.rest, s.accepted), C.FreeRooms(Conf(G), s.mem), C.FreeRooms(Conf(G), s'.mem));
  }

  lemma RoomsStay(G: Geometry, s: C.State, a: A.State, more: seq<C.Action>, s': C.State)
    requires Good(G, s, a) && s' == C.Run(Conf(G), s, more) && |s'.accepted| == |s.accepted|
    requires !s.w.WPub? && !s'.w.WPub?
    ensures |s.mem| == |s'.mem| == G.total && C.FreeRooms(Conf(G), s.mem) <= C.FreeRooms(Conf(G), s'.mem)
  {
    var a' := A.Run(G.Abs(), a, AbsActs(more));
    GoodRun(G, s, a, more);
    A.PublishesOnlyAccepted(G.Abs(), a, AbsActs(more));
    A.RunGrows(G.Abs(), a, AbsActs(more));
    RoomsGrow(G, s, a, s', a');
  }

  lemma NothingAccepted(G: Geometry, s: C.State, a: A.State, more: seq<C.Action>, s': C.State)
    requires Good(G, s, a) && s' == C.Run(Conf(G), s, more) && |s'.accepted| == |s.accepted|
    ensures NothingSeen(G, s, s')
  {
    var a' := A.Run(G.Abs(), a, AbsActs(more));
    GoodRun(G, s, a, more);
    IndicesAre(G, s, a);
    IndicesAre(G, s', a');
    A.UnreadAreStable(G.Abs(), a, AbsActs(more), a');
    A.PublishesOnlyAccepted(G.Abs(), a, AbsActs(more));
    UnseenBetween(G, s, a, s', a');
  }

  /**
   A run that goes on from s without accepting a packet, such as a write from its start to its refusal with
   the reader working beside it: the writer's index has not moved, every slot that is unread at the end has
   the bytes it had in s, and the free slots of s offer what they offered, also those that were rewritten.
   */
  lemma RefusedWriteUnseen(G: Geometry, c: C.State, acts: seq<C.Action>, s: C.State, more: seq<C.Action>, s': C.State)
    requires Fresh(G, c) && s == C.Run(Conf(G), c, acts) && s' == C.Run(Conf(G), s, more)
    requires |s'.accepted| == |s.accepted|
    ensures NothingSeen(G, s, s')
    ensures !s.w.WPub? && !s'.w.WPub? ==> C.FreeRooms(Conf(G), s.mem) <= C.FreeRooms(Conf(G), s'.mem)
    ensures G.dir.M2S? && G.cap < TWO16 && s'.w.WDone? ==> WholeSlots(G, s'.mem)
  {
    RunFromFresh(G, c, acts);
    NothingAccepted(G, s, Behind(G, c, acts), more, s');
    if !s.w.WPub? && !s'.w.WPub? { RoomsStay(G, s, Behind(G, c, acts), more, s'); }
    if G.dir.M2S? && G.cap < TWO16 && s'.w.WDone? {
      C.RunAppend(Conf(G), c, acts, more);
      FreeSlotsAreWhole(G, c, acts + more, s');
    }
  }

  // ---- M2S: buffers are conserved

  lemma ReturnedMod(lim: nat, last: nat, size: nat, x: nat)
    requires lim == last + size && x == last % TWO16
    ensures lim % TWO16 == (x + size) % TWO16
  {
    CongPlus(last, size);
  }

  lemma GoodReturned(G: Geometry, s: C.State, a: A.State)
    requires Good(G, s, a) && G.dir.M2S? && s.r.RDone? && s.returned > 0
    ensures a.lim == a.r.last + G.ring.Size() && s.refilled == a.lim
    ensures ReadHead(G.ring, s.mem) == (s.r.last + G.ring.Size()) % TWO16
  {
    ReturnedMod(a.lim, a.r.last, G.ring.Size(), s.r.last);
  }

  /** Between client reads, from the first to return on, head = lastTail + size mod 2^16. */
  lemma BuffersReturned(G: Geometry, c: C.State, acts: seq<C.Action>, s: C.State)
    requires Fresh(G, c) && G.dir.M2S? && s == C.Run(Conf(G), c, acts) && s.r.RDone? && s.returned > 0
    ensures |s.mem| == G.total && ReadHead(G.ring, s.mem) == (s.r.last + G.ring.Size()) % TWO16
  {
    RunFromFresh(G, c, acts);
    GoodReturned(G, s, Behind(G, c, acts));
  }

  /** Each consumed slot has then been handed back once: the ring was offered in full, and each slot again once consumed. */
  lemma HandedBackOnce(G: Geometry, c: C.State, acts: seq<C.Action>, s: C.State)
    requires Fresh(G, c) && G.dir.M2S? && s == C.Run(Conf(G), c, acts) && s.r.RDone? && s.returned > 0
    ensures |s.delivered| <= |s.accepted| && s.refilled == G.ring.Size() + s.consumed && G.cap > 0
    ensures G.cap < TWO16 ==> s.consumed == SlotsOf(PacketsOf(s.accepted[..|s.delivered|]), G.cap)
  {
    RunFromFresh(G, c, acts);
    GoodReturned(G, s, Behind(G, c, acts));
    if G.cap < TWO16 { ConsumedIs(G, s, Behind(G, c, acts)); }
  }

  /** The slots that are unread or that the server may use, from the client's lastTail on. */
  ghost predicate NotTheClients(G: Geometry, m: seq<byte>, last: nat, x: nat)
    requires G.ring.End() <= |m|
  {
    last <= x < last + (ReadHead(G.ring, m) - last) % TWO16
  }

  lemma RefillsBehind(G: Geometry, m: seq<byte>, r: C.Reader, a: A.State, x: nat)
    requires MemRel(G, m, a) && G.dir.M2S? && A.Placed(G.Abs(), a) && ReaderRel(G, r, a.r) && r.RRefill? && r.todo > 0
    requires NotTheClients(G, m, r.last, x)
    ensures G.ring.Slot(x) != G.ring.Slot(r.head)
  {
    SizeFits(G);
    Wrapped(0, a.r.last, a.lim);
    var t := a.r.last + (x - r.last);
    CongPlus(a.r.last, x - r.last);
    SlotIsAt(G, x, t);
    SlotIsAt(G, r.head, a.r.head);
    A.AtDistinct(G.Abs(), t, a.r.head);
  }

  /** The k-th store of a refill goes to slot k mod size, and to no slot that is unread or that the server may use. */
  lemma RefillsInTurn(G: Geometry, c: C.State, acts: seq<C.Action>, s: C.State)
    requires Fresh(G, c) && G.dir.M2S? && s == C.Run(Conf(G), c, acts) && s.r.RRefill? && s.r.todo > 0
    ensures G.ring.Slot(s.r.head) == s.refilled % G.ring.Size() && |s.mem| == G.total
    ensures forall x :: NotTheClients(G, s.mem, s.r.last, x) ==> G.ring.Slot(x) != G.ring.Slot(s.r.head)
  {
    RunFromFresh(G, c, acts);
    var a := Behind(G, c, acts);
    A.InvPlaced(G.Abs(), a);
    SlotIsAt(G, s.r.head, a.r.head);
    WrapIsMod(a.r.head, G.ring.Size());
    forall x | NotTheClients(G, s.mem, s.r.last, x) ensures G.ring.Slot(x) != G.ring.Slot(s.r.head) {
      RefillsBehind(G, s.mem, s.r, a, x);
    }
  }

  lemma FreeSlotLength(G: Geometry, m: seq<byte>, a: A.State, k: nat, i: nat)
    requires MemRel(G, m, a) && G.dir.M2S? && G.cap < TWO16 && a.w.WIdle? && A.Placed(G.Abs(), a) && Traced(G.Abs(), a)
    requires k < a.lim - a.pub && i == G.ring.Slot(ReadTail(G.ring, m) + k)
    ensures G.CellAt(m, i).len == G.cap
  {
    var t := a.pub + k;
    CongFrom(ReadTail(G.ring, m), a.pub, k, ReadTail(G.ring, m) + k);
    SlotIsAt(G, ReadTail(G.ring, m) + k, t);
    OfferIs(G.Abs(), a, t);
    SizedIsCap(G.Abs(), a.cells[A.At(G.Abs(), t)].len);
    assert a.cells[i] == G.CellAt(m, i);
  }

  ghost predicate WholeAt(G: Geometry, m: seq<byte>, slot: nat)
    requires G.Valid() && |m| == G.total
  {
    G.CellAt(m, G.ring.Slot(slot)).len == G.cap
  }

  /** Every slot that a server sees as free offers the client's PacketBufferSize. */
  ghost predicate WholeSlots(G: Geometry, m: seq<byte>) {
    && G.Valid() && |m| == G.total
    && var tail := ReadTail(G.ring, m);
    forall x :: tail <= x < tail + (ReadHead(G.ring, m) - tail) % TWO16 ==> WholeAt(G, m, x)
  }

  lemma WholeAtBehind(G: Geometry, m: seq<byte>, a: A.State, x: nat)
    requires MemRel(G, m, a) && G.dir.M2S? && G.cap < TWO16 && a.w.WIdle? && A.Placed(G.Abs(), a) && Traced(G.Abs(), a)
    requires ReadTail(G.ring, m) <= x < ReadTail(G.ring, m) + (a.lim - a.pub)
    ensures WholeAt(G, m, x)
  {
    FreeSlotLength(G, m, a, x - ReadTail(G.ring, m), G.ring.Slot(x));
  }

  lemma WholeSlotsBehind(G: Geometry, m: seq<byte>, a: A.State)
    requires MemRel(G, m, a) && G.dir.M2S? && G.cap < TWO16 && a.w.WIdle? && A.Placed(G.Abs(), a) && Traced(G.Abs(), a)
    ensures WholeSlots(G, m)
  {
    var tail := ReadTail(G.ring, m);
    FreeSlots(G, m, a);
    var n := C.NFree(Conf(G), m);
    assert n == (ReadHead(G.ring, m) - tail) % TWO16;
    forall x | tail <= x < tail + n ensures WholeAt(G, m, x) {
      WholeAtBehind(G, m, a, x);
    }
  }

  lemma MemBehind(G: Geometry, c: C.State, acts: seq<C.Action>, s: C.State, a: A.State)
    requires Fresh(G, c) && G.Abs().Regular() && s == C.Run(Conf(G), c, acts) && a == Behind(G, c, acts)
    ensures MemRel(G, s.mem, a) && (s.w.WDone? ==> a.w.WIdle?) && A.Placed(G.Abs(), a) && Traced(G.Abs(), a)
  {
    RunFromFresh(G, c, acts);
    A.InvPlaced(G.Abs(), a);
  }

  /** In every run the slots the server sees as free are whole whenever no write is under way. */
  lemma FreeSlotsAreWhole(G: Geometry, c: C.State, acts: seq<C.Action>, s: C.State)
    requires Fresh(G, c) && G.dir.M2S? && G.cap < TWO16 && s == C.Run(Conf(G), c, acts) && s.w.WDone?
    ensures WholeSlots(G, s.mem)
  {
    var a := Behind(G, c, acts);
    MemBehind(G, c, acts, s, a);
    WholeSlotsBehind(G, s.mem, a);
  }

  // ---- what a write returns

  /** Where a write of pkt stands that found those rooms on offer, against what had been accepted and rejected before. */
  ghost predicate Answered(s: C.State, t: C.State, pkt: A.Packet, rooms: seq<nat>) {
    match t.w
    case WDone(n) =>
      || (t.accepted == s.accepted + [C.Call(pkt, rooms, n)] && t.rejected == s.rejected)
      || (t.accepted == s.accepted && t.rejected == s.rejected + [C.Call(pkt, rooms, 0)] && n == 0)
    case WGet(_, _, _, p) => Asking(s, t, p, pkt, rooms)
    case WCopy(_, _, _, p, _, _) => Asking(s, t, p, pkt, rooms)
    case WPut(_, _, _, p, _) => Asking(s, t, p, pkt, rooms)
    case WPub(_, _, p) => Asking(s, t, p, pkt, rooms)
    case WFault => true
  }

  ghost predicate Asking(s: C.State, t: C.State, p: A.Packet, pkt: A.Packet, rooms: seq<nat>) {
    p == pkt && t.rooms == rooms && t.accepted == s.accepted && t.rejected == s.rejected
  }

  lemma StartAnswers(q: C.Config, s: C.State, pkt: A.Packet)
    requires C.Shaped(q, s) && s.w.WDone?
    ensures Answered(s, C.Step(q, s, C.StartWrite(pkt)), pkt, C.FreeRooms(q, s.mem))
  {
  }

  lemma StepAnswers(q: C.Config, s: C.State, t: C.State, a: C.Action, pkt: A.Packet, rooms: seq<nat>)
    requires C.Shaped(q, t) && !a.StartWrite? && Answered(s, t, pkt, rooms)
    ensures Answered(s, C.Step(q, t, a), pkt, rooms)
  {
  }

  lemma {:induction false} RunAnswers(q: C.Config, s: C.State, s1: C.State, acts: seq<C.Action>, pkt: A.Packet, rooms: seq<nat>)
    requires C.Shaped(q, s1) && (forall i :: 0 <= i < |acts| ==> !acts[i].StartWrite?) && Answered(s, s1, pkt, rooms)
    ensures Answered(s, C.Run(q, s1, acts), pkt, rooms)
    decreases |acts|
  {
    if acts != [] {
      var n := |acts| - 1;
      RunAnswers(q, s, s1, acts[..n], pkt, rooms);
      StepAnswers(q, s, C.Run(q, s1, acts[..n]), acts[n], pkt, rooms);
    }
  }

  /**
   A call of WritePacket, whatever the reader does meanwhile: when it returns, the packet is accepted with the
   number returned, or it is rejected and 0 is returned.
   */
  lemma WriteReturns(q: C.Config, s: C.State, pkt: A.Packet, more: seq<C.Action>, t: C.State)
    requires C.Shaped(q, s) && s.w.WDone? && t == C.Run(q, C.Step(q, s, C.StartWrite(pkt)), more) && t.w.WDone?
    requires forall i :: 0 <= i < |more| ==> !more[i].StartWrite?
    ensures var rooms := C.FreeRooms(q, s.mem);
            || (t.accepted == s.accepted + [C.Call(pkt, rooms, t.w.n)] && t.rejected == s.rejected)
            || (t.accepted == s.accepted && t.rejected == s.rejected + [C.Call(pkt, rooms, 0)] && t.w.n == 0)
  {
    StartAnswers(q, s, pkt);
    RunAnswers(q, s, C.Step(q, s, C.StartWrite(pkt)), more, pkt, C.FreeRooms(q, s.mem));
  }

  // ---- what a read returns

  /**
   Where a read that was given that buffer stands, against what had been delivered before: some tells whether
   there was a packet.  A read without one returns 0 and leaves the buffer as it was.
   */
  ghost predicate Fetched(before: seq<C.Output>, now: seq<C.Output>, r: C.Reader, given: seq<byte>, some: bool) {
    match r
    case RGet(_, _, _, _, _) => some && now == before
    case RCopy(_, _, _, _, _, _) => some && now == before
    case RRefill(_, _, _, off, buf) => Came(before, now, off, buf, given, some)
    case RDone(_, off, buf) => Came(before, now, off, buf, given, some)
    case _ => now == before
  }

  ghost predicate Came(before: seq<C.Output>, now: seq<C.Output>, off: nat, buf: seq<byte>, given: seq<byte>, some: bool) {
    if some then now == before + [C.Output(off, buf)] else now == before && off == 0 && buf == given
  }

  lemma StartFetches(q: C.Config, s: C.State, given: seq<byte>)
    requires C.Shaped(q, s) && s.r.Returned()
    ensures var t := C.Step(q, s, C.StartRead(given));
            Fetched(s.delivered, t.delivered, t.r, given, Unread(q, s) != 0)
  {
  }

  lemma StepFetches(q: C.Config, t: C.State, a: C.Action, before: seq<C.Output>, given: seq<byte>, some: bool)
    requires C.Shaped(q, t) && !a.StartRead? && Fetched(before, t.delivered, t.r, given, some)
    ensures var t' := C.Step(q, t, a); Fetched(before, t'.delivered, t'.r, given, some)
  {
  }

  /** Whatever the writer does meanwhile. */
  lemma {:induction false} RunFetches(q: C.Config, s: C.State, acts: seq<C.Action>, before: seq<C.Output>, given: seq<byte>, some: bool)
    requires C.Shaped(q, s) && (forall i :: 0 <= i < |acts| ==> !acts[i].StartRead?)
    requires Fetched(before, s.delivered, s.r, given, some)
    ensures var t := C.Run(q, s, acts); Fetched(before, t.delivered, t.r, given, some)
    decreases |acts|
  {
    if acts != [] {
      var n := |acts| - 1;
      RunFetches(q, s, acts[..n], before, given, some);
      StepFetches(q, C.Run(q, s, acts[..n]), acts[n], before, given, some);
    }
  }

  // ---- read buffers that hold a whole ring never overrun

  ghost predicate Roomy(P: A.Params, s: A.State) {
    && !s.r.RShort?
    && (s.r.RGet? || s.r.RCopy? ==>
          s.r.last <= s.r.slot && |s.r.acc| <= (s.r.slot - s.r.last) * P.cap && P.size * P.cap <= s.r.space)
  }

  lemma CopyKeepsRoomy(P: A.Params, s: A.State)
    requires A.Shaped(P, s) && Roomy(P, s) && s.r.RCopy? && s.r.slot < s.r.last + P.size
    requires s.r.len <= P.cap
    ensures Roomy(P, A.ReadStep(P, s))
  {
    var n := s.r.slot - s.r.last;
    MulApart(n, P.size, P.cap);
    Distribute(n, 1, P.cap);
  }

  lemma StepKeepsRoomy(P: A.Params, s: A.State, a: A.Action)
    requires A.Placed(P, s) && (s.r.RCopy? ==> s.r.len <= P.cap) && Roomy(P, s)
    requires a.StartRead? ==> P.size * P.cap <= a.space
    ensures Roomy(P, A.Step(P, s, a))
  {
    match a
    case StepRead => if s.r.RCopy? { CopyKeepsRoomy(P, s); }
    case StepWrite => A.WriteGrows(P, s);
    case _ =>
  }

  lemma {:induction false} RunKeepsRoomy(P: A.Params, s: A.State, acts: seq<A.Action>)
    requires A.Inv(P, s) && Roomy(P, s)
    requires forall i :: 0 <= i < |acts| && acts[i].StartRead? ==> P.size * P.cap <= acts[i].space
    ensures Roomy(P, A.Run(P, s, acts))
    decreases |acts|
  {
    if acts != [] {
      var pre := acts[..|acts| - 1];
      RunKeepsRoomy(P, s, pre);
      A.RunKeepsInv(P, s, pre);
      A.InvPlaced(P, A.Run(P, s, pre));
      StepKeepsRoomy(P, A.Run(P, s, pre), acts[|acts| - 1]);
    }
  }

  /** Read buffers that hold a ring's worth of bytes never cause the slice panic. */
  lemma NoShortRead(G: Geometry, c: C.State, acts: seq<C.Action>)
    requires Fresh(G, c)
    requires forall i :: 0 <= i < |acts| && acts[i].StartRead? ==> G.ring.Size() * G.cap <= |acts[i].buf|
    ensures !C.Run(Conf(G), c, acts).r.RShort?
  {
    FreshStart(G, c);
    A.InitialInv(G.Abs(), Start(G, c.mem));
    RunKeepsRoomy(G.Abs(), Start(G, c.mem), AbsActs(acts));
    RunFromFresh(G, c, acts);
  }

  // ---- calls without interference are runs too

  lemma WritePoint(q: C.Config, t: C.State, p: C.WPoint)
    requires C.Shaped(q, t) && C.WNext(q, (t.mem, t.w), p)
    ensures var t' := C.Step(q, t, C.StepWrite); (t'.mem, t'.w) == p && t'.r == t.r
  {
  }

  lemma ReadPoint(q: C.Config, t: C.State, p: C.RPoint)
    requires C.Shaped(q, t) && C.RNext(q, (t.mem, t.r), p)
    ensures var t' := C.Step(q, t, C.StepRead); (t'.mem, t'.r) == p && t'.w == t.w
  {
  }

  lemma {:induction false} WriteTraceAt(q: C.Config, s: C.State, tr: seq<C.WPoint>, n: nat)
    requires C.Shaped(q, s) && C.WTrace(q, tr) && tr[0] == (s.mem, s.w) && n < |tr|
    ensures var t := C.Run(q, s, A.Times(C.StepWrite, n)); (t.mem, t.w) == tr[n] && t.r == s.r
    decreases n
  {
    if n > 0 {
      var i := n - 1;
      WriteTraceAt(q, s, tr, i);
      C.RunTimes(q, s, C.StepWrite, n);
      assert C.WNext(q, tr[i], tr[n]);
      WritePoint(q, C.Run(q, s, A.Times(C.StepWrite, i)), tr[n]);
    }
  }

  /** A call of WritePacket run on its own is a schedule of writer steps. */
  lemma {:induction false} WriteTraceIsRun(q: C.Config, s: C.State, tr: seq<C.WPoint>)
    requires C.Shaped(q, s) && C.WTrace(q, tr) && tr[0] == (s.mem, s.w)
    ensures var t := C.Run(q, s, A.Times(C.StepWrite, |tr| - 1)); (t.mem, t.w) == tr[|tr| - 1] && t.r == s.r
  {
    WriteTraceAt(q, s, tr, |tr| - 1);
  }

  lemma {:induction false} ReadTraceAt(q: C.Config, s: C.State, tr: seq<C.RPoint>, n: nat)
    requires C.Shaped(q, s) && C.RTrace(q, tr) && tr[0] == (s.mem, s.r) && n < |tr|
    ensures var t := C.Run(q, s, A.Times(C.StepRead, n)); (t.mem, t.r) == tr[n] && t.w == s.w
    decreases n
  {
    if n > 0 {
      var i := n - 1;
      ReadTraceAt(q, s, tr, i);
      C.RunTimes(q, s, C.StepRead, n);
      assert C.RNext(q, tr[i], tr[n]);
      ReadPoint(q, C.Run(q, s, A.Times(C.StepRead, i)), tr[n]);
    }
  }

  lemma {:induction false} ReadTraceIsRun(q: C.Config, s: C.State, tr: seq<C.RPoint>)
    requires C.Shaped(q, s) && C.RTrace(q, tr) && tr[0] == (s.mem, s.r)
    ensures var t := C.Run(q, s, A.Times(C.StepRead, |tr| - 1)); (t.mem, t.r) == tr[|tr| - 1] && t.w == s.w
  {
    ReadTraceAt(q, s, tr, |tr| - 1);
  }

  /** A server's writes do not depend on its own PacketBufferSize. */
  lemma {:induction false} ServerWriteTrace(q: C.Config, cap: nat, tr: seq<C.WPoint>)
    requires q.dir.M2S? && C.WTrace(q, tr)
    ensures C.WTrace(q.(cap := cap), tr)
  {
    forall i, j | 0 <= i && j == i + 1 && j < |tr| ensures C.WNext(q.(cap := cap), tr[i], tr[j]) {
      assert C.WNext(q, tr[i], tr[j]);
    }
  }

  lemma ServerReadStep(q: C.Config, cap: nat, m: seq<byte>, r: C.Reader)
    requires q.dir.S2M? && q.ring.End() <= |m| && r.Valid() && (r.RRefill? ==> r.todo == 0)
    ensures var t := C.ReadStep(q, m, r);
            t == C.ReadStep(q.(cap := cap), m, r) && (t.1.RRefill? ==> t.1.todo == 0)
  {
  }

  lemma {:induction false} ServerReadAt(q: C.Config, cap: nat, tr: seq<C.RPoint>, n: nat)
    requires q.dir.S2M? && C.RTrace(q, tr) && (tr[0].1.RRefill? ==> tr[0].1.todo == 0) && n < |tr|
    ensures tr[n].1.RRefill? ==> tr[n].1.todo == 0
    ensures n > 0 ==> C.RNext(q.(cap := cap), tr[n - 1], tr[n])
    decreases n
  {
    if n > 0 {
      var i := n - 1;
      ServerReadAt(q, cap, tr, i);
      assert C.RNext(q, tr[i], tr[n]);
      ServerReadStep(q, cap, tr[i].0, tr[i].1);
    }
  }

  /** Nor do its reads, since it refills nothing. */
  lemma {:induction false} ServerReadTrace(q: C.Config, cap: nat, tr: seq<C.RPoint>)
    requires q.dir.S2M? && C.RTrace(q, tr) && (tr[0].1.RRefill? ==> tr[0].1.todo == 0)
    ensures C.RTrace(q.(cap := cap), tr)
  {
    forall i, j | 0 <= i && j == i + 1 && j < |tr| ensures C.RNext(q.(cap := cap), tr[i], tr[j]) {
      ServerReadAt(q, cap, tr, j);
    }
  }
}
