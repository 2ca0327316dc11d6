/** Packet buffers in the wrong place: what the first packet that a client writes there overwrites. */
module Misplaced {
  import opened Bytes
  import opened FreshRings
  import opened Layout
  import opened MemRegion
  import opened Refinement
  import opened RingMemory
  import A = RingProtocol
  import C = RingSteps

  /** A client's ring at rest whose first descriptor points to b. */
  ghost predicate PointsTo(q: C.Config, m: seq<byte>, b: nat) {
    && q.dir.S2M? && !q.rest && q.ring.Size() < TWO16 && q.ring.End() <= |m| && b + q.cap <= |m|
    && ReadHead(q.ring, m) == 0 && ReadTail(q.ring, m) == 0
    && var o := q.ring.Desc(0); Get16(m, o + DESC_REGION) == 0 && Get32(m, o + DESC_OFFSET) == b
  }

  lemma SlotZero(r: Ring)
    ensures r.Slot(0) == 0
  {
  }

  /** The local copy of the descriptor keeps region and offset. */
  lemma KeptDesc(r: Ring, m: seq<byte>, e: seq<byte>)
    requires r.End() <= |m| && e == Put32(Put16(GetDesc(r, m, 0), DESC_FLAGS, 0), DESC_LENGTH, 0)
    ensures |e| == DESC_SIZE && Get16(e, DESC_REGION) == Get16(m, r.Desc(0) + DESC_REGION)
    ensures Get32(e, DESC_OFFSET) == Get32(m, r.Desc(0) + DESC_OFFSET)
  {
    var d := GetDesc(r, m, 0);
    SetFlags(d, 0);
    SetLength(Put16(d, DESC_FLAGS, 0), 0);
    SliceFields(m, r.Desc(0), DESC_REGION);
    SliceFields(m, r.Desc(0), DESC_OFFSET);
  }

  lemma BeginIs(q: C.Config, m: seq<byte>, pkt: C.Packet)
    requires q.dir.S2M? && 0 < q.ring.Size() < TWO16 && q.ring.End() <= |m| && ReadHead(q.ring, m) == 0 && ReadTail(q.ring, m) == 0
    ensures C.BeginWrite(q, m, pkt) == C.WGet(0, q.ring.Size(), 0, pkt)
  {
  }

  lemma CopyOf(q: C.Config, m: seq<byte>, pkt: C.Packet, b: nat, w: C.Writer)
    requires q.ring.End() <= |m| && !q.rest && b + q.cap <= |m| && w.WCopy? && w.Valid() && w.pkt == pkt && w.room == q.cap
    requires Get16(w.desc, DESC_REGION) == 0 && Get32(w.desc, DESC_OFFSET) == b
    ensures C.WriteStep(q, m, w).0 == Splice(m, b, pkt[..Min(q.cap, |pkt|)])
  {
  }

  /** The three steps of a WritePacket call up to the copy. */
  lemma FirstCopy(q: C.Config, m: seq<byte>, pkt: C.Packet, b: nat)
    requires PointsTo(q, m, b)
    ensures C.Run(q, AtRest(m), [C.StartWrite(pkt), C.StepWrite, C.StepWrite]).mem ==
            Splice(m, b, pkt[..Min(q.cap, |pkt|)])
  {
    var s := AtRest(m);
    BeginIs(q, m, pkt);
    SlotZero(q.ring);
    var e := Put32(Put16(GetDesc(q.ring, m, 0), DESC_FLAGS, 0), DESC_LENGTH, 0);
    KeptDesc(q.ring, m, e);
    var s1 := C.Step(q, s, C.StartWrite(pkt));
    var s2 := C.Step(q, s1, C.StepWrite);
    assert s2.mem == m && s2.w == C.WCopy(0, q.ring.Size(), 0, pkt, e, q.cap);
    CopyOf(q, m, pkt, b, s2.w);
    C.RunThree(q, s, C.StartWrite(pkt), C.StepWrite, C.StepWrite);
  }

  // ---- two or more queue pairs

  function SecondTx(c: MemoryConfig): C.Config {
    C.Config(A.S2M, Ring(c.RingStart(1), c.log2RingSize), c.packetBufferSize, false)
  }

  lemma SecondPointsToZero(c: MemoryConfig, m0: seq<byte>, m: seq<byte>)
    requires c.numQueuePairs > 1 && Initialized(c, m0, m) && c.RingStart(2) <= |m| && c.packetBufferSize <= |m|
    requires Pow2(c.log2RingSize) < TWO16 && forall k :: 0 <= k < |m0| ==> m0[k] == 0
    ensures PointsTo(SecondTx(c), m, 0)
  {
    SecondTableUntouched(c, m0, m, 0);
    assert HeaderOk(m, c.RingStart(1));
  }

  /**
   Cookie, flags and head of the first ring are then what the client's first packet of eight bytes or more
   on its second tx queue says.
   */
  lemma SecondQueueOverwritesFirstRing(c: MemoryConfig, m0: seq<byte>, m: seq<byte>, pkt: C.Packet)
    requires c.numQueuePairs > 1 && Initialized(c, m0, m) && c.RingStart(2) <= |m| && 8 <= c.packetBufferSize <= |m|
    requires Pow2(c.log2RingSize) < TWO16 && (forall k :: 0 <= k < |m0| ==> m0[k] == 0) && 8 <= |pkt|
    ensures SecondTx(c).ring.End() <= |m|
    ensures var m' := C.Run(SecondTx(c), AtRest(m), [C.StartWrite(pkt), C.StepWrite, C.StepWrite]).mem;
            && |m'| == |m| && Get32(m', COOKIE_OFFSET) == Get32(pkt, COOKIE_OFFSET)
            && Get16(m', FLAGS_OFFSET) == Get16(pkt, FLAGS_OFFSET) && Get16(m', HEAD_OFFSET) == Get16(pkt, HEAD_OFFSET)
  {
    SecondPointsToZero(c, m0, m);
    FirstCopy(SecondTx(c), m, pkt, 0);
    var t := pkt[..Min(c.packetBufferSize, |pkt|)];
    SpliceSpec(m, 0, t);
    FrontFields(Splice(m, 0, t), t, pkt);
  }

  lemma FrontFields(m: seq<byte>, t: seq<byte>, pkt: seq<byte>)
    requires 8 <= |t| <= |m| && 8 <= |pkt| && t <= pkt && m[0..0 + |t|] == t
    ensures Get32(m, COOKIE_OFFSET) == Get32(pkt, COOKIE_OFFSET) && Get16(m, FLAGS_OFFSET) == Get16(pkt, FLAGS_OFFSET)
    ensures Get16(m, HEAD_OFFSET) == Get16(pkt, HEAD_OFFSET)
  {
    forall k | 0 <= k < 8 ensures m[k] == pkt[k] { assert m[k] == m[0..0 + |t|][k] == t[k]; }
  }

  // ---- rings that end at 2^16 or later

  function FirstTx(c: MemoryConfig): C.Config {
    C.Config(A.S2M, Ring(c.RingStart(0), c.log2RingSize), c.packetBufferSize, false)
  }

  lemma FirstPointsTo(c: MemoryConfig, m0: seq<byte>, m: seq<byte>)
    requires c.numQueuePairs > 0 && Initialized(c, m0, m) && Pow2(c.log2RingSize) < TWO16
    requires FirstTx(c).ring.End() <= |m| && c.PacketBufferOffset() + c.packetBufferSize <= |m|
    ensures PointsTo(FirstTx(c), m, c.PacketBufferOffset())
  {
    OffsetIsMod(c);
    assert HeaderOk(m, c.RingStart(0)) && TableOk(m, c, 0, 0) && EntryOk(m, c, c.RingStart(0) + RING_SIZE, 0, 0);
    FirstOffset(c);
  }

  lemma FirstOffset(c: MemoryConfig)
    ensures BufferOffset(c, 0 + 0) == c.PacketBufferOffset()
  {
    OffsetIsMod(c);
    SmallOffset(c.PacketBufferOffset(), c.packetBufferSize);
  }

  lemma SmallOffset(o: nat, b: nat)
    requires o < TWO16
    ensures (o + 0 * b % TWO32) % TWO32 == o
  {
  }

  /** The memory once the client's first WritePacket has copied. */
  function AfterCopy(c: MemoryConfig, m: seq<byte>, pkt: C.Packet): seq<byte>
    requires FirstTx(c).ring.End() <= |m|
  {
    C.Run(FirstTx(c), AtRest(m), [C.StartWrite(pkt), C.StepWrite, C.StepWrite]).mem
  }

  /** A byte of some ring has changed. */
  ghost predicate RingsHit(c: MemoryConfig, m: seq<byte>, m': seq<byte>) {
    exists g: nat, k: nat :: InRing(c, g, k) && k < |m| && k < |m'| && m'[k] != m[k]
  }

  lemma HitsWhere(c: MemoryConfig, m: seq<byte>, o: nat, x: byte, m': seq<byte>)
    requires o < |m| && m' == Splice(m, o, [x]) && x != m[o]
    ensures RingsHit(c, m, m') <==> exists g: nat :: InRing(c, g, o)
  {
    SpliceSpec(m, o, [x]);
    assert m'[o] == m'[o..o + 1][0] == x;
    if g: nat :| InRing(c, g, o) { assert InRing(c, g, o) && m'[o] != m[o]; }
  }

  lemma SameByte(c: MemoryConfig, m: seq<byte>, o: nat, m': seq<byte>)
    requires o < |m| && m' == Splice(m, o, [m[o]])
    ensures m' == m
  {
    SpliceSpec(m, o, [m[o]]);
    assert m'[o] == m'[o..o + 1][0] == m[o];
    assert forall k :: 0 <= k < |m| ==> m'[k] == m[k];
  }

  lemma HitsByte(c: MemoryConfig, m: seq<byte>, o: nat)
    requires FirstTx(c).ring.End() <= |m| && o < |m| && forall x: byte :: AfterCopy(c, m, [x]) == Splice(m, o, [x])
    ensures (exists x: byte :: RingsHit(c, m, AfterCopy(c, m, [x]))) <==> exists g: nat :: InRing(c, g, o)
  {
    var y: byte := if m[o] == 0 then 1 else 0;
    HitsWhere(c, m, o, y, AfterCopy(c, m, [y]));
    forall x: byte | RingsHit(c, m, AfterCopy(c, m, [x])) ensures exists g: nat :: InRing(c, g, o) {
      if x == m[o] { SameByte(c, m, o, AfterCopy(c, m, [x])); } else { HitsWhere(c, m, o, x, AfterCopy(c, m, [x])); }
    }
  }

  /** The configurations at hand: queues, a buffer size, room for the first ring and the first buffer. */
  ghost predicate Usable(c: MemoryConfig, m0: seq<byte>, m: seq<byte>) {
    && c.numQueuePairs > 0 && c.packetBufferSize > 0 && Initialized(c, m0, m) && Pow2(c.log2RingSize) < TWO16
    && FirstTx(c).ring.End() <= |m| && c.PacketBufferOffset() + c.packetBufferSize <= |m|
  }

  /** The copy of the client's first packet goes to packetBufferOffset. */
  lemma FirstCopyGoesTo(c: MemoryConfig, m0: seq<byte>, m: seq<byte>, pkt: C.Packet)
    requires Usable(c, m0, m)
    ensures AfterCopy(c, m, pkt) == Splice(m, c.PacketBufferOffset(), pkt[..Min(c.packetBufferSize, |pkt|)])
  {
    FirstPointsTo(c, m0, m);
    FirstCopy(FirstTx(c), m, pkt, c.PacketBufferOffset());
  }

  lemma CopyOfByte(c: MemoryConfig, m0: seq<byte>, m: seq<byte>, x: byte)
    requires Usable(c, m0, m)
    ensures AfterCopy(c, m, [x]) == Splice(m, c.PacketBufferOffset(), [x])
  {
    FirstCopyGoesTo(c, m0, m, [x]);
    assert [x][..1] == [x];
  }

  /** Some first packet of a single byte changes a byte of a ring exactly when the rings end at 2^16 or later. */
  lemma FirstPacketHitsRingIff(c: MemoryConfig, m0: seq<byte>, m: seq<byte>)
    requires Usable(c, m0, m)
    ensures (exists x: byte :: RingsHit(c, m, AfterCopy(c, m, [x]))) <==> c.RingsEnd() >= TWO16
  {
    forall x: byte ensures AfterCopy(c, m, [x]) == Splice(m, c.PacketBufferOffset(), [x]) { CopyOfByte(c, m0, m, x); }
    HitsByte(c, m, c.PacketBufferOffset());
    BuffersHitRingsIff(c);
  }
}
