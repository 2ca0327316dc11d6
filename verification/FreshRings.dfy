/** What initializeQueues means for the data path: which rings start out right, and what they share. */
module FreshRings {
  import opened Arith
  import opened Bytes
  import opened DataPath
  import opened Layout
  import opened MemRegion
  import opened RingMemory
  import A = RingProtocol
  import C = RingSteps

  /** Ring g of a region (S2M rings first), with descriptors that own the packet buffers from `first` on. */
  function RingAt(c: MemoryConfig, g: nat, first: nat): Geometry {
    Geometry(if g < c.numQueuePairs then A.S2M else A.M2S, Ring(c.RingStart(g), c.log2RingSize), c.RegionSize(),
             Buffers(c, first, Pow2(c.log2RingSize)), c.packetBufferSize, false)
  }

  /** n packet buffers in a row. */
  function Buffers(c: MemoryConfig, first: nat, n: nat): (bufs: seq<nat>)
    ensures |bufs| == n && forall j :: 0 <= j < n ==> bufs[j] == c.CellStart(first + j)
  {
    if n == 0 then [] else Buffers(c, first, n - 1) + [c.CellStart(first + n - 1)]
  }

  /** The first S2M or the first M2S ring of a region, with the buffers its descriptors were given. */
  function FirstRing(c: MemoryConfig, dir: A.Direction): Geometry {
    RingAt(c, if dir.S2M? then 0 else c.numQueuePairs, 0)
  }

  /** Both indices 0, no call made. */
  function AtRest(m: seq<byte>): C.State {
    C.State(m, C.WDone(0), C.RDone(0, 0, []), [], [], [], false, [], 0, 0, 0)
  }

  /** A usable configuration: some queues, some buffer, and no wrap-around in addRegion. */
  ghost predicate Sound(c: MemoryConfig) {
    c.NoWrap() && c.numQueuePairs > 0 && c.packetBufferSize > 0
  }

  lemma CellRange(o: nat, k: nat, b: nat, x: nat)
    requires x < k && o + k * b < TWO32
    ensures (o + x * b % TWO32) % TWO32 == o + x * b && o <= o + x * b && o + x * b + b <= o + k * b
  {
    MulApart(x, k, b);
    MulApart(0, x, b);
  }

  /** The default configuration is one: a single pair, rings of 2^10 slots, buffers of 2048 bytes. */
  lemma DefaultsAreSound()
    ensures Sound(MemoryConfig(1, 10, 2048))
  {
    assert Pow2(5) == 32;
    Pow2Add(5, 5);
  }

  /** Packet buffer x lies behind the rings and inside the region, where the descriptor's uint32 offset says. */
  lemma CellsFit(c: MemoryConfig, x: nat)
    requires Sound(c) && x < c.CellCount()
    ensures c.PacketBufferOffset() == c.RingsEnd() && BufferOffset(c, x) == c.CellStart(x)
    ensures c.RingsEnd() <= c.CellStart(x) && c.CellStart(x) + c.packetBufferSize <= c.RegionSize()
  {
    OffsetExactIff(c);
    RegionSizeExact(c);
    CellRange(c.RingsEnd(), c.CellCount(), c.packetBufferSize, x);
  }

  lemma RingInside(c: MemoryConfig, g: nat)
    requires Sound(c) && g < c.RingCount()
    ensures Ring(c.RingStart(g), c.log2RingSize).End() <= c.RingsEnd() <= c.RegionSize()
  {
    MulApart(g, c.RingCount(), c.RingBytes());
    RegionSizeExact(c);
    MulApart(0, c.CellCount(), c.packetBufferSize);
  }

  lemma {:induction false} LogFits(k: nat)
    requires Pow2(k) < 0x8000
    ensures k <= 15
  {
    if k > 15 { Pow2Of16(); Pow2Monotone(15, k); }
  }

  lemma BuffersFit(c: MemoryConfig, G: Geometry, g: nat, first: nat, i: nat)
    requires Sound(c) && g < c.RingCount() && first + Pow2(c.log2RingSize) <= c.CellCount()
    requires G == RingAt(c, g, first) && i < |G.bufs|
    ensures G.bufs[i] + G.cap <= G.total && G.Apart(G.ring.offset, G.ring.End(), i)
  {
    RingInside(c, g);
    CellsFit(c, first + i);
  }

  lemma BuffersApart(c: MemoryConfig, G: Geometry, g: nat, first: nat, i: nat, j: nat)
    requires G == RingAt(c, g, first) && i < |G.bufs| && j < |G.bufs| && i != j
    ensures G.Disjoint(i, j)
  {
    MulApart(first + i, first + j, c.packetBufferSize);
  }

  lemma SoundLog(c: MemoryConfig)
    requires Sound(c)
    ensures c.log2RingSize <= 15
  {
    MulApart(1, c.RingCount(), c.RingBytes());
    LogFits(c.log2RingSize);
  }

  lemma RingAtValid(c: MemoryConfig, g: nat, first: nat)
    requires Sound(c) && g < c.RingCount() && first + Pow2(c.log2RingSize) <= c.CellCount()
    ensures RingAt(c, g, first).Valid()
  {
    var G := RingAt(c, g, first);
    RingInside(c, g);
    SoundLog(c);
    forall i | 0 <= i < |G.bufs| ensures G.bufs[i] + G.cap <= G.total && G.Apart(G.ring.offset, G.ring.End(), i) {
      BuffersFit(c, G, g, first, i);
    }
    forall i: nat, j: nat | i < |G.bufs| && j < |G.bufs| && i != j ensures G.Disjoint(i, j) {
      BuffersApart(c, G, g, first, i, j);
    }
  }

  lemma CellsOfFirst(c: MemoryConfig)
    requires c.numQueuePairs > 0
    ensures 2 * Pow2(c.log2RingSize) <= c.CellCount()
  {
    MulApart(2, c.RingCount(), Pow2(c.log2RingSize));
  }

  /** addRegion leaves that room for one queue pair, or for packet buffers of 8 bytes or more. */
  lemma RegionHasRoom(c: MemoryConfig)
    requires Sound(c) && (c.numQueuePairs == 1 || c.packetBufferSize >= 8)
    ensures RoomNeeded(c) <= c.RegionSize()
  {
    RegionSizeExact(c);
    MulApart(0, c.CellCount(), c.packetBufferSize);
    if c.numQueuePairs > 1 { RoomBelow(c.numQueuePairs, Pow2(c.log2RingSize), c.packetBufferSize); }
  }

  /** What initializeQueues needs of a region not to panic, against what it needs to store every descriptor whole. */
  lemma FitsIff(c: MemoryConfig, len: nat)
    requires c.numQueuePairs > 0
    ensures c.FitsIn(len) <==> RoomNeeded(c) <= len + DESC_SIZE
  {
    var n, p := c.numQueuePairs, Pow2(c.log2RingSize);
    Distribute(2 * n - 1, 1, c.RingBytes());
    Distribute(n - 1, 1, p);
  }

  lemma RoomBelow(n: nat, p: nat, b: nat)
    requires n > 0 && b >= 8
    ensures DESC_SIZE * ((n - 1) * p) <= (2 * n * p) * b
  {
    MulApart(n - 1, n, p);
    Associate(2, n, p);
    assert 2 * n * p == 2 * (n * p);
    MulApart(8, b, 2 * n * p);
  }

  lemma EntryIsCell(c: MemoryConfig, m: seq<byte>, G: Geometry, first: nat, j: nat)
    requires G.Valid() && |m| == G.total && j < G.ring.Size() && G.cap == c.packetBufferSize
    requires EntryOk(m, c, G.ring.Desc(0), first, j) && BufferOffset(c, first + j) == G.bufs[j]
    ensures G.LaidAt(m, j) && G.CellAt(m, j).len == G.cap
  {
  }

  lemma TableIsLaid(c: MemoryConfig, m: seq<byte>, g: nat, first: nat, G: Geometry)
    requires Sound(c) && |m| == c.RegionSize() && g < c.RingCount() && first + Pow2(c.log2RingSize) <= c.CellCount()
    requires G == RingAt(c, g, first) && EntriesOk(m, c, G.ring.Desc(0), first, Pow2(c.log2RingSize))
    ensures G.Laid(m) && forall i :: 0 <= i < G.ring.Size() ==> G.CellAt(m, i).len == G.cap
  {
    RingAtValid(c, g, first);
    forall j | 0 <= j < G.ring.Size() ensures G.LaidAt(m, j) && G.CellAt(m, j).len == G.cap {
      assert EntryOk(m, c, G.ring.Desc(0), first, j);
      CellsFit(c, first + j);
      EntryIsCell(c, m, G, first, j);
    }
  }

  /** A ring whose header and table are in order is a fresh ring of the data path. */
  lemma RingIsFresh(c: MemoryConfig, m: seq<byte>, g: nat, first: nat)
    requires Sound(c) && |m| == c.RegionSize() && g < c.RingCount() && first + Pow2(c.log2RingSize) <= c.CellCount()
    requires HeaderOk(m, c.RingStart(g)) && TableOk(m, c, g, first)
    ensures Fresh(RingAt(c, g, first), AtRest(m))
  {
    TableIsLaid(c, m, g, first, RingAt(c, g, first));
  }

  /** After initializeQueues the first ring of either direction is a fresh ring of the data path. */
  lemma InitializedIsFresh(c: MemoryConfig, m0: seq<byte>, m: seq<byte>, dir: A.Direction)
    requires Sound(c) && Initialized(c, m0, m) && |m| == c.RegionSize()
    ensures Fresh(FirstRing(c, dir), AtRest(m))
  {
    var g := if dir.S2M? then 0 else c.numQueuePairs;
    assert HeaderOk(m, c.RingStart(g)) && TableOk(m, c, g, 0);
    CellsOfFirst(c);
    RingIsFresh(c, m, g, 0);
  }

  /** The S2M tables come out as intended exactly when there is one queue pair. */
  lemma S2MIntendedIffOnePair(c: MemoryConfig, m0: seq<byte>, m: seq<byte>)
    requires c.numQueuePairs > 0 && c.packetBufferSize > 0 && Initialized(c, m0, m) && c.RingStart(2) <= |m|
    requires forall k :: 0 <= k < |m0| ==> m0[k] == 0
    ensures (forall g: nat :: g < c.numQueuePairs ==> AsIntended(m, c, g)) <==> c.numQueuePairs == 1
  {
    if c.numQueuePairs > 1 {
      SecondTableUntouched(c, m0, m, 0);
      assert !EntryOk(m, c, c.RingStart(1) + RING_SIZE, 1 * Pow2(c.log2RingSize), 0);
      assert !AsIntended(m, c, 1);
    } else {
      forall g: nat | g < c.numQueuePairs ensures AsIntended(m, c, g) {
        assert g == 0 && TableOk(m, c, 0, 0);
      }
    }
  }

  lemma OffsetsDiffer(c: MemoryConfig, x: nat, y: nat)
    requires Sound(c) && x < y < c.CellCount()
    ensures BufferOffset(c, x) != BufferOffset(c, y)
  {
    CellsFit(c, x);
    CellsFit(c, y);
    MulApart(x, y, c.packetBufferSize);
  }

  /**
   The M2S tables never come out as intended: slot 0 of the first M2S ring gets buffer 0, and the
   buffer that addRegion made room for is another one.
   */
  lemma M2SNeverIntended(c: MemoryConfig, m0: seq<byte>, m: seq<byte>)
    requires Sound(c) && Initialized(c, m0, m)
    ensures EntryOk(m, c, c.RingStart(c.numQueuePairs) + RING_SIZE, 0, 0) && !AsIntended(m, c, c.numQueuePairs)
  {
    var n, t := c.numQueuePairs, c.RingStart(c.numQueuePairs) + RING_SIZE;
    MulApart(0, n, Pow2(c.log2RingSize));
    Distribute(n, n, Pow2(c.log2RingSize));
    OffsetsDiffer(c, 0, n * Pow2(c.log2RingSize));
    assert TableOk(m, c, n, 0) && EntryOk(m, c, t, 0, 0);
    assert !EntryOk(m, c, t, n * Pow2(c.log2RingSize), 0);
  }

  /** With two or more pairs the second S2M ring keeps the all-zero table of the new mapping. */
  lemma SecondTableUntouched(c: MemoryConfig, m0: seq<byte>, m: seq<byte>, j: nat)
    requires c.numQueuePairs > 1 && Initialized(c, m0, m) && c.RingStart(2) <= |m| && j < Pow2(c.log2RingSize)
    requires forall k :: 0 <= k < |m0| ==> m0[k] == 0
    ensures DescOk(m, c.RingStart(1) + RING_SIZE + DESC_SIZE * j, 0, 0)
  {
    var lo, hi, o := c.RingStart(1) + RING_SIZE, c.RingStart(2), c.RingStart(1) + RING_SIZE + DESC_SIZE * j;
    Distribute(1, 1, c.RingBytes());
    FieldRange(m0, m, lo, hi, o + DESC_FLAGS);
    FieldRange(m0, m, lo, hi, o + DESC_REGION);
    FieldRange(m0, m, lo, hi, o + DESC_LENGTH);
    FieldRange(m0, m, lo, hi, o + DESC_OFFSET);
  }

  /** In the bytes: slot j of the first S2M ring and slot j of the first M2S ring point to the same buffer. */
  lemma DirectionsShareBuffers(c: MemoryConfig, m0: seq<byte>, m: seq<byte>, j: nat)
    requires c.numQueuePairs > 0 && Initialized(c, m0, m) && j < Pow2(c.log2RingSize)
    ensures var o, p := c.RingStart(0) + RING_SIZE + DESC_SIZE * j, c.RingStart(c.numQueuePairs) + RING_SIZE + DESC_SIZE * j;
            && o + DESC_SIZE <= |m| && p + DESC_SIZE <= |m|
            && Get16(m, o + DESC_REGION) == Get16(m, p + DESC_REGION)
            && Get32(m, o + DESC_OFFSET) == Get32(m, p + DESC_OFFSET) == BufferOffset(c, j)
  {
    assert TableOk(m, c, 0, 0) && EntryOk(m, c, c.RingStart(0) + RING_SIZE, 0, j);
    assert TableOk(m, c, c.numQueuePairs, 0) && EntryOk(m, c, c.RingStart(c.numQueuePairs) + RING_SIZE, 0, j);
  }
}
