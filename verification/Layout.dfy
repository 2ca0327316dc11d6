/** Region layout: the size arithmetic of addRegion and the ring placement of newRing. */
module Layout {
  import opened Arith
  import opened Bytes
  import opened RingMemory

  /** numQueuePairs is a uint16, log2RingSize a uint8 and packetBufferSize a uint32. */
  datatype MemoryConfig = MemoryConfig(numQueuePairs: nat, log2RingSize: nat, packetBufferSize: nat) {
    predicate Typed() { numQueuePairs < TWO16 && log2RingSize < 0x100 && packetBufferSize < TWO32 }

    function RingCount(): nat { 2 * numQueuePairs }

    /** Header and descriptor table of one ring. */
    function RingBytes(): (n: nat)
      ensures n > RING_SIZE
    {
      RING_SIZE + DESC_SIZE * Pow2(log2RingSize)
    }

    /** newRing places ring g (S2M rings first, then M2S) at g times the ring size, in full ints. */
    function RingStart(g: nat): nat { g * RingBytes() }

    /** Where the rings really end. */
    function RingsEnd(): nat { RingCount() * RingBytes() }

    /** addRegion's packetBufferOffset: every operand is a uint16, so every operation wraps. */
    function PacketBufferOffset(): nat {
      var pairs := (numQueuePairs + numQueuePairs) % TWO16;
      var table := DESC_SIZE * (Pow2(log2RingSize) % TWO16) % TWO16;
      pairs * ((RING_SIZE + table) % TWO16) % TWO16
    }

    /** addRegion's size: a uint32 sum and product. */
    function RegionSize(): nat {
      var cells := packetBufferSize * (Pow2(log2RingSize) % TWO32) % TWO32;
      (PacketBufferOffset() + cells * ((numQueuePairs + numQueuePairs) % TWO16) % TWO32) % TWO32
    }

    function CellCount(): nat { RingCount() * Pow2(log2RingSize) }

    /** Packet buffer x of the region. */
    function CellStart(x: nat): nat { PacketBufferOffset() + x * packetBufferSize }

    /**
     No store of initializeQueues starts beyond a region of that many bytes: the farthest is that of the
     last descriptor of the last M2S ring, whose slot counts on from the queues before it.
     */
    predicate FitsIn(len: nat) {
      numQueuePairs == 0 ||
      RingStart(2 * numQueuePairs - 1) + RING_SIZE + DESC_SIZE * (numQueuePairs * Pow2(log2RingSize) - 1) <= len
    }

    /** Neither the uint16 nor the uint32 arithmetic wraps. */
    ghost predicate NoWrap() {
      Typed() && RingsEnd() < TWO16 && RingsEnd() + CellCount() * packetBufferSize < TWO32
    }
  }

  /** newRing on the client: S2M rings first, then the M2S rings. */
  function NewRing(c: MemoryConfig, s2m: bool, index: nat): Ring {
    Ring((if s2m then 0 else c.numQueuePairs * c.RingBytes()) + index * c.RingBytes(), c.log2RingSize)
  }

  lemma NewRingPlace(c: MemoryConfig, s2m: bool, index: nat)
    ensures NewRing(c, s2m, index).offset == c.RingStart(if s2m then index else c.numQueuePairs + index)
  {
    Distribute(c.numQueuePairs, index, c.RingBytes());
  }

  lemma ModShift(x: nat, y: nat, m: nat)
    requires m > 0
    ensures (x * m + y) % m == y % m
  {
    assert y == y / m * m + y % m;
    Distribute(x, y / m, m);
    DivModUnique(x * m + y, m, x + y / m, y % m);
  }

  lemma MulModLeft(a: nat, b: nat, m: nat)
    requires m > 0
    ensures (a % m) * b % m == a * b % m
  {
    var q, r := a / m, a % m;
    assert a == q * m + r;
    Distribute(q * m, r, b);
    Associate(q, m, b);
    Associate(q, b, m);
    assert a * b == (q * b) * m + r * b;
    ModShift(q * b, r * b, m);
  }

  lemma MulMod(a: nat, b: nat, m: nat)
    requires m > 0
    ensures (a % m) * (b % m) % m == a * b % m
  {
    MulModLeft(a, b % m, m);
    MulModLeft(b, a, m);
    assert a * (b % m) == (b % m) * a && a * b == b * a;
  }

  /** packetBufferOffset is the end of the rings modulo 2^16. */
  lemma OffsetIsMod(c: MemoryConfig)
    ensures c.PacketBufferOffset() == c.RingsEnd() % TWO16
  {
    var p := Pow2(c.log2RingSize);
    assert (RING_SIZE + DESC_SIZE * (p % TWO16) % TWO16) % TWO16 == c.RingBytes() % TWO16;
    MulMod(c.RingCount(), c.RingBytes(), TWO16);
  }

  /** It agrees with the ring placement exactly when the rings end below 2^16. */
  lemma OffsetExactIff(c: MemoryConfig)
    ensures c.PacketBufferOffset() == c.RingsEnd() <==> c.RingsEnd() < TWO16
  {
    OffsetIsMod(c);
  }

  ghost predicate InRing(c: MemoryConfig, g: nat, o: nat) {
    g < c.RingCount() && c.RingStart(g) <= o < c.RingStart(g) + c.RingBytes()
  }

  lemma HitRingsIff(c: MemoryConfig, o: nat)
    requires o == c.RingsEnd() % TWO16
    ensures (exists g: nat :: InRing(c, g, o)) <==> c.RingsEnd() >= TWO16
  {
    if c.RingsEnd() >= TWO16 {
      RingAround(c, o);
    } else {
      forall g: nat | InRing(c, g, o) ensures false {
        MulApart(g, c.RingCount(), c.RingBytes());
      }
    }
  }

  /** The first packet buffer starts inside some ring exactly when the rings end at 2^16 or later. */
  lemma BuffersHitRingsIff(c: MemoryConfig)
    ensures (exists g: nat :: InRing(c, g, c.PacketBufferOffset())) <==> c.RingsEnd() >= TWO16
  {
    OffsetIsMod(c);
    HitRingsIff(c, c.PacketBufferOffset());
  }

  /** The rings leave no gaps. */
  lemma RingAround(c: MemoryConfig, o: nat)
    requires o < c.RingsEnd()
    ensures InRing(c, o / c.RingBytes(), o)
  {
    var n := c.RingBytes();
    var g := o / n;
    assert o == g * n + o % n;
    MulApart(g, c.RingCount(), n);
  }

  /** A queue pair with rings of 2^11 slots is such a case: the buffers start at 256, in the first ring. */
  lemma WrapExample()
    ensures MemoryConfig(1, 11, 2048).RingsEnd() == 65792
    ensures MemoryConfig(1, 11, 2048).PacketBufferOffset() == 256
  {
    Pow2Add(4, 4);
    Pow2Add(8, 3);
    assert Pow2(4) == 16 && Pow2(3) == 8;
    OffsetIsMod(MemoryConfig(1, 11, 2048));
  }

  lemma SumOfProducts(o: nat, b: nat, p: nat, n: nat)
    ensures (o + (b * (p % TWO32) % TWO32) * n % TWO32) % TWO32 == (o + p * (b * n)) % TWO32
  {
    MulModLeft(b * (p % TWO32), n, TWO32);
    assert b * (p % TWO32) * n == (p % TWO32) * (b * n) by { Associate(p % TWO32, b, n); }
    MulModLeft(p, b * n, TWO32);
  }

  /** The region size for any configuration, modulo 2^32: every slot of 2N mod 2^16 rings gets a buffer. */
  lemma RegionSizeMod(c: MemoryConfig)
    ensures c.RegionSize() ==
            (c.PacketBufferOffset() + Pow2(c.log2RingSize) * (c.packetBufferSize * (2 * c.numQueuePairs % TWO16))) % TWO32
  {
    SumOfProducts(c.PacketBufferOffset(), c.packetBufferSize, Pow2(c.log2RingSize), 2 * c.numQueuePairs % TWO16);
  }

  lemma ProductBelow(n: nat, p: nat, b: nat, max: nat)
    requires n > 0 && p > 0 && b > 0 && (n * p) * b < max
    ensures n < max && p < max && b * p < max && b * p * n == (n * p) * b
  {
    Associate(n, p, b);
    assert b * p == p * b && b * p * n == n * (p * b);
    MulApart(1, n, p * b);
    MulApart(0, p, b);
    MulApart(1, b, p);
    MulApart(1, p * b, n);
  }

  lemma SizeArithmetic(o: nat, n: nat, p: nat, b: nat)
    requires 0 < n < TWO16 && p > 0 && b > 0 && o + (n * p) * b < TWO32
    ensures (o + (b * (p % TWO32) % TWO32) * (n % TWO16) % TWO32) % TWO32 == o + (n * p) * b
  {
    ProductBelow(n, p, b, TWO32);
    assert p % TWO32 == p && n % TWO16 == n;
    Small(b * p);
    Small(b * p * n);
    Small(o + b * p * n);
  }

  lemma Small(x: nat)
    requires x < TWO32
    ensures x % TWO32 == x
  {
  }

  lemma RegionSizeExact(c: MemoryConfig)
    requires c.NoWrap() && c.packetBufferSize > 0 && c.numQueuePairs > 0
    ensures c.RegionSize() == c.RingsEnd() + c.CellCount() * c.packetBufferSize
  {
    OffsetExactIff(c);
    var n := c.RingCount();
    assert n < TWO16 by {
      MulApart(1, c.RingBytes(), n);
      assert c.RingBytes() * n == c.RingsEnd();
    }
    SizeArithmetic(c.PacketBufferOffset(), n, Pow2(c.log2RingSize), c.packetBufferSize);
  }

  /** Without wrap-around all rings and all packet buffers are disjoint and inside the region. */
  lemma LayoutDisjoint(c: MemoryConfig, g: nat, h: nat, x: nat, y: nat)
    requires c.NoWrap() && c.packetBufferSize > 0
    requires g < h < c.RingCount() && x < y < c.CellCount()
    ensures c.RingStart(g) + c.RingBytes() <= c.RingStart(h)
    ensures c.RingStart(h) + c.RingBytes() <= c.CellStart(x)
    ensures c.CellStart(x) + c.packetBufferSize <= c.CellStart(y)
    ensures c.CellStart(y) + c.packetBufferSize <= c.RegionSize()
  {
    OffsetExactIff(c);
    RegionSizeExact(c);
    MulApart(g, h, c.RingBytes());
    MulApart(h, c.RingCount(), c.RingBytes());
    MulApart(0, x, c.packetBufferSize);
    MulApart(x, y, c.packetBufferSize);
    MulApart(y, c.CellCount(), c.packetBufferSize);
  }
}
