/**
 The two rings of the first queue pair at once, in the region that initializeQueues leaves behind: both
 own the same packet buffers.  When that does no harm, what happens otherwise, and the layout meant.
 */
module CrossTalk {
  import opened Arith
  import opened Bytes
  import opened DataPath
  import opened FreshRings
  import opened Interference
  import opened Layout
  import opened MemRegion
  import opened Refinement
  import opened RingMemory
  import opened SharedRegion
  import A = RingProtocol
  import C = RingSteps

  /** Ring 0 of the world is the first S2M ring, ring 1 the first M2S ring. */
  function Pair(c: MemoryConfig): seq<Geometry> { [FirstRing(c, A.S2M), FirstRing(c, A.M2S)] }

  function Begin(m: seq<byte>): World { World(m, [AtRest(m), AtRest(m)]) }

  lemma RingsCompatible(c: MemoryConfig, g: nat, f: nat, h: nat, f': nat)
    requires Sound(c) && g < c.RingCount() && h < c.RingCount() && g != h
    requires f + Pow2(c.log2RingSize) <= c.CellCount()
    ensures Compatible(RingAt(c, g, f), RingAt(c, h, f'))
  {
    var G, H := RingAt(c, g, f), RingAt(c, h, f');
    MulApart(g, h, c.RingBytes());
    RingInside(c, h);
    forall i | 0 <= i < |G.bufs| ensures G.Apart(H.ring.offset, H.ring.End(), i) { CellsFit(c, f + i); }
  }

  lemma PairCompatible(c: MemoryConfig)
    requires Sound(c)
    ensures AllCompatible(Pair(c))
  {
    CellsOfFirst(c);
    RingsCompatible(c, 0, 0, c.numQueuePairs, 0);
    RingsCompatible(c, c.numQueuePairs, 0, 0, 0);
  }

  lemma PairFresh(c: MemoryConfig, m0: seq<byte>, m: seq<byte>)
    requires Sound(c) && Initialized(c, m0, m) && |m| == c.RegionSize()
    ensures AllFresh(Pair(c), Begin(m)) && Shaped(Pair(c), Begin(m))
  {
    InitializedIsFresh(c, m0, m, A.S2M);
    InitializedIsFresh(c, m0, m, A.M2S);
    AllFreshSane(Pair(c), Begin(m));
  }

  // ---- when sharing does no harm

  /** The event does not copy into slot i of its ring while slot i of the other ring is unread or being written. */
  ghost predicate Undisturbed(c: MemoryConfig, w: World, e: Event)
    requires Shaped(Pair(c), w)
  {
    e.ring < 2 && Copies(View(w, e.ring), e.act) ==>
      assert ShapedAt(Pair(c), w, 1 - e.ring);
      !Busy(Conf(Pair(c)[1 - e.ring]), View(w, 1 - e.ring), Pair(c)[e.ring].ring.Slot(View(w, e.ring).w.slot))
  }

  ghost predicate UndisturbedRun(c: MemoryConfig, w: World, evs: seq<Event>)
    requires Shaped(Pair(c), w)
    decreases |evs|
  {
    evs == [] ||
    (UndisturbedRun(c, w, evs[..|evs| - 1]) && Undisturbed(c, Run(Pair(c), w, evs[..|evs| - 1]), evs[|evs| - 1]))
  }

  lemma SameBuffersDistinct(c: MemoryConfig, j: nat, k: nat, i: nat, x: nat)
    requires c.packetBufferSize > 0 && j < 2 && k < 2 && i < Pow2(c.log2RingSize) && x < Pow2(c.log2RingSize)
    ensures Distinct(Pair(c)[j], i, Pair(c)[k], x) <==> i != x
  {
    MulApart(i, x, c.packetBufferSize);
  }

  lemma ClearIff(c: MemoryConfig, j: nat, k: nat, i: nat, s: C.State)
    requires c.packetBufferSize > 0 && j < 2 && k < 2 && i < Pow2(c.log2RingSize)
    requires Pair(c)[k].Valid() && |s.mem| == Pair(c)[k].total
    ensures Clear(Pair(c)[j], i, Pair(c)[k], s) <==> !Busy(Conf(Pair(c)[k]), s, i)
  {
    SameBuffersDistinct(c, j, k, i, i);
    forall x | 0 <= x < Pow2(c.log2RingSize) && x != i ensures Distinct(Pair(c)[j], i, Pair(c)[k], x) {
      SameBuffersDistinct(c, j, k, i, x);
    }
  }

  lemma NotBusy(c: MemoryConfig, w: World, e: Event, k: nat, i: nat)
    requires Shaped(Pair(c), w) && Undisturbed(c, w, e)
    requires e.ring < 2 && Copies(View(w, e.ring), e.act) && k == 1 - e.ring
    requires i == Pair(c)[e.ring].ring.Slot(View(w, e.ring).w.slot)
    ensures Pair(c)[k].ring.End() <= |w.mem| && !Busy(Conf(Pair(c)[k]), View(w, k), i) && i < Pow2(c.log2RingSize)
  {
    assert ShapedAt(Pair(c), w, k);
  }

  lemma ClearIsPolite(Gs: seq<Geometry>, w: World, e: Event, k: nat, i: nat)
    requires |Gs| == 2 && Shaped(Gs, w) && e.ring < 2 && Copies(View(w, e.ring), e.act) && k == 1 - e.ring
    requires i == Gs[e.ring].ring.Slot(View(w, e.ring).w.slot) && Clear(Gs[e.ring], i, Gs[k], View(w, k))
    ensures Polite(Gs, w, e)
  {
  }

  lemma UndisturbedIsPolite(c: MemoryConfig, w: World, e: Event)
    requires Sound(c) && AllSane(Pair(c), w) && Shaped(Pair(c), w) && Undisturbed(c, w, e)
    ensures Polite(Pair(c), w, e)
  {
    if e.ring < 2 && Copies(View(w, e.ring), e.act) {
      var k, i := 1 - e.ring, Pair(c)[e.ring].ring.Slot(View(w, e.ring).w.slot);
      NotBusy(c, w, e, k, i);
      SaneMem(Pair(c)[k], View(w, k));
      ClearIff(c, e.ring, k, i, View(w, k));
      ClearIsPolite(Pair(c), w, e, k, i);
    }
  }

  lemma {:induction false} UndisturbedRunIsPolite(c: MemoryConfig, w: World, evs: seq<Event>)
    requires Sound(c) && AllCompatible(Pair(c)) && AllSane(Pair(c), w) && Shaped(Pair(c), w)
    requires UndisturbedRun(c, w, evs)
    ensures PoliteRun(Pair(c), w, evs)
    decreases |evs|
  {
    if evs != [] {
      var pre := evs[..|evs| - 1];
      UndisturbedRunIsPolite(c, w, pre);
      RunKeepsSane(Pair(c), w, pre);
      UndisturbedIsPolite(c, Run(Pair(c), w, pre), evs[|evs| - 1]);
    }
  }

  /**
   From initializeQueues on, all four peers of the first queue pair interleaved in any way: both directions
   are safe and deliver in order as long as no copy goes into a slot whose twin is unread or being written.
   */
  lemma FirstPairIsSafe(c: MemoryConfig, m0: seq<byte>, m: seq<byte>, evs: seq<Event>, j: nat)
    requires Sound(c) && Initialized(c, m0, m) && |m| == c.RegionSize() && j < 2
    requires Shaped(Pair(c), Begin(m)) && UndisturbedRun(c, Begin(m), evs)
    ensures Safe(Pair(c)[j], View(Run(Pair(c), Begin(m), evs), j))
  {
    PairFresh(c, m0, m);
    PairCompatible(c);
    AllFreshSane(Pair(c), Begin(m));
    UndisturbedRunIsPolite(c, Begin(m), evs);
    PoliteRunsAreSafe(Pair(c), Begin(m), evs, j);
  }

  // ---- the layout that addRegion makes room for

  /** All rings of the region, each slot with a buffer of its own. */
  function Intended(c: MemoryConfig, n: nat): (Gs: seq<Geometry>)
    ensures |Gs| == n && forall g :: 0 <= g < n ==> Gs[g] == RingAt(c, g, g * Pow2(c.log2RingSize))
  {
    if n == 0 then [] else Intended(c, n - 1) + [RingAt(c, n - 1, (n - 1) * Pow2(c.log2RingSize))]
  }

  lemma OwnBuffers(c: MemoryConfig, g: nat, h: nat, i: nat, x: nat)
    requires g != h && i < Pow2(c.log2RingSize) && x < Pow2(c.log2RingSize)
    ensures var p := Pow2(c.log2RingSize); Distinct(RingAt(c, g, g * p), i, RingAt(c, h, h * p), x)
  {
    var p := Pow2(c.log2RingSize);
    MulApart(g, h, p);
    MulApart(g * p + i, h * p + x, c.packetBufferSize);
  }

  lemma OwnCells(c: MemoryConfig, g: nat, first: nat)
    requires g < c.RingCount() && first == g * Pow2(c.log2RingSize)
    ensures first + Pow2(c.log2RingSize) <= c.CellCount()
  {
    MulApart(g, c.RingCount(), Pow2(c.log2RingSize));
  }

  lemma IntendedCompatible(c: MemoryConfig, j: nat, k: nat)
    requires Sound(c) && j < c.RingCount() && k < c.RingCount() && j != k
    ensures Compatible(Intended(c, c.RingCount())[j], Intended(c, c.RingCount())[k])
  {
    var p := Pow2(c.log2RingSize);
    OwnCells(c, j, j * p);
    RingsCompatible(c, j, j * p, k, k * p);
  }

  lemma IntendedIsApart(c: MemoryConfig)
    requires Sound(c)
    ensures AllCompatible(Intended(c, c.RingCount())) && AllDistinct(Intended(c, c.RingCount()))
  {
    var Gs := Intended(c, c.RingCount());
    forall j, k | 0 <= j < |Gs| && 0 <= k < |Gs| && j != k ensures Compatible(Gs[j], Gs[k]) { IntendedCompatible(c, j, k); }
    forall j, k, i, x | 0 <= j < |Gs| && 0 <= k < |Gs| && j != k && 0 <= i < |Gs[j].bufs| && 0 <= x < |Gs[k].bufs|
      ensures Distinct(Gs[j], i, Gs[k], x)
    {
      OwnBuffers(c, j, k, i, x);
    }
  }

  /** All peers of all rings at rest. */
  function AllBegin(m: seq<byte>, n: nat): World { World(m, A.Times(AtRest(m), n)) }

  lemma ApartRing(c: MemoryConfig, m: seq<byte>, g: nat)
    requires Sound(c) && SetApart(c, m, c.RingCount()) && |m| == c.RegionSize() && g < c.RingCount()
    ensures Fresh(RingAt(c, g, g * Pow2(c.log2RingSize)), AtRest(m))
  {
    assert HeaderOk(m, c.RingStart(g)) && AsIntended(m, c, g);
    OwnCells(c, g, g * Pow2(c.log2RingSize));
    RingIsFresh(c, m, g, g * Pow2(c.log2RingSize));
  }

  lemma AllAtRest(m: seq<byte>, n: nat, g: nat)
    requires g < n
    ensures View(AllBegin(m, n), g) == AtRest(m)
  {
  }

  /** The initialisation with slots counted within each ring leaves a fresh ring everywhere. */
  lemma ApartIsFresh(c: MemoryConfig, m: seq<byte>)
    requires Sound(c) && SetApart(c, m, c.RingCount()) && |m| == c.RegionSize()
    ensures AllFresh(Intended(c, c.RingCount()), AllBegin(m, c.RingCount()))
  {
    var Gs, w := Intended(c, c.RingCount()), AllBegin(m, c.RingCount());
    forall g | 0 <= g < |Gs| ensures Fresh(Gs[g], View(w, g)) {
      ApartRing(c, m, g);
      AllAtRest(m, c.RingCount(), g);
    }
  }

  /**
   From the region that InitializeApart leaves, every ring of every queue pair is safe and in order in every
   run of all the peers.
   */
  lemma IntendedLayoutIsSafe(c: MemoryConfig, m: seq<byte>, evs: seq<Event>, g: nat)
    requires Sound(c) && SetApart(c, m, c.RingCount()) && |m| == c.RegionSize() && g < c.RingCount()
    ensures Shaped(Intended(c, c.RingCount()), AllBegin(m, c.RingCount()))
    ensures Safe(Intended(c, c.RingCount())[g],
                 View(Run(Intended(c, c.RingCount()), AllBegin(m, c.RingCount()), evs), g))
  {
    ApartIsFresh(c, m);
    AllFreshSane(Intended(c, c.RingCount()), AllBegin(m, c.RingCount()));
    IntendedIsApart(c);
    DistinctBuffersAreSafe(Intended(c, c.RingCount()), AllBegin(m, c.RingCount()), evs, g);
  }
}
