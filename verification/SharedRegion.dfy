/** All rings of a region at once: every peer of every ring works on the same memory. */
module SharedRegion {
  import opened Bytes
  import opened DataPath
  import opened Interference
  import opened Refinement
  import opened RingMemory
  import A = RingProtocol
  import C = RingSteps
  import Capacity

  /** The shared bytes, and the two peers of each ring (whose own mem field plays no part). */
  datatype World = World(mem: seq<byte>, peers: seq<C.State>)

  /** A step of one of the peers of one ring. */
  datatype Event = Event(ring: nat, act: C.Action)

  /** Ring j with the memory as it is. */
  function View(w: World, j: nat): C.State
    requires j < |w.peers|
  {
    w.peers[j].(mem := w.mem)
  }

  ghost predicate ShapedAt(Gs: seq<Geometry>, w: World, j: nat)
    requires j < |Gs| == |w.peers|
  {
    C.Shaped(Conf(Gs[j]), View(w, j))
  }

  ghost predicate Shaped(Gs: seq<Geometry>, w: World) {
    |Gs| == |w.peers| && forall j :: 0 <= j < |Gs| ==> ShapedAt(Gs, w, j)
  }

  function Step(Gs: seq<Geometry>, w: World, e: Event): (w': World)
    requires Shaped(Gs, w)
    ensures Shaped(Gs, w')
  {
    if e.ring >= |Gs| then w
    else
      assert ShapedAt(Gs, w, e.ring);
      var s := C.Step(Conf(Gs[e.ring]), View(w, e.ring), e.act);
      var w' := World(s.mem, w.peers[e.ring := s]);
      assert forall j {:trigger ShapedAt(Gs, w', j)} :: 0 <= j < |Gs| ==> ShapedAt(Gs, w, j) && ShapedAt(Gs, w', j);
      w'
  }

  function Run(Gs: seq<Geometry>, w: World, evs: seq<Event>): (w': World)
    requires Shaped(Gs, w)
    ensures Shaped(Gs, w')
    decreases |evs|
  {
    if evs == [] then w else Step(Gs, Run(Gs, w, evs[..|evs| - 1]), evs[|evs| - 1])
  }

  // ---- where the rings lie

  /** Header and table of H lie apart from those of G and from the buffers of G. */
  ghost predicate Compatible(G: Geometry, H: Geometry) {
    && G.total == H.total && (G.ring.End() <= H.ring.offset || H.ring.End() <= G.ring.offset)
    && forall i :: 0 <= i < |G.bufs| ==> G.Apart(H.ring.offset, H.ring.End(), i)
  }

  ghost predicate AllCompatible(Gs: seq<Geometry>) {
    forall j, k :: 0 <= j < |Gs| && 0 <= k < |Gs| && j != k ==> Compatible(Gs[j], Gs[k])
  }

  /** Buffer i of G and buffer x of H have no byte in common. */
  ghost predicate Distinct(G: Geometry, i: nat, H: Geometry, x: nat)
    requires i < |G.bufs| && x < |H.bufs|
  {
    H.Apart(G.bufs[i], G.bufs[i] + G.cap, x)
  }

  // ---- a copy that disturbs nobody

  /** No busy slot of ring H overlaps the buffer of slot i of ring G. */
  ghost predicate Clear(G: Geometry, i: nat, H: Geometry, s: C.State) {
    && H.Valid() && |s.mem| == H.total && i < |G.bufs|
    && forall x :: 0 <= x < |H.bufs| && Busy(Conf(H), s, x) ==> Distinct(G, i, H, x)
  }

  /** If the event copies into a buffer, no other ring has that buffer in use. */
  ghost predicate Polite(Gs: seq<Geometry>, w: World, e: Event)
    requires Shaped(Gs, w)
  {
    e.ring < |Gs| && Copies(View(w, e.ring), e.act) ==>
      forall k :: 0 <= k < |Gs| && k != e.ring ==>
        Clear(Gs[e.ring], Gs[e.ring].ring.Slot(View(w, e.ring).w.slot), Gs[k], View(w, k))
  }

  ghost predicate PoliteRun(Gs: seq<Geometry>, w: World, evs: seq<Event>)
    requires Shaped(Gs, w)
    decreases |evs|
  {
    evs == [] ||
    (PoliteRun(Gs, w, evs[..|evs| - 1]) && Polite(Gs, Run(Gs, w, evs[..|evs| - 1]), evs[|evs| - 1]))
  }

  // ---- every ring stays as if it were alone

  ghost predicate Sane(G: Geometry, s: C.State) { exists a :: Good(G, s, a) }

  ghost predicate AllSane(Gs: seq<Geometry>, w: World) {
    |Gs| == |w.peers| && forall j :: 0 <= j < |Gs| ==> Sane(Gs[j], View(w, j))
  }

  lemma SaneStep(G: Geometry, s: C.State, act: C.Action)
    requires Sane(G, s)
    ensures C.Shaped(Conf(G), s) && Sane(G, C.Step(Conf(G), s, act))
  {
    var a :| Good(G, s, a);
    GoodStep(G, s, a, act);
  }

  lemma GoodStep(G: Geometry, s: C.State, a: A.State, act: C.Action)
    requires Good(G, s, a)
    ensures Good(G, C.Step(Conf(G), s, act), A.Step(G.Abs(), a, AbsAct(act)))
  {
    StepRefines(G, s, a, act);
    A.StepKeepsInv(G.Abs(), a, AbsAct(act));
    Capacity.StepKeepsOffered(G.Abs(), a, AbsAct(act));
  }

  lemma SameBytes(m: seq<byte>, m': seq<byte>, lo: nat, hi: nat, a: nat, b: nat)
    requires Outside(m, m', lo, hi) && (b <= lo || hi <= a)
    ensures SameRange(m, m', a, b)
  {
  }

  /** A store into the header or table of G is harmless to H. */
  lemma StoreIsHarmless(G: Geometry, H: Geometry, m: seq<byte>, m': seq<byte>, b: A.State)
    requires Compatible(H, G) && H.Valid() && |m| == H.total && Outside(m, m', G.ring.offset, G.ring.End())
    ensures Harmless(H, m, m', b)
  {
    SameBytes(m, m', G.ring.offset, G.ring.End(), H.ring.offset, H.ring.End());
    forall i | 0 <= i < |H.bufs| && Live(H.Abs(), b, i) ensures SameBuffer(H, m, m', i) {
      assert H.Apart(G.ring.offset, G.ring.End(), i) && H.bufs[i] + H.cap <= H.total;
      SameSlice(m, m', G.ring.offset, G.ring.End(), H.bufs[i], H.bufs[i] + H.cap);
    }
  }

  /** A copy into a buffer of G that is clear of H is harmless to H. */
  lemma CopyIsHarmless(G: Geometry, i: nat, H: Geometry, s: C.State, b: A.State, m': seq<byte>)
    requires Compatible(G, H) && Spans(H, s, b.r.last, b.pub + Taken(b.w)) && Clear(G, i, H, s)
    requires Outside(s.mem, m', G.bufs[i], G.bufs[i] + G.cap)
    ensures Harmless(H, s.mem, m', b)
  {
    assert G.Apart(H.ring.offset, H.ring.End(), i);
    SameBytes(s.mem, m', G.bufs[i], G.bufs[i] + G.cap, H.ring.offset, H.ring.End());
    forall x | 0 <= x < |H.bufs| && Live(H.Abs(), b, x) ensures SameBuffer(H, s.mem, m', x) {
      LiveIsBusy(H, s, b, x);
      assert Distinct(G, i, H, x) && H.bufs[x] + H.cap <= H.total;
      SameSlice(s.mem, m', G.bufs[i], G.bufs[i] + G.cap, H.bufs[x], H.bufs[x] + H.cap);
    }
  }

  lemma HarmlessSane(H: Geometry, s: C.State, b: A.State, m': seq<byte>)
    requires Good(H, s, b) && Harmless(H, s.mem, m', b)
    ensures Sane(H, s.(mem := m'))
  {
    HarmlessKeeps(H, s, b, m', b.(cells := H.Cells(m')));
  }

  /** A step on ring G leaves ring H sane. */
  lemma OtherStaysSane(G: Geometry, s: C.State, act: C.Action, H: Geometry, t: C.State, m': seq<byte>)
    requires Sane(G, s) && Sane(H, t) && s.mem == t.mem && Compatible(G, H) && Compatible(H, G)
    requires C.Shaped(Conf(G), s) && m' == C.Step(Conf(G), s, act).mem
    requires Copies(s, act) ==> Clear(G, G.ring.Slot(s.w.slot), H, t)
    ensures Sane(H, t.(mem := m'))
  {
    var a :| Good(G, s, a);
    var b :| Good(H, t, b);
    if Copies(s, act) {
      CopyStores(G, s, a, G.ring.Slot(s.w.slot));
      LiveSpan(H, t, b);
      CopyIsHarmless(G, G.ring.Slot(s.w.slot), H, t, b, m');
    } else {
      OwnStores(Conf(G), s, act);
      StoreIsHarmless(G, H, s.mem, m', b);
    }
    HarmlessSane(H, t, b, m');
  }

  lemma SaneMem(G: Geometry, s: C.State)
    requires Sane(G, s)
    ensures G.Valid() && |s.mem| == G.total
  {
    var a :| Good(G, s, a);
  }

  lemma SaneIsShaped(Gs: seq<Geometry>, w: World)
    requires AllSane(Gs, w)
    ensures Shaped(Gs, w)
  {
    forall j | 0 <= j < |Gs| ensures ShapedAt(Gs, w, j) {
      assert Sane(Gs[j], View(w, j));
      var a :| Good(Gs[j], View(w, j), a);
    }
  }

  lemma StepKeepsSane(Gs: seq<Geometry>, w: World, e: Event)
    requires AllCompatible(Gs) && AllSane(Gs, w) && Shaped(Gs, w) && Polite(Gs, w, e)
    ensures AllSane(Gs, Step(Gs, w, e))
  {
    if e.ring < |Gs| {
      var w', s := Step(Gs, w, e), View(w, e.ring);
      SaneStep(Gs[e.ring], s, e.act);
      forall k | 0 <= k < |Gs| ensures Sane(Gs[k], View(w', k)) {
        if k == e.ring {
          assert View(w', k) == C.Step(Conf(Gs[k]), s, e.act);
        } else {
          assert Compatible(Gs[e.ring], Gs[k]) && Compatible(Gs[k], Gs[e.ring]);
          OtherStaysSane(Gs[e.ring], s, e.act, Gs[k], View(w, k), w'.mem);
          assert View(w', k) == View(w, k).(mem := w'.mem);
        }
      }
    }
  }

  lemma {:induction false} RunKeepsSane(Gs: seq<Geometry>, w: World, evs: seq<Event>)
    requires AllCompatible(Gs) && AllSane(Gs, w) && Shaped(Gs, w) && PoliteRun(Gs, w, evs)
    ensures AllSane(Gs, Run(Gs, w, evs))
    decreases |evs|
  {
    if evs != [] {
      RunKeepsSane(Gs, w, evs[..|evs| - 1]);
      StepKeepsSane(Gs, Run(Gs, w, evs[..|evs| - 1]), evs[|evs| - 1]);
    }
  }

  // ---- the theorems

  /** No fault, the two peers on different slots, and packets in order. */
  ghost predicate Safe(G: Geometry, s: C.State) {
    G.Valid() && Unharmed(s) && Separate(G, s) && InOrder(G.Abs(), s)
  }

  lemma SaneIsSafe(G: Geometry, s: C.State)
    requires Sane(G, s)
    ensures Safe(G, s)
  {
    var a :| Good(G, s, a);
    GoodIsSafe(G, s, a);
    GoodIsInOrder(G, s, a);
  }

  ghost predicate AllFresh(Gs: seq<Geometry>, w: World) {
    |Gs| == |w.peers| && forall j :: 0 <= j < |Gs| ==> Fresh(Gs[j], View(w, j))
  }

  lemma FreshIsSane(G: Geometry, s: C.State)
    requires Fresh(G, s)
    ensures Sane(G, s)
  {
    RunFromFresh(G, s, []);
    assert Good(G, s, Behind(G, s, []));
  }

  lemma AllFreshSane(Gs: seq<Geometry>, w: World)
    requires AllFresh(Gs, w)
    ensures AllSane(Gs, w) && Shaped(Gs, w)
  {
    forall j | 0 <= j < |Gs| ensures Sane(Gs[j], View(w, j)) { FreshIsSane(Gs[j], View(w, j)); }
    SaneIsShaped(Gs, w);
  }

  /**
   Any number of rings in one region, all peers interleaved in any way, buffers shared or not: as long as
   no copy goes into a buffer that another ring has in use, every ring is safe and delivers in order.
   */
  lemma PoliteRunsAreSafe(Gs: seq<Geometry>, w: World, evs: seq<Event>, j: nat)
    requires AllCompatible(Gs) && AllFresh(Gs, w) && Shaped(Gs, w) && PoliteRun(Gs, w, evs) && j < |Gs|
    ensures Safe(Gs[j], View(Run(Gs, w, evs), j))
  {
    AllFreshSane(Gs, w);
    RunKeepsSane(Gs, w, evs);
    SaneIsSafe(Gs[j], View(Run(Gs, w, evs), j));
  }

  /** Buffers of different rings have no byte in common. */
  ghost predicate AllDistinct(Gs: seq<Geometry>) {
    forall j, k, i, x :: 0 <= j < |Gs| && 0 <= k < |Gs| && j != k && 0 <= i < |Gs[j].bufs| && 0 <= x < |Gs[k].bufs| ==>
      Distinct(Gs[j], i, Gs[k], x)
  }

  lemma DistinctIsPolite(Gs: seq<Geometry>, w: World, e: Event)
    requires AllDistinct(Gs) && AllSane(Gs, w) && Shaped(Gs, w)
    ensures Polite(Gs, w, e)
  {
    if e.ring < |Gs| && Copies(View(w, e.ring), e.act) {
      var i := Gs[e.ring].ring.Slot(View(w, e.ring).w.slot);
      forall k | 0 <= k < |Gs| && k != e.ring ensures Clear(Gs[e.ring], i, Gs[k], View(w, k)) {
        SaneMem(Gs[e.ring], View(w, e.ring));
        SaneMem(Gs[k], View(w, k));
        assert forall x {:trigger Distinct(Gs[e.ring], i, Gs[k], x)} ::
            0 <= x < |Gs[k].bufs| ==> Distinct(Gs[e.ring], i, Gs[k], x);
      }
    }
  }

  lemma {:induction false} DistinctRun(Gs: seq<Geometry>, w: World, evs: seq<Event>)
    requires AllCompatible(Gs) && AllDistinct(Gs) && AllSane(Gs, w) && Shaped(Gs, w)
    ensures PoliteRun(Gs, w, evs)
    decreases |evs|
  {
    if evs != [] {
      var pre := evs[..|evs| - 1];
      DistinctRun(Gs, w, pre);
      RunKeepsSane(Gs, w, pre);
      DistinctIsPolite(Gs, Run(Gs, w, pre), evs[|evs| - 1]);
    }
  }

  /** With buffers of their own, all rings are safe in every run of all the peers. */
  lemma DistinctBuffersAreSafe(Gs: seq<Geometry>, w: World, evs: seq<Event>, j: nat)
    requires AllCompatible(Gs) && AllDistinct(Gs) && AllFresh(Gs, w) && Shaped(Gs, w) && j < |Gs|
    ensures Safe(Gs[j], View(Run(Gs, w, evs), j))
  {
    AllFreshSane(Gs, w);
    DistinctRun(Gs, w, evs);
    PoliteRunsAreSafe(Gs, w, evs, j);
  }
}
