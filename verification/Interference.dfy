/** What a write from outside may change on a ring without being noticed, and what a ring's own steps write. */
module Interference {
  import opened Bytes
  import opened Capacity
  import opened DataPath
  import opened Refinement
  import opened RingMemory
  import A = RingProtocol
  import C = RingSteps

  // ---- the protocol: the data of cells that hold nothing may change

  /** How many cells from pub on the write under way has filled or is filling. */
  function Taken(w: A.Writer): nat {
    match w
    case WIdle => 0
    case WGet(j) => |j.sent.chunks|
    case WCopy(j, _) => |j.sent.chunks|
    case WPut(j, _) => |j.sent.chunks| + 1
    case WPub(j) => |j.sent.chunks|
  }

  /** Cell i holds a piece that is unread or being written. */
  ghost predicate Live(P: A.Params, s: A.State, i: nat)
    requires P.Valid()
  {
    exists t: nat :: s.r.last <= t < s.pub + Taken(s.w) && A.At(P, t) == i
  }

  ghost predicate SameCell(P: A.Params, s: A.State, c: A.Cell, d: A.Cell, i: nat)
    requires P.Valid()
  {
    d.next == c.next && d.len == c.len && |d.data| == |c.data| && (Live(P, s, i) ==> d == c)
  }

  /** s' is s but for the data of cells that are not live. */
  ghost predicate Scrambled(P: A.Params, s: A.State, s': A.State) {
    && A.Shaped(P, s) && A.Shaped(P, s') && s' == s.(cells := s'.cells)
    && forall i :: 0 <= i < P.size ==> SameCell(P, s, s.cells[i], s'.cells[i], i)
  }

  lemma MatchStays(P: A.Params, s: A.State, s': A.State, base: nat, f: seq<A.Content>)
    requires Scrambled(P, s, s') && A.Match(P, s.cells, base, f)
    requires s.r.last <= base && base + |f| <= s.pub + Taken(s.w)
    ensures A.Match(P, s'.cells, base, f)
  {
    forall i | 0 <= i < |f| ensures A.Holds(s'.cells[A.At(P, base + i)], f[i]) {
      LiveStays(P, s, s', base + i);
    }
  }

  lemma LiveStays(P: A.Params, s: A.State, s': A.State, t: nat)
    requires Scrambled(P, s, s') && s.r.last <= t < s.pub + Taken(s.w)
    ensures s'.cells[A.At(P, t)] == s.cells[A.At(P, t)]
  {
    assert Live(P, s, A.At(P, t));
    assert SameCell(P, s, s.cells[A.At(P, t)], s'.cells[A.At(P, t)], A.At(P, t));
  }

  lemma FieldsStay(P: A.Params, s: A.State, s': A.State, i: nat)
    requires Scrambled(P, s, s') && i < P.size
    ensures s'.cells[i].next == s.cells[i].next && s'.cells[i].len == s.cells[i].len
  {
    assert SameCell(P, s, s.cells[i], s'.cells[i], i);
  }

  lemma ScrambledWriter(P: A.Params, s: A.State, s': A.State)
    requires Scrambled(P, s, s') && A.WriterOk(P, s) && s.r.last <= s.pub
    ensures A.WriterOk(P, s')
  {
    if !s.w.WIdle? {
      FieldsStay(P, s, s', A.At(P, s.w.job.slot));
      MatchStays(P, s, s', s.pub, A.Tagged(s.w.job.sent.chunks, !s.w.WPub?));
      if s.w.WPut? { LiveStays(P, s, s', s.w.job.slot); }
    }
  }

  lemma ScrambledReader(P: A.Params, s: A.State, s': A.State)
    requires Scrambled(P, s, s') && A.ReaderOk(P, s)
    ensures A.ReaderOk(P, s')
  {
    if s.r.RCopy? { FieldsStay(P, s, s', A.At(P, s.r.slot)); }
  }

  lemma ScrambledCells(P: A.Params, s: A.State, s': A.State)
    requires Scrambled(P, s, s') && A.CellsOk(P, s)
    ensures A.CellsOk(P, s')
  {
    forall i | 0 <= i < P.size ensures |s'.cells[i].data| == P.cap && s'.cells[i].len <= P.cap {
      assert SameCell(P, s, s.cells[i], s'.cells[i], i);
    }
  }

  lemma ScrambledQueue(P: A.Params, s: A.State, s': A.State)
    requires Scrambled(P, s, s') && A.QueueOk(P, s) && s.r.last <= s.pub
    ensures A.QueueOk(P, s')
  {
    MatchStays(P, s, s', s.r.last, A.Flat(A.Undelivered(s)));
  }

  lemma ScrambledInv(P: A.Params, s: A.State, s': A.State)
    requires A.Inv(P, s) && Scrambled(P, s, s')
    ensures A.Inv(P, s')
  {
    ScrambledCells(P, s, s');
    ScrambledQueue(P, s, s');
    ScrambledWriter(P, s, s');
    ScrambledReader(P, s, s');
  }

  lemma SameLens(P: A.Params, s: A.State, s': A.State)
    requires Scrambled(P, s, s')
    ensures forall t: nat :: s'.cells[A.At(P, t)].len == s.cells[A.At(P, t)].len
  {
    forall t: nat ensures s'.cells[A.At(P, t)].len == s.cells[A.At(P, t)].len { FieldsStay(P, s, s', A.At(P, t)); }
  }

  lemma ScrambledTraced(P: A.Params, s: A.State, s': A.State)
    requires Scrambled(P, s, s') && Traced(P, s)
    ensures Traced(P, s')
  {
    SameLens(P, s, s');
  }

  lemma ScrambledAhead(P: A.Params, s: A.State, s': A.State)
    requires Scrambled(P, s, s') && Ahead(P, s)
    ensures Ahead(P, s')
  {
    SameLens(P, s, s');
  }

  lemma ScrambledWhole(P: A.Params, s: A.State, s': A.State)
    requires Scrambled(P, s, s') && Whole(P, s)
    ensures Whole(P, s')
  {
    ScrambledTraced(P, s, s');
    ScrambledAhead(P, s, s');
  }

  // ---- the bytes: a write that leaves the ring's area and its live buffers alone

  ghost predicate SameBuffer(G: Geometry, m: seq<byte>, m': seq<byte>, i: nat)
    requires G.Valid() && |m| == |m'| == G.total && i < |G.bufs|
  {
    m'[G.bufs[i]..G.bufs[i] + G.cap] == m[G.bufs[i]..G.bufs[i] + G.cap]
  }

  /** From m to m' nothing changed that the ring in protocol state a depends on. */
  ghost predicate Harmless(G: Geometry, m: seq<byte>, m': seq<byte>, a: A.State) {
    && G.Valid() && |m| == |m'| == G.total && SameRange(m, m', G.ring.offset, G.ring.End())
    && forall i :: 0 <= i < |G.bufs| && Live(G.Abs(), a, i) ==> SameBuffer(G, m, m', i)
  }

  lemma DescStays(G: Geometry, m: seq<byte>, m': seq<byte>, i: nat)
    requires G.Laid(m) && |m'| == |m| && SameRange(m, m', G.ring.offset, G.ring.End()) && i < G.ring.Size()
    ensures G.LaidAt(m', i)
    ensures G.CellAt(m', i).next == G.CellAt(m, i).next && G.CellAt(m', i).len == G.CellAt(m, i).len
  {
    var o, lo, hi := G.ring.Desc(i), G.ring.offset, G.ring.End();
    assert G.LaidAt(m, i);
    FieldRange(m, m', lo, hi, o + DESC_FLAGS);
    FieldRange(m, m', lo, hi, o + DESC_REGION);
    FieldRange(m, m', lo, hi, o + DESC_LENGTH);
    FieldRange(m, m', lo, hi, o + DESC_OFFSET);
  }

  lemma HarmlessCells(G: Geometry, m: seq<byte>, m': seq<byte>, a: A.State, a': A.State)
    requires MemRel(G, m, a) && Harmless(G, m, m', a) && a' == a.(cells := G.Cells(m'))
    ensures Scrambled(G.Abs(), a, a') && G.Laid(m')
  {
    forall i | 0 <= i < G.ring.Size()
      ensures SameCell(G.Abs(), a, a.cells[i], a'.cells[i], i) && G.LaidAt(m', i)
    {
      DescStays(G, m, m', i);
      assert a.cells[i] == G.CellAt(m, i) && a'.cells[i] == G.CellAt(m', i);
      if Live(G.Abs(), a, i) { assert SameBuffer(G, m, m', i); }
    }
  }

  /** As long as the header and the table are the same, the memory stands for cells with other data at most. */
  lemma AreaMem(G: Geometry, m: seq<byte>, m': seq<byte>, a: A.State, a': A.State)
    requires MemRel(G, m, a) && |m'| == |m| && SameRange(m, m', G.ring.offset, G.ring.End())
    requires a' == a.(cells := G.Cells(m'))
    ensures MemRel(G, m', a')
  {
    forall i | 0 <= i < G.ring.Size() ensures G.LaidAt(m', i) { DescStays(G, m, m', i); }
    FieldRange(m, m', G.ring.offset, G.ring.End(), G.ring.offset + HEAD_OFFSET);
    FieldRange(m, m', G.ring.offset, G.ring.End(), G.ring.offset + TAIL_OFFSET);
  }

  lemma HarmlessRel(G: Geometry, s: C.State, a: A.State, m': seq<byte>, a': A.State)
    requires Rel(G, s, a) && MemRel(G, m', a') && a' == a.(cells := a'.cells)
    ensures Rel(G, s.(mem := m'), a')
  {
  }

  /** Such a write leaves the ring in a state with the same histories and all its invariants. */
  lemma HarmlessKeeps(G: Geometry, s: C.State, a: A.State, m': seq<byte>, a': A.State)
    requires Good(G, s, a) && Harmless(G, s.mem, m', a) && a' == a.(cells := G.Cells(m'))
    ensures Good(G, s.(mem := m'), a')
  {
    AreaMem(G, s.mem, m', a, a');
    HarmlessRel(G, s, a, m', a');
    HarmlessCells(G, s.mem, m', a, a');
    ScrambledInv(G.Abs(), a, a');
    ScrambledWhole(G.Abs(), a, a');
  }

  // ---- which slots those are, by the indices of the code

  /** The end of what the writer has filled, published or not. */
  function WriteEnd(q: C.Config, s: C.State): nat
    requires q.ring.End() <= |s.mem|
  {
    match s.w
    case WGet(slot, _, _, _) => slot
    case WCopy(slot, _, _, _, _, _) => slot
    case WPut(slot, _, _, _, _) => slot + 1
    case WPub(slot, _, _) => slot
    case _ => C.WriteIndex(q, s.mem)
  }

  /** Slot i lies between the reader's index and the end of what the writer has filled. */
  ghost predicate Busy(q: C.Config, s: C.State, i: nat)
    requires q.ring.End() <= |s.mem|
  {
    var last := ReadIndex(s.r);
    exists x :: last <= x < last + (WriteEnd(q, s) - last) % TWO16 && q.ring.Slot(x) == i
  }

  lemma WriteEndIs(G: Geometry, s: C.State, a: A.State)
    requires G.Valid() && G.ring.End() <= |s.mem| && WriterRel(G, s.w, a.w)
    requires C.WriteIndex(Conf(G), s.mem) == a.pub % TWO16
    requires !a.w.WIdle? ==> a.w.job.slot == a.pub + |a.w.job.sent.chunks|
    ensures Cong(WriteEnd(Conf(G), s), a.pub + Taken(a.w))
  {
    if a.w.WPut? { CongNext(s.w.slot, a.w.job.slot); }
  }

  lemma TakenFits(P: A.Params, s: A.State)
    requires A.Inv(P, s)
    ensures s.r.last <= s.pub + Taken(s.w) <= s.r.last + P.size
    ensures !s.w.WIdle? ==> s.w.job.slot == s.pub + |s.w.job.sent.chunks|
  {
  }

  lemma Span(x: nat, y: nat, last: nat, end: nat)
    requires x % TWO16 == end % TWO16 && y == last % TWO16 && 0 <= end - last < TWO16
    ensures (x - y) % TWO16 == end - last
  {
    Wrapped(0, last, end);
    assert (x - y) % TWO16 == (x % TWO16 - y) % TWO16;
  }

  /** The code's indices stand for the positions from base to end. */
  ghost predicate Spans(G: Geometry, s: C.State, base: nat, end: nat) {
    && G.Valid() && |s.mem| == G.total && base <= end <= base + G.ring.Size()
    && ReadIndex(s.r) == base % TWO16 && Cong(WriteEnd(Conf(G), s), end)
  }

  lemma LiveSpan(G: Geometry, s: C.State, a: A.State)
    requires Good(G, s, a)
    ensures Spans(G, s, a.r.last, a.pub + Taken(a.w))
  {
    IndicesAre(G, s, a);
    TakenFits(G.Abs(), a);
    WriteEndIs(G, s, a);
  }

  lemma BusyFrom(G: Geometry, s: C.State, base: nat, end: nat, t: nat)
    requires Spans(G, s, base, end) && base <= t < end
    ensures Busy(Conf(G), s, A.At(G.Abs(), t))
  {
    SizeFits(G);
    var last := ReadIndex(s.r);
    Span(WriteEnd(Conf(G), s), last, base, end);
    var x := last + (t - base);
    CongPlus(base, t - base);
    SlotIsAt(G, x, t);
  }

  /** A live cell is a busy slot. */
  lemma LiveIsBusy(G: Geometry, s: C.State, a: A.State, i: nat)
    requires Spans(G, s, a.r.last, a.pub + Taken(a.w)) && Live(G.Abs(), a, i)
    ensures Busy(Conf(G), s, i)
  {
    var t: nat :| a.r.last <= t < a.pub + Taken(a.w) && A.At(G.Abs(), t) == i;
    BusyFrom(G, s, a.r.last, a.pub + Taken(a.w), t);
  }

  // ---- what a ring's own steps write

  /** The step copies part of a packet into a buffer. */
  predicate Copies(s: C.State, act: C.Action) { act.StepWrite? && s.w.WCopy? }

  lemma Widen(m: seq<byte>, m': seq<byte>, lo: nat, hi: nat, lo': nat, hi': nat)
    requires Outside(m, m', lo, hi) && lo' <= lo && hi <= hi'
    ensures Outside(m, m', lo', hi')
  {
  }

  lemma TableStore(r: Ring, m: seq<byte>, i: nat, d: seq<byte>, v: nat)
    requires r.End() <= |m| && i < r.Size() && |d| == DESC_SIZE
    ensures Outside(m, PutDesc(r, m, i, d), r.offset, r.End())
    ensures Outside(m, SetDescLength(r, m, i, v), r.offset, r.End())
  {
    SpliceSpec(m, r.Desc(i), d);
    Widen(m, PutDesc(r, m, i, d), r.Desc(i), r.Desc(i) + DESC_SIZE, r.offset, r.End());
    Put16Spec(m, r.Desc(i) + DESC_LENGTH, v);
    Widen(m, SetDescLength(r, m, i, v), r.Desc(i) + DESC_LENGTH, r.Desc(i) + DESC_LENGTH + 2, r.offset, r.End());
  }

  lemma IndexStore(r: Ring, m: seq<byte>, v: nat)
    requires r.End() <= |m|
    ensures Outside(m, WriteHead(r, m, v), r.offset, r.End()) && Outside(m, WriteTail(r, m, v), r.offset, r.End())
  {
    Put16Spec(m, r.offset + HEAD_OFFSET, v);
    Put16Spec(m, r.offset + TAIL_OFFSET, v);
    Widen(m, WriteHead(r, m, v), r.offset + HEAD_OFFSET, r.offset + HEAD_OFFSET + 2, r.offset, r.End());
    Widen(m, WriteTail(r, m, v), r.offset + TAIL_OFFSET, r.offset + TAIL_OFFSET + 2, r.offset, r.End());
  }

  lemma WriteStores(q: C.Config, m: seq<byte>, w: C.Writer)
    requires q.ring.End() <= |m| && w.Valid() && !w.WCopy?
    ensures Outside(m, C.WriteStep(q, m, w).0, q.ring.offset, q.ring.End())
  {
    match w
    case WPut(slot, _, _, _, desc) =>
      TableStore(q.ring, m, q.ring.Slot(slot), Put16(desc, DESC_FLAGS, FLAG_NEXT), 0);
      TableStore(q.ring, m, q.ring.Slot(slot), desc, 0);
    case WPub(slot, _, _) => IndexStore(q.ring, m, slot);
    case _ =>
  }

  lemma ReadStores(q: C.Config, m: seq<byte>, r: C.Reader)
    requires q.ring.End() <= |m| && r.Valid()
    ensures Outside(m, C.ReadStep(q, m, r).0, q.ring.offset, q.ring.End())
  {
    match r
    case RRefill(last, head, _, _, _) =>
      TableStore(q.ring, m, q.ring.Slot(head), GetDesc(q.ring, m, q.ring.Slot(head)), q.cap);
      IndexStore(q.ring, m, last);
      IndexStore(q.ring, m, head);
    case _ =>
  }

  /** A step that is not a copy writes into the ring's own header and table alone. */
  lemma OwnStores(q: C.Config, s: C.State, act: C.Action)
    requires C.Shaped(q, s) && !Copies(s, act)
    ensures Outside(s.mem, C.Step(q, s, act).mem, q.ring.offset, q.ring.End())
  {
    match act
    case StepWrite => WriteStores(q, s.mem, s.w);
    case StepRead => ReadStores(q, s.mem, s.r);
    case _ =>
  }

  lemma CopyWrites(G: Geometry, m: seq<byte>, w: C.Writer, i: nat, piece: seq<byte>)
    requires G.Laid(m) && w.WCopy? && w.Valid() && DescOf(G, i, w.desc) && w.room <= G.cap
    requires piece == A.Prefix(A.Source(G.rest, w.pkt, w.n), w.room)
    ensures Outside(m, C.WriteStep(Conf(G), m, w).0, G.bufs[i], G.bufs[i] + G.cap)
  {
    CopyIs(G, m, w, i, piece);
    assert G.bufs[i] + G.cap <= G.total;
    SpliceSpec(m, G.bufs[i], piece);
    Widen(m, Splice(m, G.bufs[i], piece), G.bufs[i], G.bufs[i] + |piece|, G.bufs[i], G.bufs[i] + G.cap);
  }

  lemma CopyTarget(G: Geometry, s: C.State, a: A.State)
    requires Good(G, s, a) && s.w.WCopy?
    ensures G.Laid(s.mem) && s.w.Valid() && DescOf(G, G.ring.Slot(s.w.slot), s.w.desc) && s.w.room <= G.cap
  {
    SlotIsAt(G, s.w.slot, a.w.job.slot);
  }

  /** A copy writes into the buffer of its slot alone. */
  lemma CopyStores(G: Geometry, s: C.State, a: A.State, i: nat)
    requires Good(G, s, a) && s.w.WCopy? && i == G.ring.Slot(s.w.slot)
    ensures i < |G.bufs| && Outside(s.mem, C.Step(Conf(G), s, C.StepWrite).mem, G.bufs[i], G.bufs[i] + G.cap)
  {
    CopyTarget(G, s, a);
    CopyWrites(G, s.mem, s.w, i, A.Prefix(A.Source(G.rest, s.w.pkt, s.w.n), s.w.room));
  }
}
