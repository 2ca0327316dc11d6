/** The byte-level steps with wrapped counters follow the ring protocol step by step. */
module Refinement {
  import opened Arith
  import opened Bytes
  import opened RingMemory
  import A = RingProtocol
  import C = RingSteps

  function Conf(G: Geometry): C.Config { C.Config(G.dir, G.ring, G.cap, G.rest) }

  /** An int slot variable and the unwrapped position it stands for. */
  ghost predicate Cong(x: nat, t: nat) { x % TWO16 == t % TWO16 }

  lemma CongNext(x: nat, t: nat)
    requires Cong(x, t)
    ensures Cong(x + 1, t + 1)
  {
  }

  lemma CongPlus(t: nat, k: nat)
    ensures Cong(t % TWO16 + k, t + k)
  {
  }

  lemma CongFrom(x: nat, t: nat, k: nat, y: nat)
    requires x == t % TWO16 && y == x + k
    ensures Cong(y, t + k)
  {
    CongPlus(t, k);
  }

  lemma SlotIsAt(G: Geometry, x: nat, t: nat)
    requires G.Valid() && Cong(x, t)
    ensures G.ring.Slot(x) == A.At(G.Abs(), t)
  {
    var k := G.ring.log2;
    WrapIsMod(t, Pow2(k));
    AndMask(x, k);
    Pow2Of16();
    Pow2Add(16 - k, k);
    ModModulus(x, t, Pow2(k), Pow2(16 - k));
  }

  lemma SizeFits(G: Geometry)
    requires G.Valid()
    ensures G.ring.Size() <= 0x8000
  {
    Pow2Of16();
    Pow2Monotone(G.ring.log2, 15);
  }

  /** The uint16 value of s - x + y on wrapped x and y is the true one while that fits 16 bits. */
  lemma Wrapped(s: int, x: int, y: int)
    requires 0 <= s - x + y < TWO16
    ensures (s - x % TWO16 + y % TWO16) % TWO16 == s - x + y
  {
    assert x == x / TWO16 * TWO16 + x % TWO16 && y == y / TWO16 * TWO16 + y % TWO16;
  }

  ghost predicate IndicesRel(G: Geometry, m: seq<byte>, a: A.State)
    requires G.ring.End() <= |m|
  {
    if G.dir.S2M? then
      ReadHead(G.ring, m) == a.pub % TWO16 && ReadTail(G.ring, m) == (a.lim - G.ring.Size()) % TWO16
    else
      ReadTail(G.ring, m) == a.pub % TWO16 && ReadHead(G.ring, m) == a.lim % TWO16
  }

  /** A local copy of the descriptor of cell i. */
  ghost predicate DescOf(G: Geometry, i: nat, d: seq<byte>) {
    i < |G.bufs| && |d| == DESC_SIZE && Get16(d, DESC_REGION) == 0 && Get32(d, DESC_OFFSET) == G.bufs[i]
  }

  ghost predicate JobRel(slot: nat, nFree: nat, n: nat, pkt: A.Packet, j: A.Job) {
    Cong(slot, j.slot) && nFree == j.left && n == A.Total(j.sent.chunks) && pkt == j.sent.pkt
  }

  ghost predicate WriterRel(G: Geometry, w: C.Writer, v: A.Writer)
    requires G.Valid()
  {
    match w
    case WDone(_) => v.WIdle?
    case WFault => false
    case WGet(slot, nFree, n, pkt) => v.WGet? && JobRel(slot, nFree, n, pkt, v.job)
    case WCopy(slot, nFree, n, pkt, desc, room) =>
      && v.WCopy? && JobRel(slot, nFree, n, pkt, v.job) && room == v.room
      && DescOf(G, A.At(G.Abs(), v.job.slot), desc) && Get16(desc, DESC_FLAGS) == 0
    case WPut(slot, nFree, n, pkt, desc) =>
      && v.WPut?
      && var t := |A.Piece(G.Abs(), v.job.sent, v.room)|;
      && n >= t && JobRel(slot, nFree, n - t, pkt, v.job)
      && DescOf(G, A.At(G.Abs(), v.job.slot), desc) && Get16(desc, DESC_FLAGS) == 0
      && Get32(desc, DESC_LENGTH) == t
    case WPub(slot, n, pkt) => v.WPub? && JobRel(slot, v.job.left, n, pkt, v.job)
  }

  /** The caller's buffer holds what was read, as far as it reaches. */
  ghost predicate OutRel(n: nat, buf: seq<byte>, acc: seq<byte>) {
    n == |acc| && buf[..Min(n, |buf|)] == acc[..Min(n, |buf|)]
  }

  ghost predicate ReaderRel(G: Geometry, r: C.Reader, v: A.Reader)
    requires G.Valid()
  {
    && (!r.RFault? ==> r.last == v.last % TWO16)
    && match r
       case RDone(last, off, buf) => v.RIdle?
       case RIncomplete(last, buf) => v.RIdle?
       case RGet(last, slot, nSlots, off, buf) =>
         && v.RGet? && Cong(slot, v.slot) && nSlots == v.left && OutRel(off, buf, v.acc) && |buf| == v.space
         && last <= slot && slot - last == v.slot - v.last
       case RCopy(last, slot, nSlots, off, buf, desc) =>
         && v.RCopy? && Cong(slot, v.slot) && nSlots == v.left && OutRel(off, buf, v.acc) && |buf| == v.space
         && last <= slot && slot - last == v.slot - v.last
         && DescOf(G, A.At(G.Abs(), v.slot), desc)
         && (Get16(desc, DESC_FLAGS) % 2 == 1) == v.next && Get32(desc, DESC_LENGTH) == v.len
       case RRefill(last, head, todo, off, buf) =>
         v.RRefill? && todo == (if G.dir.S2M? then 0 else v.last + G.ring.Size() - v.head)
         && (G.dir.M2S? ==> Cong(head, v.head))
       case RShort(last, buf) => v.RShort?
       case RFault(_) => false
  }

  ghost predicate CallRel(call: C.Call, x: A.Sent, sent: bool) {
    call.pkt == x.pkt && call.rooms == x.rooms && call.n == if sent then A.Total(x.chunks) else 0
  }

  ghost predicate CallsRel(cs: seq<C.Call>, xs: seq<A.Sent>, sent: bool) {
    |cs| == |xs| && forall i :: 0 <= i < |xs| ==> CallRel(cs[i], xs[i], sent)
  }

  ghost predicate OutsRel(os: seq<C.Output>, ps: seq<A.Packet>) {
    |os| == |ps| && forall i :: 0 <= i < |ps| ==> OutRel(os[i].n, os[i].buf, ps[i])
  }

  ghost predicate HistoryRel(c: C.State, a: A.State) {
    && CallsRel(c.accepted, a.accepted, true) && CallsRel(c.rejected, a.rejected, false)
    && OutsRel(c.delivered, a.delivered)
    && c.incomplete == a.incomplete && (c.r.RIncomplete? ==> c.incomplete)
    && c.consumed == a.r.last && c.returned == a.returned && c.refilled == a.refilled
    && (!a.w.WIdle? ==> c.rooms == a.w.job.sent.rooms)
  }

  ghost predicate MemRel(G: Geometry, m: seq<byte>, a: A.State) {
    G.Laid(m) && a.cells == G.Cells(m) && IndicesRel(G, m, a)
  }

  /** A one-cell change on both sides. */
  lemma CellStep(G: Geometry, m: seq<byte>, m': seq<byte>, a: A.State, a': A.State, i: nat, c: A.Cell)
    requires MemRel(G, m, a) && Updated(G, m, m', i, c)
    requires a'.cells == a.cells[i := c] && a'.pub == a.pub && a'.lim == a.lim
    ensures MemRel(G, m', a')
  {
  }

  /** The refinement relation. */
  ghost predicate Rel(G: Geometry, c: C.State, a: A.State) {
    && C.Shaped(Conf(G), c) && MemRel(G, c.mem, a)
    && WriterRel(G, c.w, a.w) && ReaderRel(G, c.r, a.r) && HistoryRel(c, a)
  }

  function AbsAct(act: C.Action): A.Action {
    match act
    case StartWrite(pkt) => A.StartWrite(pkt)
    case StepWrite => A.StepWrite
    case StartRead(buf) => A.StartRead(|buf|)
    case StepRead => A.StepRead
  }

  // ---- the writer

  /** The uint16 count of free slots is lim - pub. */
  lemma FreeSlots(G: Geometry, m: seq<byte>, a: A.State)
    requires MemRel(G, m, a) && a.pub <= a.lim <= a.pub + G.ring.Size()
    ensures C.NFree(Conf(G), m) == a.lim - a.pub
    ensures G.dir.M2S? ==> (ReadHead(G.ring, m) - ReadTail(G.ring, m)) % TWO16 == a.lim - a.pub
    ensures G.dir.S2M? ==> (G.ring.Size() - ReadHead(G.ring, m) + ReadTail(G.ring, m)) % TWO16 == a.lim - a.pub
  {
    SizeFits(G);
    if G.dir.M2S? {
      Difference(a.pub, a.lim, ReadTail(G.ring, m), ReadHead(G.ring, m));
    } else {
      Spare(G.ring.Size(), a.pub, a.lim, ReadHead(G.ring, m), ReadTail(G.ring, m));
    }
  }

  /** The uint16 value of size - head + tail. */
  lemma Spare(size: nat, pub: nat, lim: nat, head: nat, tail: nat)
    requires pub <= lim < pub + TWO16 && head == pub % TWO16 && tail == (lim - size) % TWO16
    ensures (size - head + tail) % TWO16 == lim - pub
  {
    Wrapped(size, pub, lim - size);
  }

  /** The uint16 difference of two wrapped counters. */
  lemma Difference(x: nat, y: nat, u: nat, v: nat)
    requires x <= y < x + TWO16 && u == x % TWO16 && v == y % TWO16
    ensures (v - u) % TWO16 == y - x
  {
    Wrapped(0, x, y);
  }

  lemma SnapshotIs(G: Geometry, m: seq<byte>, a: A.State, pkt: A.Packet)
    requires MemRel(G, m, a) && a.pub <= a.lim <= a.pub + G.ring.Size()
    ensures C.BeginWrite(Conf(G), m, pkt) ==
            if a.lim == a.pub then C.WDone(0) else C.WGet(a.pub % TWO16, a.lim - a.pub, 0, pkt)
  {
    FreeSlots(G, m, a);
  }

  lemma RoomIs(G: Geometry, m: seq<byte>, a: A.State, slot: nat, t: nat)
    requires MemRel(G, m, a) && Cong(slot, t)
    ensures C.Room(Conf(G), m, slot) == A.Offer(G.Abs(), a.cells, t)
  {
    SlotIsAt(G, slot, t);
    GetDescOf(G, m, G.ring.Slot(slot));
    assert a.cells[G.ring.Slot(slot)] == G.CellAt(m, G.ring.Slot(slot));
  }

  lemma RoomAhead(G: Geometry, m: seq<byte>, a: A.State, slot: nat, base: nat, k: nat)
    requires MemRel(G, m, a) && slot == base % TWO16
    ensures C.Room(Conf(G), m, slot + k) == A.Offer(G.Abs(), a.cells, base + k)
  {
    CongFrom(slot, base, k, slot + k);
    RoomIs(G, m, a, slot + k, base + k);
  }

  lemma WriteIndexIs(G: Geometry, m: seq<byte>, a: A.State)
    requires MemRel(G, m, a)
    ensures C.WriteIndex(Conf(G), m) == a.pub % TWO16
  {
  }

  lemma RoomsAt(G: Geometry, m: seq<byte>, a: A.State, rooms: seq<nat>, k: nat)
    requires MemRel(G, m, a) && rooms == C.FreeRooms(Conf(G), m) && k < |rooms|
    ensures rooms[k] == A.Offer(G.Abs(), a.cells, a.pub + k)
  {
    var slot := C.WriteIndex(Conf(G), m);
    WriteIndexIs(G, m, a);
    assert rooms[k] == C.Room(Conf(G), m, slot + k);
    RoomAhead(G, m, a, slot, a.pub, k);
  }

  /** What the free slots offer is what the free cells offer. */
  lemma RoomsAre(G: Geometry, m: seq<byte>, a: A.State, rooms: seq<nat>)
    requires MemRel(G, m, a) && rooms == C.FreeRooms(Conf(G), m)
    ensures A.AreOffers(G.Abs(), a.cells, a.pub, rooms)
  {
    forall k | 0 <= k < |rooms| ensures rooms[k] == A.Offer(G.Abs(), a.cells, a.pub + k) {
      RoomsAt(G, m, a, rooms, k);
    }
  }

  lemma BeginWriteRefines(G: Geometry, a: A.State, pkt: A.Packet, w: C.Writer)
    requires G.Valid() && A.Shaped(G.Abs(), a) && a.pub <= a.lim && a.w.WIdle?
    requires w == if a.lim == a.pub then C.WDone(0) else C.WGet(a.pub % TWO16, a.lim - a.pub, 0, pkt)
    ensures WriterRel(G, w, A.BeginWrite(G.Abs(), a, pkt).w)
  {
    CongPlus(a.pub, 0);
    assert A.Total([]) == 0;
  }

  lemma GetDescOf(G: Geometry, m: seq<byte>, i: nat)
    requires G.Laid(m) && i < G.ring.Size()
    ensures var d := GetDesc(G.ring, m, i);
            && DescOf(G, i, d) && Get32(d, DESC_LENGTH) == G.CellAt(m, i).len
            && (Get16(d, DESC_FLAGS) % 2 == 1) == G.CellAt(m, i).next
  {
    var o := G.ring.Desc(i);
    assert G.LaidAt(m, i);
    SliceFields(m, o, DESC_FLAGS);
    SliceFields(m, o, DESC_REGION);
    SliceFields(m, o, DESC_LENGTH);
    SliceFields(m, o, DESC_OFFSET);
  }

  /** e is d with other flags and another length. */
  ghost predicate Reset(d: seq<byte>, e: seq<byte>, flags: nat, len: nat) {
    && |d| == |e| == DESC_SIZE
    && Get16(e, DESC_FLAGS) == flags && Get32(e, DESC_LENGTH) == len
    && Get16(e, DESC_REGION) == Get16(d, DESC_REGION) && Get32(e, DESC_OFFSET) == Get32(d, DESC_OFFSET)
  }

  lemma SetFlags(d: seq<byte>, flags: nat)
    requires |d| == DESC_SIZE && flags < TWO16
    ensures Reset(d, Put16(d, DESC_FLAGS, flags), flags, Get32(d, DESC_LENGTH))
  {
    Put16Spec(d, DESC_FLAGS, flags);
    Fields(d, Put16(d, DESC_FLAGS, flags), DESC_FLAGS, DESC_FLAGS + 2);
  }

  lemma SetLength(d: seq<byte>, len: nat)
    requires |d| == DESC_SIZE && len < TWO32
    ensures Reset(d, Put32(d, DESC_LENGTH, len), Get16(d, DESC_FLAGS), len)
  {
    Put32Spec(d, DESC_LENGTH, len);
    Fields(d, Put32(d, DESC_LENGTH, len), DESC_LENGTH, DESC_LENGTH + 4);
  }

  lemma Fields(d: seq<byte>, e: seq<byte>, lo: nat, hi: nat)
    requires |d| == DESC_SIZE && Outside(d, e, lo, hi)
    ensures hi <= DESC_REGION || DESC_LENGTH <= lo ==> Get16(e, DESC_REGION) == Get16(d, DESC_REGION)
    ensures hi <= DESC_OFFSET ==> Get32(e, DESC_OFFSET) == Get32(d, DESC_OFFSET)
    ensures hi <= DESC_LENGTH ==> Get32(e, DESC_LENGTH) == Get32(d, DESC_LENGTH)
    ensures 2 <= lo ==> Get16(e, DESC_FLAGS) == Get16(d, DESC_FLAGS)
  {
    SameFields(d, e, lo, hi, DESC_REGION);
    SameFields(d, e, lo, hi, DESC_OFFSET);
    SameFields(d, e, lo, hi, DESC_LENGTH);
    SameFields(d, e, lo, hi, DESC_FLAGS);
  }

  /** A writer's step and its counterpart end in related memory and program points. */
  ghost predicate WriteMatches(G: Geometry, m: seq<byte>, w: C.Writer, a: A.State)
    requires MemRel(G, m, a) && w.Valid()
  {
    var t, a' := C.WriteStep(Conf(G), m, w), A.WriteStep(G.Abs(), a);
    MemRel(G, t.0, a') && WriterRel(G, t.1, a'.w)
  }

  /** The descriptor that a writer keeps: flags and length cleared, region and offset as they were. */
  lemma ClearedDesc(G: Geometry, m: seq<byte>, i: nat, e: seq<byte>)
    requires G.Laid(m) && i < G.ring.Size()
    requires e == Put32(Put16(GetDesc(G.ring, m, i), DESC_FLAGS, 0), DESC_LENGTH, 0)
    ensures DescOf(G, i, e) && Get16(e, DESC_FLAGS) == 0
    ensures Get32(GetDesc(G.ring, m, i), DESC_LENGTH) == G.CellAt(m, i).len
  {
    var d := GetDesc(G.ring, m, i);
    GetDescOf(G, m, i);
    SetFlags(d, 0);
    SetLength(Put16(d, DESC_FLAGS, 0), 0);
  }

  lemma GetIs(G: Geometry, m: seq<byte>, w: C.Writer, i: nat, e: seq<byte>, room: nat)
    requires G.Laid(m) && w.WGet? && i == G.ring.Slot(w.slot)
    requires e == Put32(Put16(GetDesc(G.ring, m, i), DESC_FLAGS, 0), DESC_LENGTH, 0)
    requires room == C.Room(Conf(G), m, w.slot)
    ensures C.WriteStep(Conf(G), m, w) == (m, C.WCopy(w.slot, w.nFree, w.n, w.pkt, e, room))
  {
  }

  lemma WriteGetRefines(G: Geometry, m: seq<byte>, w: C.Writer, a: A.State)
    requires MemRel(G, m, a) && WriterRel(G, w, a.w) && w.WGet?
    ensures WriteMatches(G, m, w, a)
  {
    var i := G.ring.Slot(w.slot);
    var d := GetDesc(G.ring, m, i);
    var e := Put32(Put16(d, DESC_FLAGS, 0), DESC_LENGTH, 0);
    SlotIsAt(G, w.slot, a.w.job.slot);
    ClearedDesc(G, m, i, e);
    RoomIs(G, m, a, w.slot, a.w.job.slot);
    GetIs(G, m, w, i, e, C.Room(Conf(G), m, w.slot));
  }

  lemma CopyInMem(G: Geometry, m: seq<byte>, t: nat, data: seq<byte>, a: A.State, a': A.State)
    requires MemRel(G, m, a) && |data| <= G.cap
    requires var i := A.At(G.Abs(), t);
             a' == a.(w := a'.w, cells := a.cells[i := a.cells[i].(data := A.Overlay(a.cells[i].data, data))])
    ensures var b := G.bufs[A.At(G.Abs(), t)]; b + G.cap <= |m| && MemRel(G, Splice(m, b, data), a')
  {
    var i := A.At(G.Abs(), t);
    assert G.bufs[i] + G.cap <= G.total;
    PutDataCell(G, m, i, data);
    CellStep(G, m, Splice(m, G.bufs[i], data), a, a', i, a'.cells[i]);
  }

  lemma CopyIs(G: Geometry, m: seq<byte>, w: C.Writer, i: nat, piece: seq<byte>)
    requires G.Laid(m) && w.WCopy? && w.Valid() && DescOf(G, i, w.desc) && w.room <= G.cap
    requires piece == A.Prefix(A.Source(G.rest, w.pkt, w.n), w.room)
    ensures C.WriteStep(Conf(G), m, w) ==
            (Splice(m, G.bufs[i], piece),
             C.WPut(w.slot, w.nFree, w.n + |piece|, w.pkt, Put32(w.desc, DESC_LENGTH, |piece|)))
  {
    assert G.bufs[i] + G.cap <= G.total;
  }

  lemma WriteCopyRefines(G: Geometry, m: seq<byte>, w: C.Writer, a: A.State)
    requires MemRel(G, m, a) && WriterRel(G, w, a.w) && w.WCopy? && w.room <= G.cap
    ensures WriteMatches(G, m, w, a)
  {
    var t, i := A.Piece(G.Abs(), a.w.job.sent, w.room), A.At(G.Abs(), a.w.job.slot);
    CopyIs(G, m, w, i, t);
    CopyInMem(G, m, a.w.job.slot, t, a, A.WriteStep(G.Abs(), a));
    SetLength(w.desc, |t|);
  }

  /** Putting descriptor d for the piece at hand. */
  lemma PutRefines(G: Geometry, m: seq<byte>, slot: nat, t: nat, d: seq<byte>, a: A.State, a': A.State)
    requires MemRel(G, m, a) && Cong(slot, t) && DescOf(G, A.At(G.Abs(), t), d)
    requires var i := A.At(G.Abs(), t);
             a' == a.(w := a'.w, cells := a.cells[i := a.cells[i].(next := Get16(d, DESC_FLAGS) % 2 == 1,
                                                                  len := Get32(d, DESC_LENGTH))])
    ensures MemRel(G, PutDesc(G.ring, m, G.ring.Slot(slot), d), a')
  {
    var i := A.At(G.Abs(), t);
    SlotIsAt(G, slot, t);
    PutDescCell(G, m, i, d);
    CellStep(G, m, PutDesc(G.ring, m, i, d), a, a', i, a'.cells[i]);
  }

  lemma PutMoreJob(G: Geometry, w: C.Writer, v: A.Writer, w': C.Writer, v': A.Writer)
    requires G.Valid() && WriterRel(G, w, v) && w.WPut? && 1 < w.nFree
    requires w' == C.WGet(w.slot + 1, w.nFree - 1, w.n, w.pkt)
    requires v' == A.WGet(A.Job(v.job.slot + 1, v.job.left - 1,
                     v.job.sent.(chunks := v.job.sent.chunks + [A.Piece(G.Abs(), v.job.sent, v.room)])))
    ensures WriterRel(G, w', v')
  {
    CongNext(w.slot, v.job.slot);
    A.TotalAppend(v.job.sent.chunks, A.Piece(G.Abs(), v.job.sent, v.room));
  }

  lemma PutMoreMem(G: Geometry, m: seq<byte>, w: C.Writer, a: A.State, a': A.State)
    requires MemRel(G, m, a) && WriterRel(G, w, a.w) && w.WPut?
    requires var i := A.At(G.Abs(), a.w.job.slot);
             var t := |A.Piece(G.Abs(), a.w.job.sent, a.w.room)|;
             a' == a.(w := a'.w, cells := a.cells[i := a.cells[i].(next := true, len := t)])
    ensures MemRel(G, PutDesc(G.ring, m, G.ring.Slot(w.slot), Put16(w.desc, DESC_FLAGS, FLAG_NEXT)), a')
  {
    SetFlags(w.desc, FLAG_NEXT);
    PutRefines(G, m, w.slot, a.w.job.slot, Put16(w.desc, DESC_FLAGS, FLAG_NEXT), a, a');
  }

  lemma PutMoreStep(q: C.Config, m: seq<byte>, w: C.Writer)
    requires q.ring.End() <= |m| && w.WPut? && w.Valid() && 1 < w.nFree && w.n < |w.pkt|
    ensures C.WriteStep(q, m, w) ==
            (PutDesc(q.ring, m, q.ring.Slot(w.slot), Put16(w.desc, DESC_FLAGS, FLAG_NEXT)),
             C.WGet(w.slot + 1, w.nFree - 1, w.n, w.pkt))
  {
  }

  lemma PutLastStep(q: C.Config, m: seq<byte>, w: C.Writer)
    requires q.ring.End() <= |m| && w.WPut? && w.Valid() && w.n >= |w.pkt|
    ensures C.WriteStep(q, m, w) == (PutDesc(q.ring, m, q.ring.Slot(w.slot), w.desc), C.WPub(w.slot + 1, w.n, w.pkt))
  {
  }

  lemma PutMoreRefines(G: Geometry, m: seq<byte>, w: C.Writer, a: A.State)
    requires MemRel(G, m, a) && WriterRel(G, w, a.w) && w.WPut? && 1 < w.nFree && w.n < |w.pkt|
    ensures WriteMatches(G, m, w, a)
  {
    PutMoreStep(Conf(G), m, w);
    A.PutMoreIs(G.Abs(), a, A.Piece(G.Abs(), a.w.job.sent, a.w.room));
    PutMoreMem(G, m, w, a, A.WriteStep(G.Abs(), a));
    PutMoreJob(G, w, a.w, C.WriteStep(Conf(G), m, w).1, A.WriteStep(G.Abs(), a).w);
  }

  lemma PutLastJob(G: Geometry, w: C.Writer, v: A.Writer, w': C.Writer, v': A.Writer)
    requires G.Valid() && WriterRel(G, w, v) && w.WPut?
    requires w' == C.WPub(w.slot + 1, w.n, w.pkt)
    requires v' == A.WPub(A.Job(v.job.slot + 1, v.job.left,
                     v.job.sent.(chunks := v.job.sent.chunks + [A.Piece(G.Abs(), v.job.sent, v.room)])))
    ensures WriterRel(G, w', v')
  {
    CongNext(w.slot, v.job.slot);
    A.TotalAppend(v.job.sent.chunks, A.Piece(G.Abs(), v.job.sent, v.room));
  }

  lemma PutLastRefines(G: Geometry, m: seq<byte>, w: C.Writer, a: A.State)
    requires MemRel(G, m, a) && WriterRel(G, w, a.w) && w.WPut? && w.n >= |w.pkt|
    ensures WriteMatches(G, m, w, a)
  {
    PutLastStep(Conf(G), m, w);
    A.PutLastIs(G.Abs(), a, A.Piece(G.Abs(), a.w.job.sent, a.w.room));
    PutRefines(G, m, w.slot, a.w.job.slot, w.desc, a, A.WriteStep(G.Abs(), a));
    PutLastJob(G, w, a.w, C.WriteStep(Conf(G), m, w).1, A.WriteStep(G.Abs(), a).w);
  }

  lemma PutRefusedStep(q: C.Config, m: seq<byte>, w: C.Writer)
    requires q.ring.End() <= |m| && w.WPut? && w.Valid() && w.nFree <= 1 && w.n < |w.pkt|
    ensures C.WriteStep(q, m, w) == (m, C.WDone(0))
  {
  }

  lemma SameMem(G: Geometry, m: seq<byte>, a: A.State, a': A.State)
    requires MemRel(G, m, a) && a'.cells == a.cells && a'.pub == a.pub && a'.lim == a.lim
    ensures MemRel(G, m, a')
  {
  }

  lemma PutRefusedRefines(G: Geometry, m: seq<byte>, w: C.Writer, a: A.State)
    requires MemRel(G, m, a) && WriterRel(G, w, a.w) && w.WPut? && w.nFree == 1 && w.n < |w.pkt|
    ensures WriteMatches(G, m, w, a)
  {
    var x, chunk := a.w.job.sent, A.Piece(G.Abs(), a.w.job.sent, a.w.room);
    A.TotalAppend(x.chunks, chunk);
    PutRefusedStep(Conf(G), m, w);
    A.PutRefusedIs(G.Abs(), a, x.(chunks := x.chunks + [chunk]));
    SameMem(G, m, a, A.WriteStep(G.Abs(), a));
  }

  lemma WritePutRefines(G: Geometry, m: seq<byte>, w: C.Writer, a: A.State)
    requires MemRel(G, m, a) && WriterRel(G, w, a.w) && w.WPut? && 1 <= w.nFree
    ensures WriteMatches(G, m, w, a)
  {
    if w.n >= |w.pkt| { PutLastRefines(G, m, w, a); }
    else if 1 < w.nFree { PutMoreRefines(G, m, w, a); }
    else { PutRefusedRefines(G, m, w, a); }
  }

  lemma WritePubRefines(G: Geometry, m: seq<byte>, w: C.Writer, a: A.State)
    requires MemRel(G, m, a) && WriterRel(G, w, a.w) && w.WPub?
    ensures WriteMatches(G, m, w, a)
  {
    WriteIndexSpec(G, m, w.slot);
  }

  // ---- the reader

  lemma EnterRefillRefines(G: Geometry, m: seq<byte>, a: A.State, slot: nat, t: nat, off: nat, buf: seq<byte>)
    requires MemRel(G, m, a) && Cong(slot, t) && a.lim <= t + G.ring.Size() < a.lim + TWO16
    ensures ReaderRel(G, C.EnterRefill(Conf(G), m, slot, off, buf), A.EnterRefill(G.Abs(), a, t).r)
  {
    if G.dir.M2S? {
      Wrapped(G.ring.Size(), a.lim, t);
    }
  }

  lemma BeginReadRefines(G: Geometry, m: seq<byte>, last: nat, a: A.State, buf: seq<byte>)
    requires MemRel(G, m, a) && A.Window(G.Abs(), a) && last == a.r.last % TWO16 && a.r.RIdle?
    ensures ReaderRel(G, C.BeginRead(Conf(G), m, last, buf), A.BeginRead(G.Abs(), a, |buf|).r)
  {
    SizeFits(G);
    Wrapped(0, a.r.last, a.pub);
    EnterRefillRefines(G, m, a, last, a.r.last, 0, buf);
  }

  ghost predicate ReadMatches(G: Geometry, m: seq<byte>, r: C.Reader, a: A.State)
    requires MemRel(G, m, a) && r.Valid()
  {
    var t, a' := C.ReadStep(Conf(G), m, r), A.ReadStep(G.Abs(), a);
    MemRel(G, t.0, a') && ReaderRel(G, t.1, a'.r)
  }

  lemma ReadGetRefines(G: Geometry, m: seq<byte>, r: C.Reader, a: A.State)
    requires MemRel(G, m, a) && ReaderRel(G, r, a.r) && r.RGet?
    ensures ReadMatches(G, m, r, a)
  {
    SlotIsAt(G, r.slot, a.r.slot);
    GetDescOf(G, m, G.ring.Slot(r.slot));
  }

  /** copy(pkt[off:], ...) extends what the caller's buffer holds. */
  lemma CopyOut(buf: seq<byte>, off: nat, acc: seq<byte>, src: seq<byte>)
    requires OutRel(off, buf, acc) && off <= |buf|
    ensures var k := Min(|buf| - off, |src|);
            OutRel(off + |src|, Splice(buf, off, src[..k]), acc + src)
  {
    var k := Min(|buf| - off, |src|);
    var buf' := Splice(buf, off, src[..k]);
    SpliceSpec(buf, off, src[..k]);
    assert Min(off + |src|, |buf|) == off + k;
    assert buf'[..off + k] == buf'[..off] + buf'[off..off + k];
    SameSlice(buf, buf', off, off + k, 0, off);
    assert (acc + src)[..off + k] == acc + src[..k];
  }

  /** The bytes that a read step copies are the front of the cell's buffer. */
  lemma SourceBytes(G: Geometry, m: seq<byte>, i: nat, len: nat, k: nat)
    requires G.Laid(m) && i < G.ring.Size() && k <= len <= G.cap
    ensures G.bufs[i] + len <= |m| && A.Prefix(G.CellAt(m, i).data, len)[..k] == m[G.bufs[i]..G.bufs[i] + k]
    ensures |A.Prefix(G.CellAt(m, i).data, len)| == len
  {
    assert G.bufs[i] + G.cap <= G.total;
    var b := G.bufs[i];
    assert m[b..b + G.cap][..len] == m[b..b + len];
    assert m[b..b + len][..k] == m[b..b + k];
  }

  /** The last piece of a chain: the packet is delivered and the refill begins. */
  ghost predicate CopyMatches(G: Geometry, m: seq<byte>, a: A.State, t: C.RPoint, a': A.State)
    requires G.Valid() && a.r.RCopy?
  {
    && t.0 == m && a' == a.(r := a'.r, delivered := a'.delivered, incomplete := a'.incomplete)
    && ReaderRel(G, t.1, a'.r)
    && a'.r.last == (if t.1.RRefill? then a.r.slot + 1 else a.r.last)
    && (t.1.RIncomplete? ==> a'.incomplete) && (!t.1.RIncomplete? ==> a'.incomplete == a.incomplete)
    && (!t.1.RRefill? ==> a'.delivered == a.delivered)
    && (t.1.RRefill? ==> |a'.delivered| == |a.delivered| + 1 && a.delivered <= a'.delivered &&
                         OutRel(t.1.off, t.1.buf, a'.delivered[|a.delivered|]))
  }

  lemma NextPieceRel(G: Geometry, r: C.Reader, v: A.Reader, r': C.Reader, v': A.Reader, src: seq<byte>, buf': seq<byte>)
    requires G.Valid() && ReaderRel(G, r, v) && r.RCopy? && 1 < r.nSlots
    requires OutRel(r.off + |src|, buf', v.acc + src) && |buf'| == |r.buf|
    requires r' == C.RGet(r.last, r.slot + 1, r.nSlots - 1, r.off + |src|, buf')
    requires v' == A.RGet(v.last, v.slot + 1, v.left - 1, v.acc + src, v.space)
    ensures ReaderRel(G, r', v')
  {
    CongNext(r.slot, v.slot);
  }

  /** The same, found through a local copy of the descriptor. */
  lemma CopySource(G: Geometry, m: seq<byte>, d: seq<byte>, i: nat, len: nat, k: nat, src: seq<byte>)
    requires G.Laid(m) && DescOf(G, i, d) && k <= len <= G.cap && src == A.Prefix(G.Cells(m)[i].data, len)
    ensures |src| == len
    ensures var o := Get32(d, DESC_OFFSET); o + len <= |m| && src[..k] == m[o..o + k]
  {
    assert G.Cells(m)[i] == G.CellAt(m, i);
    SourceBytes(G, m, i, len, k);
  }

  /** Both sides of a read step in which the caller's buffer is long enough. */
  lemma CopyStep(G: Geometry, m: seq<byte>, r: C.Reader, a: A.State, i: nat, src: seq<byte>, buf': seq<byte>)
    requires MemRel(G, m, a) && ReaderRel(G, r, a.r) && r.RCopy? && a.r.len <= G.cap && r.off <= |r.buf|
    requires i == A.At(G.Abs(), a.r.slot) && src == A.Prefix(a.cells[i].data, a.r.len)
    requires r.off + Min(|r.buf| - r.off, |src|) <= |r.buf|
    requires buf' == Splice(r.buf, r.off, src[..Min(|r.buf| - r.off, |src|)])
    ensures |src| == a.r.len && OutRel(r.off + |src|, buf', a.r.acc + src)
    ensures var o := Get32(r.desc, DESC_OFFSET);
            o + |src| <= |m| && buf' == Splice(r.buf, r.off, m[o..o + Min(|r.buf| - r.off, |src|)])
  {
    CopySource(G, m, r.desc, i, a.r.len, Min(|r.buf| - r.off, a.r.len), src);
    CopyOut(r.buf, r.off, a.r.acc, src);
  }

  /** The outcome of a concrete read step, and that of the abstract one, for the same piece. */
  lemma CopyIsConcrete(q: C.Config, m: seq<byte>, r: C.Reader, src: seq<byte>, buf': seq<byte>)
    requires q.ring.End() <= |m| && r.RCopy? && r.Valid() && r.off <= |r.buf|
    requires Get16(r.desc, DESC_REGION) == 0 && Get32(r.desc, DESC_LENGTH) == |src|
    requires var o := Get32(r.desc, DESC_OFFSET);
             o + |src| <= |m| && buf' == Splice(r.buf, r.off, m[o..o + Min(|r.buf| - r.off, |src|)])
    ensures C.ReadStep(q, m, r) ==
      (m, if Get16(r.desc, DESC_FLAGS) % 2 != 1 then C.EnterRefill(q, m, r.slot + 1, r.off + |src|, buf')
          else if r.nSlots <= 1 then C.RIncomplete(r.last, buf')
          else C.RGet(r.last, r.slot + 1, r.nSlots - 1, r.off + |src|, buf'))
  {
  }

  lemma CopyIsAbstract(P: A.Params, a: A.State, acc: seq<byte>)
    requires A.Shaped(P, a) && a.r.RCopy? && |a.r.acc| <= a.r.space
    requires acc == a.r.acc + A.Prefix(a.cells[A.At(P, a.r.slot)].data, a.r.len)
    ensures A.ReadStep(P, a) ==
      if !a.r.next then A.EnterRefill(P, a.(delivered := a.delivered + [acc]), a.r.slot + 1)
      else if a.r.left <= 1 then a.(r := A.RIdle(a.r.last), incomplete := true)
      else a.(r := A.RGet(a.r.last, a.r.slot + 1, a.r.left - 1, acc, a.r.space))
  {
  }

  /** The abstract state after the last piece of a chain. */
  lemma DeliveredIs(G: Geometry, a: A.State, acc: seq<byte>, t: nat)
    ensures var a' := A.EnterRefill(G.Abs(), a.(delivered := a.delivered + [acc]), t);
            && a' == a.(r := a'.r, delivered := a.delivered + [acc]) && a'.r == A.EnterRefill(G.Abs(), a, t).r
  {
  }

  lemma CopyLastRefines(G: Geometry, m: seq<byte>, a: A.State, slot: nat, at: nat, off: nat, buf: seq<byte>, acc: seq<byte>,
                        a': A.State)
    requires MemRel(G, m, a) && Cong(slot, at) && a.lim <= at + G.ring.Size() < a.lim + TWO16 && OutRel(off, buf, acc)
    requires a.r.RCopy? && at == a.r.slot + 1
    requires a' == A.EnterRefill(G.Abs(), a.(delivered := a.delivered + [acc]), at)
    ensures CopyMatches(G, m, a, (m, C.EnterRefill(Conf(G), m, slot, off, buf)), a')
  {
    EnterRefillRefines(G, m, a, slot, at, off, buf);
    DeliveredIs(G, a, acc, at);
  }

  lemma CopyMoreRefines(G: Geometry, m: seq<byte>, r: C.Reader, a: A.State, src: seq<byte>, buf': seq<byte>,
                        t: C.RPoint, a': A.State)
    requires G.Valid() && ReaderRel(G, r, a.r) && r.RCopy? && 1 < a.r.left
    requires t == (m, C.RGet(r.last, r.slot + 1, r.nSlots - 1, r.off + |src|, buf'))
    requires a' == a.(r := A.RGet(a.r.last, a.r.slot + 1, a.r.left - 1, a.r.acc + src, a.r.space))
    requires OutRel(r.off + |src|, buf', a.r.acc + src) && |buf'| == |r.buf|
    ensures CopyMatches(G, m, a, t, a')
  {
    NextPieceRel(G, r, a.r, t.1, a'.r, src, buf');
  }

  lemma CopyEndsRefines(G: Geometry, m: seq<byte>, r: C.Reader, a: A.State, src: seq<byte>, buf': seq<byte>,
                        t: C.RPoint, a': A.State)
    requires MemRel(G, m, a) && ReaderRel(G, r, a.r) && r.RCopy?
    requires a.lim <= a.r.slot + 1 + G.ring.Size() < a.lim + TWO16 && 1 <= a.r.left
    requires OutRel(r.off + |src|, buf', a.r.acc + src) && |buf'| == |r.buf|
    requires t == (m, if Get16(r.desc, DESC_FLAGS) % 2 != 1 then C.EnterRefill(Conf(G), m, r.slot + 1, r.off + |src|, buf')
                      else if r.nSlots <= 1 then C.RIncomplete(r.last, buf')
                      else C.RGet(r.last, r.slot + 1, r.nSlots - 1, r.off + |src|, buf'))
    requires a' == if !a.r.next then A.EnterRefill(G.Abs(), a.(delivered := a.delivered + [a.r.acc + src]), a.r.slot + 1)
                   else if a.r.left <= 1 then a.(r := A.RIdle(a.r.last), incomplete := true)
                   else a.(r := A.RGet(a.r.last, a.r.slot + 1, a.r.left - 1, a.r.acc + src, a.r.space))
    ensures CopyMatches(G, m, a, t, a')
  {
    if !a.r.next {
      CongNext(r.slot, a.r.slot);
      CopyLastRefines(G, m, a, r.slot + 1, a.r.slot + 1, r.off + |src|, buf', a.r.acc + src, a');
    } else if 1 < r.nSlots {
      CopyMoreRefines(G, m, r, a, src, buf', t, a');
    }
  }

  lemma CopyFits(G: Geometry, m: seq<byte>, r: C.Reader, a: A.State, src: seq<byte>, buf': seq<byte>, t: C.RPoint, a': A.State)
    requires MemRel(G, m, a) && ReaderRel(G, r, a.r) && r.RCopy? && r.off <= |r.buf|
    requires a.r.len <= G.cap && a.lim <= a.r.slot + 1 + G.ring.Size() < a.lim + TWO16 && 1 <= a.r.left
    requires src == A.Prefix(a.cells[A.At(G.Abs(), a.r.slot)].data, a.r.len)
    requires r.off + Min(|r.buf| - r.off, |src|) <= |r.buf|
    requires buf' == Splice(r.buf, r.off, src[..Min(|r.buf| - r.off, |src|)])
    requires t == C.ReadStep(Conf(G), m, r) && a' == A.ReadStep(G.Abs(), a)
    ensures CopyMatches(G, m, a, t, a')
  {
    CopyStep(G, m, r, a, A.At(G.Abs(), a.r.slot), src, buf');
    CopyIsConcrete(Conf(G), m, r, src, buf');
    CopyIsAbstract(G.Abs(), a, a.r.acc + src);
    CopyEndsRefines(G, m, r, a, src, buf', t, a');
  }

  lemma ReadCopyRefines(G: Geometry, m: seq<byte>, r: C.Reader, a: A.State)
    requires MemRel(G, m, a) && ReaderRel(G, r, a.r) && r.RCopy?
    requires a.r.len <= G.cap && a.lim <= a.r.slot + 1 + G.ring.Size() < a.lim + TWO16 && 1 <= a.r.left
    ensures CopyMatches(G, m, a, C.ReadStep(Conf(G), m, r), A.ReadStep(G.Abs(), a))
  {
    if r.off <= |r.buf| {
      var src := A.Prefix(a.cells[A.At(G.Abs(), a.r.slot)].data, a.r.len);
      var buf' := Splice(r.buf, r.off, src[..Min(|r.buf| - r.off, |src|)]);
      CopyFits(G, m, r, a, src, buf', C.ReadStep(Conf(G), m, r), A.ReadStep(G.Abs(), a));
    }
  }

  lemma RefillMem(G: Geometry, m: seq<byte>, head: nat, t: nat, a: A.State, a': A.State)
    requires MemRel(G, m, a) && Cong(head, t)
    requires var i := A.At(G.Abs(), t);
             && a'.cells == a.cells[i := a.cells[i].(len := A.Low16(a.cells[i].len, G.cap))]
             && a'.pub == a.pub && a'.lim == a.lim
    ensures MemRel(G, SetDescLength(G.ring, m, G.ring.Slot(head), G.cap), a')
  {
    var i := G.ring.Slot(head);
    SlotIsAt(G, head, t);
    SetLengthCell(G, m, i, G.cap);
    CellStep(G, m, SetDescLength(G.ring, m, i, G.cap), a, a', i, a'.cells[i]);
  }

  lemma RefillIs(P: A.Params, a: A.State)
    requires A.Shaped(P, a) && a.r.RRefill? && a.r.head < a.r.last + P.size
    ensures var i := A.At(P, a.r.head);
            A.ReadStep(P, a) == a.(cells := a.cells[i := a.cells[i].(len := A.Low16(a.cells[i].len, P.cap))],
                                   r := A.RRefill(a.r.last, a.r.head + 1), refilled := a.refilled + 1)
  {
  }

  lemma RefillStep(q: C.Config, m: seq<byte>, r: C.Reader)
    requires q.ring.End() <= |m| && r.RRefill? && r.todo > 0
    ensures C.ReadStep(q, m, r) ==
            (SetDescLength(q.ring, m, q.ring.Slot(r.head), q.cap), C.RRefill(r.last, r.head + 1, r.todo - 1, r.off, r.buf))
  {
  }

  lemma RefillRefines(G: Geometry, m: seq<byte>, r: C.Reader, a: A.State)
    requires MemRel(G, m, a) && ReaderRel(G, r, a.r) && r.RRefill? && r.todo > 0
    ensures ReadMatches(G, m, r, a)
  {
    CongNext(r.head, a.r.head);
    RefillStep(Conf(G), m, r);
    RefillIs(G.Abs(), a);
    RefillMem(G, m, r.head, a.r.head, a, A.ReadStep(G.Abs(), a));
  }

  lemma ReturnTail(G: Geometry, m: seq<byte>, a: A.State, a': A.State, v: nat)
    requires MemRel(G, m, a) && G.dir.S2M? && a'.cells == a.cells && a'.pub == a.pub
    requires v % TWO16 == (a'.lim - G.ring.Size()) % TWO16
    ensures MemRel(G, WriteTail(G.ring, m, v), a')
  {
    WriteIndexSpec(G, m, v);
  }

  lemma ReturnHead(G: Geometry, m: seq<byte>, a: A.State, a': A.State, v: nat)
    requires MemRel(G, m, a) && G.dir.M2S? && a'.cells == a.cells && a'.pub == a.pub && Cong(v, a'.lim)
    ensures MemRel(G, WriteHead(G.ring, m, v), a')
  {
    WriteIndexSpec(G, m, v);
  }

  lemma ReturnIndices(G: Geometry, m: seq<byte>, r: C.Reader, a: A.State, a': A.State)
    requires MemRel(G, m, a) && ReaderRel(G, r, a.r) && r.RRefill?
    requires a.r.head == a.r.last + G.ring.Size() && a'.cells == a.cells && a'.pub == a.pub && a'.lim == a.r.head
    ensures G.dir.S2M? ==> MemRel(G, WriteTail(G.ring, m, r.last), a')
    ensures G.dir.M2S? ==> MemRel(G, WriteHead(G.ring, m, r.head), a')
  {
    if G.dir.S2M? { ReturnTail(G, m, a, a', r.last); } else { ReturnHead(G, m, a, a', r.head); }
  }

  lemma ReturnRefines(G: Geometry, m: seq<byte>, r: C.Reader, a: A.State)
    requires MemRel(G, m, a) && ReaderRel(G, r, a.r) && r.RRefill? && r.todo == 0
    requires a.r.head == a.r.last + G.ring.Size()
    ensures ReadMatches(G, m, r, a)
  {
    ReturnIndices(G, m, r, a, A.ReadStep(G.Abs(), a));
  }

  // ---- whole states

  lemma WriteMemRefines(G: Geometry, m: seq<byte>, w: C.Writer, a: A.State)
    requires MemRel(G, m, a) && WriterRel(G, w, a.w) && w.Valid()
    requires w.WCopy? ==> w.room <= G.cap
    requires w.WPut? ==> 1 <= w.nFree
    ensures WriteMatches(G, m, w, a)
  {
    match w {
      case WGet(_, _, _, _) => WriteGetRefines(G, m, w, a);
      case WCopy(_, _, _, _, _, _) => WriteCopyRefines(G, m, w, a);
      case WPut(_, _, _, _, _) => WritePutRefines(G, m, w, a);
      case WPub(_, _, _) => WritePubRefines(G, m, w, a);
      case _ =>
    }
  }

  lemma CallsAppend(cs: seq<C.Call>, xs: seq<A.Sent>, call: C.Call, x: A.Sent, sent: bool)
    requires CallsRel(cs, xs, sent) && CallRel(call, x, sent)
    ensures CallsRel(cs + [call], xs + [x], sent)
  {
  }

  /** What a writer's step adds to the histories: the packet published, or the packet turned away. */
  lemma WriteAdds(q: C.Config, c: C.State, t: C.WPoint, c': C.State)
    requires C.Shaped(q, c) && t == C.WriteStep(q, c.mem, c.w) && c' == C.Step(q, c, C.StepWrite)
    ensures c' == c.(mem := t.0, w := t.1, accepted := c'.accepted, rejected := c'.rejected)
    ensures c'.accepted == if c.w.WPub? then c.accepted + [C.Call(c.w.pkt, c.rooms, c.w.n)] else c.accepted
    ensures c'.rejected == if c.w.WPut? && t.1.WDone? then c.rejected + [C.Call(c.w.pkt, c.rooms, 0)] else c.rejected
  {
  }

  lemma AbsWriteAdds(P: A.Params, a: A.State, a': A.State)
    requires A.Shaped(P, a) && a' == A.WriteStep(P, a)
    ensures a' == a.(cells := a'.cells, pub := a'.pub, w := a'.w, accepted := a'.accepted, rejected := a'.rejected)
    ensures a'.accepted == if a.w.WPub? then a.accepted + [a.w.job.sent] else a.accepted
    ensures !(a.w.WPut? && a'.w.WIdle?) ==> a'.rejected == a.rejected
    ensures a.w.WPut? && a'.w.WIdle? ==>
              exists x :: a'.rejected == a.rejected + [x] && x.pkt == a.w.job.sent.pkt && x.rooms == a.w.job.sent.rooms
    ensures !a'.w.WIdle? ==> !a.w.WIdle? && a'.w.job.sent.rooms == a.w.job.sent.rooms
  {
    if a.w.WPut? && a'.w.WIdle? { assert a'.rejected == a.rejected + [a'.rejected[|a.rejected|]]; }
  }

  lemma WriteHistory(G: Geometry, c: C.State, a: A.State, t: C.WPoint, a': A.State)
    requires C.Shaped(Conf(G), c) && A.Shaped(G.Abs(), a) && G.Valid() && HistoryRel(c, a) && WriterRel(G, c.w, a.w)
    requires t == C.WriteStep(Conf(G), c.mem, c.w) && a' == A.WriteStep(G.Abs(), a) && WriterRel(G, t.1, a'.w)
    ensures HistoryRel(C.Step(Conf(G), c, C.StepWrite), a')
  {
    WriteAdds(Conf(G), c, t, C.Step(Conf(G), c, C.StepWrite));
    AbsWriteAdds(G.Abs(), a, a');
    match c.w {
      case WPub(_, n, pkt) => CallsAppend(c.accepted, a.accepted, C.Call(pkt, c.rooms, n), a.w.job.sent, true);
      case WPut(_, _, _, pkt, _) =>
        if t.1.WDone? {
          var x :| a'.rejected == a.rejected + [x] && x.pkt == a.w.job.sent.pkt && x.rooms == a.w.job.sent.rooms;
          CallsAppend(c.rejected, a.rejected, C.Call(pkt, c.rooms, 0), x, false);
        }
      case _ =>
    }
  }

  lemma WriteRefines(G: Geometry, c: C.State, a: A.State)
    requires Rel(G, c, a)
    requires c.w.WCopy? ==> c.w.room <= G.cap
    requires c.w.WPut? ==> 1 <= c.w.nFree
    ensures Rel(G, C.Step(Conf(G), c, C.StepWrite), A.Step(G.Abs(), a, A.StepWrite))
  {
    WriteMemRefines(G, c.mem, c.w, a);
    WriteHistory(G, c, a, C.WriteStep(Conf(G), c.mem, c.w), A.WriteStep(G.Abs(), a));
  }

  lemma OutsAppend(os: seq<C.Output>, ps: seq<A.Packet>, out: C.Output, p: A.Packet)
    requires OutsRel(os, ps) && OutRel(out.n, out.buf, p)
    ensures OutsRel(os + [out], ps + [p])
  {
  }

  lemma ReadAdds(q: C.Config, c: C.State, t: C.RPoint, c': C.State)
    requires C.Shaped(q, c) && c.r.RCopy? && t == C.ReadStep(q, c.mem, c.r) && c' == C.Step(q, c, C.StepRead)
    ensures c' == c.(mem := t.0, r := t.1, delivered := c'.delivered, consumed := c'.consumed,
                     incomplete := c.incomplete || t.1.RIncomplete?)
    ensures c.r.last <= c.r.slot ==> c'.consumed == c.consumed + if t.1.RRefill? then c.r.slot + 1 - c.r.last else 0
    ensures c'.delivered == if t.1.RRefill? then c.delivered + [C.Output(t.1.off, t.1.buf)] else c.delivered
  {
  }

  lemma ReadCopyHistory(G: Geometry, c: C.State, a: A.State, t: C.RPoint, a': A.State)
    requires G.Valid() && C.Shaped(Conf(G), c) && HistoryRel(c, a) && c.r.RCopy? && ReaderRel(G, c.r, a.r)
    requires t == C.ReadStep(Conf(G), c.mem, c.r) && CopyMatches(G, c.mem, a, t, a')
    ensures HistoryRel(C.Step(Conf(G), c, C.StepRead), a')
  {
    ReadAdds(Conf(G), c, t, C.Step(Conf(G), c, C.StepRead));
    if t.1.RRefill? {
      var n := |a.delivered|;
      assert a'.delivered == a.delivered + [a'.delivered[n]];
      OutsAppend(c.delivered, a.delivered, C.Output(t.1.off, t.1.buf), a'.delivered[n]);
    }
  }

  lemma ReadKeepsWriter(P: A.Params, a: A.State)
    requires A.Shaped(P, a)
    ensures A.ReadStep(P, a).w == a.w
  {
  }

  /** A reader's step put together from its parts. */
  lemma ReadAssembles(G: Geometry, c: C.State, a: A.State, t: C.RPoint, a': A.State, c': C.State)
    requires C.Shaped(Conf(G), c) && MemRel(G, t.0, a') && WriterRel(G, c.w, a'.w) && ReaderRel(G, t.1, a'.r)
    requires t == C.ReadStep(Conf(G), c.mem, c.r) && c' == C.Step(Conf(G), c, C.StepRead) && HistoryRel(c', a')
    ensures Rel(G, c', a')
  {
  }

  lemma CopyMatchesMem(G: Geometry, m: seq<byte>, a: A.State, t: C.RPoint, a': A.State)
    requires MemRel(G, m, a) && a.r.RCopy? && CopyMatches(G, m, a, t, a')
    ensures MemRel(G, t.0, a') && ReaderRel(G, t.1, a'.r) && a'.w == a.w
  {
  }

  lemma ReadCopyState(G: Geometry, c: C.State, a: A.State, t: C.RPoint, a': A.State)
    requires Rel(G, c, a) && c.r.RCopy? && t == C.ReadStep(Conf(G), c.mem, c.r)
    requires CopyMatches(G, c.mem, a, t, a')
    ensures Rel(G, C.Step(Conf(G), c, C.StepRead), a')
  {
    ReadCopyHistory(G, c, a, t, a');
    CopyMatchesMem(G, c.mem, a, t, a');
    ReadAssembles(G, c, a, t, a', C.Step(Conf(G), c, C.StepRead));
  }

  lemma ReadCounts(G: Geometry, c: C.State, a: A.State)
    requires G.Valid() && C.Shaped(Conf(G), c) && A.Shaped(G.Abs(), a) && HistoryRel(c, a) && !c.r.RCopy?
    requires ReaderRel(G, c.r, a.r) && ReaderRel(G, C.ReadStep(Conf(G), c.mem, c.r).1, A.ReadStep(G.Abs(), a).r)
    ensures HistoryRel(C.Step(Conf(G), c, C.StepRead), A.ReadStep(G.Abs(), a))
  {
  }

  lemma ReadState(G: Geometry, c: C.State, a: A.State)
    requires Rel(G, c, a) && !c.r.RCopy? && ReadMatches(G, c.mem, c.r, a)
    ensures Rel(G, C.Step(Conf(G), c, C.StepRead), A.Step(G.Abs(), a, A.StepRead))
  {
    ReadCounts(G, c, a);
    ReadKeepsWriter(G.Abs(), a);
    ReadAssembles(G, c, a, C.ReadStep(Conf(G), c.mem, c.r), A.ReadStep(G.Abs(), a), C.Step(Conf(G), c, C.StepRead));
  }

  lemma StepIsRead(P: A.Params, a: A.State)
    requires A.Shaped(P, a)
    ensures A.Step(P, a, A.StepRead) == A.ReadStep(P, a)
  {
  }

  lemma ReadOtherRefines(G: Geometry, m: seq<byte>, r: C.Reader, a: A.State)
    requires MemRel(G, m, a) && ReaderRel(G, r, a.r) && r.Valid() && !r.RCopy?
    requires a.r.RRefill? ==> a.r.head <= a.r.last + G.ring.Size() && (G.dir.S2M? ==> a.r.head == a.r.last + G.ring.Size())
    ensures ReadMatches(G, m, r, a)
  {
    match r
    case RGet(_, _, _, _, _) => ReadGetRefines(G, m, r, a);
    case RRefill(_, _, _, _, _) => if r.todo > 0 { RefillRefines(G, m, r, a); } else { ReturnRefines(G, m, r, a); }
    case _ =>
  }

  lemma ReadRefines(G: Geometry, c: C.State, a: A.State)
    requires Rel(G, c, a)
    requires a.r.RCopy? ==> a.r.len <= G.cap && a.lim <= a.r.slot + 1 + G.ring.Size() < a.lim + TWO16 && 1 <= a.r.left
    requires a.r.RRefill? ==> a.r.head <= a.r.last + G.ring.Size() && (G.dir.S2M? ==> a.r.head == a.r.last + G.ring.Size())
    ensures Rel(G, C.Step(Conf(G), c, C.StepRead), A.Step(G.Abs(), a, A.StepRead))
  {
    if c.r.RCopy? {
      StepIsRead(G.Abs(), a);
      ReadCopyRefines(G, c.mem, c.r, a);
      ReadCopyState(G, c, a, C.ReadStep(Conf(G), c.mem, c.r), A.ReadStep(G.Abs(), a));
    } else {
      ReadOtherRefines(G, c.mem, c.r, a);
      ReadState(G, c, a);
    }
  }

  /** No slot is free: both sides turn the packet away. */
  lemma BeginRefused(G: Geometry, c: C.State, a: A.State, pkt: A.Packet, c': C.State, a': A.State)
    requires Rel(G, c, a) && c.w.WDone?
    requires c' == c.(w := C.WDone(0), rooms := [], rejected := c.rejected + [C.Call(pkt, [], 0)])
    requires a' == a.(rejected := a.rejected + [A.Sent(pkt, [], [])])
    ensures Rel(G, c', a')
  {
    CallsAppend(c.rejected, a.rejected, C.Call(pkt, [], 0), A.Sent(pkt, [], []), false);
  }

  lemma BeginTaken(G: Geometry, c: C.State, a: A.State, pkt: A.Packet, c': C.State, a': A.State)
    requires Rel(G, c, a) && c.w.WDone? && a'.w.WGet? && a'.w.job.sent.rooms == c'.rooms
    requires c' == c.(w := c'.w, rooms := c'.rooms) && a' == a.(w := a'.w)
    requires c'.w.Valid() && WriterRel(G, c'.w, a'.w)
    ensures Rel(G, c', a')
  {
  }

  lemma StartWriteIs(q: C.Config, c: C.State, pkt: A.Packet)
    requires C.Shaped(q, c) && c.w.WDone?
    ensures var w, rooms := C.BeginWrite(q, c.mem, pkt), C.FreeRooms(q, c.mem);
            C.Step(q, c, C.StartWrite(pkt)) ==
            c.(w := w, rooms := rooms, rejected := if w.WDone? then c.rejected + [C.Call(pkt, rooms, 0)] else c.rejected)
  {
  }

  lemma BeginWriteState(G: Geometry, c: C.State, a: A.State, pkt: A.Packet)
    requires Rel(G, c, a) && c.w.WDone? && a.pub <= a.lim <= a.pub + G.ring.Size()
    ensures Rel(G, C.Step(Conf(G), c, C.StartWrite(pkt)), A.Step(G.Abs(), a, A.StartWrite(pkt)))
  {
    StartWriteIs(Conf(G), c, pkt);
    SnapshotIs(G, c.mem, a, pkt);
    FreeSlots(G, c.mem, a);
    RoomsAre(G, c.mem, a, C.FreeRooms(Conf(G), c.mem));
    A.OffersAre(G.Abs(), a.cells, a.pub, C.FreeRooms(Conf(G), c.mem));
    BeginWriteFrom(G, c, a, pkt, C.BeginWrite(Conf(G), c.mem, pkt), C.FreeRooms(Conf(G), c.mem),
                   C.Step(Conf(G), c, C.StartWrite(pkt)));
  }

  lemma BeginWriteFrom(G: Geometry, c: C.State, a: A.State, pkt: A.Packet, w: C.Writer, rooms: seq<nat>, c': C.State)
    requires Rel(G, c, a) && c.w.WDone? && a.pub <= a.lim
    requires w == if a.lim == a.pub then C.WDone(0) else C.WGet(a.pub % TWO16, a.lim - a.pub, 0, pkt)
    requires rooms == A.Offers(G.Abs(), a.cells, a.pub, a.lim - a.pub)
    requires c' == c.(w := w, rooms := rooms, rejected := if w.WDone? then c.rejected + [C.Call(pkt, rooms, 0)] else c.rejected)
    ensures Rel(G, c', A.Step(G.Abs(), a, A.StartWrite(pkt)))
  {
    if a.lim == a.pub {
      BeginRefused(G, c, a, pkt, c', A.Step(G.Abs(), a, A.StartWrite(pkt)));
    } else {
      BeginWriteRefines(G, a, pkt, w);
      BeginTaken(G, c, a, pkt, c', A.Step(G.Abs(), a, A.StartWrite(pkt)));
    }
  }

  lemma BeginReadState(G: Geometry, c: C.State, a: A.State, buf: seq<byte>)
    requires Rel(G, c, a) && c.r.Returned() && A.Window(G.Abs(), a)
    ensures Rel(G, C.Step(Conf(G), c, C.StartRead(buf)), A.Step(G.Abs(), a, A.StartRead(|buf|)))
  {
    BeginReadRefines(G, c.mem, c.r.last, a, buf);
  }

  /** What the steps need of the invariant. */
  ghost predicate Facts(G: Geometry, a: A.State) {
    && A.Window(G.Abs(), a)
    && (a.w.WCopy? ==> a.w.room <= G.cap) && (a.w.WPut? ==> 1 <= a.w.job.left)
    && (a.r.RCopy? ==> a.r.len <= G.cap && a.lim <= a.r.slot + 1 + G.ring.Size() < a.lim + TWO16 && 1 <= a.r.left)
    && (a.r.RRefill? ==>
          a.r.head <= a.r.last + G.ring.Size() && (G.dir.S2M? ==> a.r.head == a.r.last + G.ring.Size()))
  }

  lemma InvFacts(G: Geometry, a: A.State)
    requires G.Valid() && A.Inv(G.Abs(), a)
    ensures Facts(G, a)
  {
    SizeFits(G);
  }

  lemma FactsRefine(G: Geometry, c: C.State, a: A.State, act: C.Action)
    requires Rel(G, c, a) && Facts(G, a)
    ensures Rel(G, C.Step(Conf(G), c, act), A.Step(G.Abs(), a, AbsAct(act)))
  {
    match act
    case StartWrite(pkt) => if c.w.WDone? { BeginWriteState(G, c, a, pkt); }
    case StepWrite => WriteRefines(G, c, a);
    case StartRead(buf) => if c.r.Returned() { BeginReadState(G, c, a, buf); }
    case StepRead => ReadRefines(G, c, a);
  }

  /** Every byte-level step is the protocol step of the same name. */
  lemma StepRefines(G: Geometry, c: C.State, a: A.State, act: C.Action)
    requires Rel(G, c, a) && A.Inv(G.Abs(), a)
    ensures Rel(G, C.Step(Conf(G), c, act), A.Step(G.Abs(), a, AbsAct(act)))
  {
    InvFacts(G, a);
    FactsRefine(G, c, a, act);
  }
}
