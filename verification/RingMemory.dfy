/**
 A ring in shared memory: header, descriptor table and packet buffers in one region of bytes.
 Functions are over the bytes of the region; the methods do the same in place.
 */
module RingMemory {
  import opened Arith
  import opened Bytes
  import opened RingProtocol

  const RING_SIZE: nat := 128
  const COOKIE_OFFSET: nat := 0
  const FLAGS_OFFSET: nat := 4
  const HEAD_OFFSET: nat := 6
  const TAIL_OFFSET: nat := 64

  const DESC_SIZE: nat := 16
  const DESC_FLAGS: nat := 0
  const DESC_REGION: nat := 2
  const DESC_LENGTH: nat := 4
  const DESC_OFFSET: nat := 8
  const FLAG_NEXT: nat := 1

  function Pow2(k: nat): (p: nat)
    ensures p > 0
  {
    if k == 0 then 1 else 2 * Pow2(k - 1)
  }

  lemma {:induction false} Pow2Add(a: nat, b: nat)
    ensures Pow2(a + b) == Pow2(a) * Pow2(b)
    decreases a
  {
    if a > 0 { Pow2Add(a - 1, b); Associate(2, Pow2(a - 1), Pow2(b)); }
  }

  lemma {:induction false} Pow2Monotone(a: nat, b: nat)
    requires a <= b
    ensures Pow2(a) <= Pow2(b)
    decreases b
  {
    if a < b { Pow2Monotone(a, b - 1); }
  }

  lemma Pow2Of16()
    ensures Pow2(16) == TWO16 && Pow2(15) == 0x8000 && Pow2(14) == 0x4000
  {
    assert Pow2(4) == 16;
    Pow2Add(4, 4);
    Pow2Add(8, 8);
    Pow2Add(8, 4);
    Pow2Add(12, 2);
    Pow2Add(14, 1);
  }

  /** Go's & on non-negative ints. */
  function And(x: nat, y: nat): (r: nat)
    ensures r <= y
  {
    if x == 0 || y == 0 then 0 else 2 * And(x / 2, y / 2) + (if x % 2 == 1 && y % 2 == 1 then 1 else 0)
  }

  /** slot & (size - 1) is the remainder, however far the int slot has run. */
  lemma {:induction false} AndMask(x: nat, k: nat)
    ensures And(x, Pow2(k) - 1) == x % Pow2(k)
    decreases k
  {
    if k > 0 {
      var p := Pow2(k - 1);
      AndMask(x / 2, k - 1);
      AndOdd(x, p);
      ModTwice(x, p);
    }
  }

  lemma AndOdd(x: nat, p: nat)
    requires p > 0
    ensures And(x, 2 * p - 1) == 2 * And(x / 2, p - 1) + x % 2
  {
    assert (2 * p - 1) / 2 == p - 1 && (2 * p - 1) % 2 == 1;
  }

  lemma ModTwice(x: nat, p: nat)
    requires p > 0
    ensures x % (2 * p) == 2 * (x / 2 % p) + x % 2
  {
    var q, r := x / 2 / p, x / 2 % p;
    assert x / 2 == q * p + r;
    assert q * (2 * p) == 2 * (q * p);
    DivModUnique(x, 2 * p, q, 2 * r + x % 2);
  }

  /** Where a ring lies and how large it is; its region is always region 0. */
  datatype Ring = Ring(offset: nat, log2: nat) {
    function Size(): (n: nat)
      ensures n > 0
    {
      Pow2(log2)
    }

    function Desc(slot: nat): nat { offset + RING_SIZE + DESC_SIZE * slot }

    function End(): nat { Desc(Size()) }

    function Slot(slot: nat): (i: nat)
      ensures i < Size()
    {
      And(slot, Size() - 1)
    }
  }

  // ---- index and descriptor accesses

  function ReadHead(r: Ring, m: seq<byte>): (v: nat)
    requires r.End() <= |m|
    ensures v < TWO16
  {
    Get16(m, r.offset + HEAD_OFFSET)
  }

  function ReadTail(r: Ring, m: seq<byte>): (v: nat)
    requires r.End() <= |m|
    ensures v < TWO16
  {
    Get16(m, r.offset + TAIL_OFFSET)
  }

  function WriteHead(r: Ring, m: seq<byte>, v: nat): seq<byte>
    requires r.End() <= |m|
  {
    Put16(m, r.offset + HEAD_OFFSET, v)
  }

  function WriteTail(r: Ring, m: seq<byte>, v: nat): seq<byte>
    requires r.End() <= |m|
  {
    Put16(m, r.offset + TAIL_OFFSET, v)
  }

  function GetDesc(r: Ring, m: seq<byte>, i: nat): (d: seq<byte>)
    requires r.End() <= |m| && i < r.Size()
    ensures |d| == DESC_SIZE
  {
    m[r.Desc(i)..r.Desc(i) + DESC_SIZE]
  }

  function PutDesc(r: Ring, m: seq<byte>, i: nat, d: seq<byte>): seq<byte>
    requires r.End() <= |m| && i < r.Size() && |d| == DESC_SIZE
  {
    Splice(m, r.Desc(i), d)
  }

  /** setDescLength: a 16-bit store into the 32-bit length. */
  function SetDescLength(r: Ring, m: seq<byte>, i: nat, v: nat): seq<byte>
    requires r.End() <= |m| && i < r.Size()
  {
    Put16(m, r.Desc(i) + DESC_LENGTH, v)
  }

  /** The places in bytes: head at 6 and tail at 64 of the header, descriptor i at 128 + 16 i, its length at 4. */
  lemma Places(r: Ring, m: seq<byte>, i: nat, v: nat)
    requires r.End() <= |m| && i < r.Size()
    ensures WriteHead(r, m, v) == m[r.offset + 6 := v % 256][r.offset + 7 := v / 256 % 256]
    ensures WriteTail(r, m, v) == m[r.offset + 64 := v % 256][r.offset + 65 := v / 256 % 256]
    ensures ReadHead(r, m) == m[r.offset + 6] as int + 256 * (m[r.offset + 7] as int)
    ensures ReadTail(r, m) == m[r.offset + 64] as int + 256 * (m[r.offset + 65] as int)
    ensures GetDesc(r, m, i) == m[r.offset + 128 + 16 * i..][..16]
    ensures SetDescLength(r, m, i, v) == m[r.offset + 128 + 16 * i + 4 := v % 256][r.offset + 128 + 16 * i + 5 := v / 256 % 256]
  {
  }

  // ---- the cells that the bytes stand for

  /** A ring, the region size, the buffer that each descriptor owns for good, and the form of the copy. */
  datatype Geometry = Geometry(dir: Direction, ring: Ring, total: nat, bufs: seq<nat>, cap: nat, rest: bool) {
    function Abs(): Params { Params(dir, ring.Size(), cap, rest) }

    ghost predicate Apart(lo: nat, hi: nat, j: nat)
      requires j < |bufs|
    {
      hi <= bufs[j] || bufs[j] + cap <= lo
    }

    ghost predicate Disjoint(i: nat, j: nat)
      requires i < |bufs| && j < |bufs|
    {
      Apart(bufs[i], bufs[i] + cap, j)
    }

    /** Header, table and buffers lie inside the region and overlap nowhere. */
    ghost predicate Valid() {
      && 0 < cap < TWO32 && ring.log2 <= 15 && |bufs| == ring.Size() && ring.End() <= total
      && (forall i :: 0 <= i < |bufs| ==> bufs[i] + cap <= total && Apart(ring.offset, ring.End(), i))
      && (forall i, j :: 0 <= i < |bufs| && 0 <= j < |bufs| && i != j ==> Disjoint(i, j))
    }

    ghost predicate LaidAt(m: seq<byte>, i: nat)
      requires ring.End() <= |m| && i < ring.Size() && |bufs| == ring.Size()
    {
      && Get16(m, ring.Desc(i) + DESC_REGION) == 0
      && Get32(m, ring.Desc(i) + DESC_OFFSET) == bufs[i]
    }

    /** Every descriptor points to its buffer in region 0. */
    ghost predicate Laid(m: seq<byte>) {
      Valid() && |m| == total && forall i :: 0 <= i < ring.Size() ==> LaidAt(m, i)
    }

    ghost function CellAt(m: seq<byte>, i: nat): (c: Cell)
      requires Valid() && |m| == total && i < ring.Size()
      ensures |c.data| == cap
    {
      Cell(Get16(m, ring.Desc(i) + DESC_FLAGS) % 2 == 1, Get32(m, ring.Desc(i) + DESC_LENGTH),
           m[bufs[i]..bufs[i] + cap])
    }

    ghost function Cells(m: seq<byte>): (cs: seq<Cell>)
      requires Valid() && |m| == total
      ensures |cs| == ring.Size()
    {
      seq(ring.Size(), i requires 0 <= i < ring.Size() => CellAt(m, i))
    }
  }

  lemma SameSlice(m: seq<byte>, m': seq<byte>, lo: nat, hi: nat, a: nat, b: nat)
    requires Outside(m, m', lo, hi) && a <= b <= |m| && (b <= lo || hi <= a)
    ensures m[a..b] == m'[a..b]
  {
  }

  lemma SameFields(m: seq<byte>, m': seq<byte>, lo: nat, hi: nat, o: nat)
    requires Outside(m, m', lo, hi)
    ensures o + 2 <= |m| && (o + 2 <= lo || hi <= o) ==> Get16(m', o) == Get16(m, o)
    ensures o + 4 <= |m| && (o + 4 <= lo || hi <= o) ==> Get32(m', o) == Get32(m, o)
  {
  }

  lemma SameDesc(G: Geometry, m: seq<byte>, m': seq<byte>, lo: nat, hi: nat, i: nat)
    requires G.Laid(m) && Outside(m, m', lo, hi) && i < G.ring.Size()
    requires hi <= G.ring.Desc(i) || G.ring.Desc(i + 1) <= lo
    ensures G.LaidAt(m', i)
    ensures G.CellAt(m', i).next == G.CellAt(m, i).next && G.CellAt(m', i).len == G.CellAt(m, i).len
  {
    var o := G.ring.Desc(i);
    assert G.LaidAt(m, i);
    SameFields(m, m', lo, hi, o + DESC_FLAGS);
    SameFields(m, m', lo, hi, o + DESC_REGION);
    SameFields(m, m', lo, hi, o + DESC_LENGTH);
    SameFields(m, m', lo, hi, o + DESC_OFFSET);
  }

  /** A write away from the table entry and the buffer of i leaves cell i alone. */
  lemma CellFrame(G: Geometry, m: seq<byte>, m': seq<byte>, lo: nat, hi: nat, i: nat)
    requires G.Laid(m) && Outside(m, m', lo, hi) && i < G.ring.Size() && G.Apart(lo, hi, i)
    requires hi <= G.ring.Desc(i) || G.ring.Desc(i + 1) <= lo
    ensures G.LaidAt(m', i) && G.CellAt(m', i) == G.CellAt(m, i)
  {
    SameDesc(G, m, m', lo, hi, i);
    SameSlice(m, m', lo, hi, G.bufs[i], G.bufs[i] + G.cap);
  }

  /** m' is m with cell i replaced by c, as far as the ring can tell. */
  ghost predicate Updated(G: Geometry, m: seq<byte>, m': seq<byte>, i: nat, c: Cell) {
    && G.Laid(m) && G.Laid(m') && i < G.ring.Size() && G.Cells(m') == G.Cells(m)[i := c]
    && ReadHead(G.ring, m') == ReadHead(G.ring, m) && ReadTail(G.ring, m') == ReadTail(G.ring, m)
  }

  /** A write inside the table entry of i or inside its buffer. */
  lemma OnlyCell(G: Geometry, m: seq<byte>, m': seq<byte>, lo: nat, hi: nat, i: nat, c: Cell)
    requires G.Laid(m) && Outside(m, m', lo, hi) && i < G.ring.Size()
    requires || G.ring.Desc(i) <= lo <= hi <= G.ring.Desc(i + 1)
             || G.bufs[i] <= lo <= hi <= G.bufs[i] + G.cap
    requires G.LaidAt(m', i) && G.CellAt(m', i) == c
    ensures Updated(G, m, m', i, c)
  {
    assert G.Apart(G.ring.offset, G.ring.End(), i);
    SameFields(m, m', lo, hi, G.ring.offset + HEAD_OFFSET);
    SameFields(m, m', lo, hi, G.ring.offset + TAIL_OFFSET);
    forall j | 0 <= j < G.ring.Size() && j != i
      ensures G.LaidAt(m', j) && G.CellAt(m', j) == G.CellAt(m, j)
    {
      assert G.Apart(G.ring.offset, G.ring.End(), j) && G.Disjoint(i, j);
      CellFrame(G, m, m', lo, hi, j);
    }
  }

  /** A descriptor copied out has the fields it has in place. */
  lemma SliceFields(m: seq<byte>, o: nat, f: nat)
    requires o + DESC_SIZE <= |m| && f + 4 <= DESC_SIZE
    ensures Get16(m[o..o + DESC_SIZE], f) == Get16(m, o + f)
    ensures Get32(m[o..o + DESC_SIZE], f) == Get32(m, o + f)
  {
  }

  lemma DescHere(G: Geometry, m: seq<byte>, m': seq<byte>, i: nat, d: seq<byte>)
    requires G.Laid(m) && i < G.ring.Size() && |d| == DESC_SIZE && |m'| == |m|
    requires Get16(d, DESC_REGION) == 0 && Get32(d, DESC_OFFSET) == G.bufs[i]
    requires m'[G.ring.Desc(i)..G.ring.Desc(i) + DESC_SIZE] == d
    requires Outside(m, m', G.ring.Desc(i), G.ring.Desc(i) + DESC_SIZE)
    ensures G.LaidAt(m', i)
    ensures G.CellAt(m', i) ==
            G.CellAt(m, i).(next := Get16(d, DESC_FLAGS) % 2 == 1, len := Get32(d, DESC_LENGTH))
  {
    var o := G.ring.Desc(i);
    SliceFields(m', o, DESC_FLAGS);
    SliceFields(m', o, DESC_REGION);
    SliceFields(m', o, DESC_LENGTH);
    SliceFields(m', o, DESC_OFFSET);
    assert G.Apart(G.ring.offset, G.ring.End(), i);
    SameSlice(m, m', o, o + DESC_SIZE, G.bufs[i], G.bufs[i] + G.cap);
  }

  lemma PutDescCell(G: Geometry, m: seq<byte>, i: nat, d: seq<byte>)
    requires G.Laid(m) && i < G.ring.Size() && |d| == DESC_SIZE
    requires Get16(d, DESC_REGION) == 0 && Get32(d, DESC_OFFSET) == G.bufs[i]
    ensures Updated(G, m, PutDesc(G.ring, m, i, d), i,
                    G.Cells(m)[i].(next := Get16(d, DESC_FLAGS) % 2 == 1, len := Get32(d, DESC_LENGTH)))
  {
    var m', o := PutDesc(G.ring, m, i, d), G.ring.Desc(i);
    SpliceSpec(m, o, d);
    DescHere(G, m, m', i, d);
    OnlyCell(G, m, m', o, o + DESC_SIZE, i, G.CellAt(m', i));
  }

  lemma DataSlice(m: seq<byte>, m': seq<byte>, b: nat, n: nat, t: seq<byte>)
    requires |t| <= n && b + n <= |m| && Outside(m, m', b, b + |t|) && m'[b..b + |t|] == t
    ensures m'[b..b + n] == Overlay(m[b..b + n], t)
  {
    SameSlice(m, m', b, b + |t|, b + |t|, b + n);
    assert m'[b..b + n] == m'[b..b + |t|] + m'[b + |t|..b + n];
    assert m[b..b + n][|t|..] == m[b + |t|..b + n];
  }

  lemma DataHere(G: Geometry, m: seq<byte>, m': seq<byte>, i: nat, data: seq<byte>)
    requires G.Laid(m) && i < G.ring.Size() && |m'| == |m| && G.bufs[i] + G.cap <= |m|
    requires Outside(m, m', G.bufs[i], G.bufs[i] + G.cap) && m'[G.bufs[i]..G.bufs[i] + G.cap] == data
    ensures G.LaidAt(m', i) && G.CellAt(m', i) == G.CellAt(m, i).(data := data)
  {
    BufferFits(G, i);
    SameDesc(G, m, m', G.bufs[i], G.bufs[i] + G.cap, i);
  }

  lemma BufferFits(G: Geometry, i: nat)
    requires G.Valid() && i < G.ring.Size()
    ensures G.bufs[i] + G.cap <= G.total && (G.bufs[i] + G.cap <= G.ring.offset || G.ring.End() <= G.bufs[i])
  {
    assert G.Apart(G.ring.offset, G.ring.End(), i);
  }

  lemma Widened(m: seq<byte>, m': seq<byte>, b: nat, n: nat, k: nat)
    requires Outside(m, m', b, b + n) && n <= k
    ensures Outside(m, m', b, b + k)
  {
  }

  lemma DataCell(G: Geometry, m: seq<byte>, m': seq<byte>, i: nat, data: seq<byte>)
    requires G.Laid(m) && i < G.ring.Size() && |m'| == |m| && G.bufs[i] + G.cap <= |m|
    requires Outside(m, m', G.bufs[i], G.bufs[i] + G.cap) && m'[G.bufs[i]..G.bufs[i] + G.cap] == data
    ensures Updated(G, m, m', i, G.Cells(m)[i].(data := data))
  {
    DataHere(G, m, m', i, data);
    OnlyCell(G, m, m', G.bufs[i], G.bufs[i] + G.cap, i, G.CellAt(m', i));
  }

  lemma OverlayIs(G: Geometry, m: seq<byte>, i: nat, t: seq<byte>)
    requires G.Laid(m) && i < G.ring.Size() && G.bufs[i] + G.cap <= |m|
    ensures Overlay(m[G.bufs[i]..G.bufs[i] + G.cap], t) == Overlay(G.Cells(m)[i].data, t)
  {
    assert G.Cells(m)[i] == G.CellAt(m, i);
  }

  lemma PutDataCell(G: Geometry, m: seq<byte>, i: nat, t: seq<byte>)
    requires G.Laid(m) && i < G.ring.Size() && |t| <= G.cap
    ensures G.bufs[i] + |t| <= |m|
    ensures Updated(G, m, Splice(m, G.bufs[i], t), i,
                    G.Cells(m)[i].(data := Overlay(G.Cells(m)[i].data, t)))
  {
    BufferFits(G, i);
    OverlayIs(G, m, i, t);
    PutData(G, m, i, t, G.bufs[i], Splice(m, G.bufs[i], t), Overlay(m[G.bufs[i]..G.bufs[i] + G.cap], t));
  }

  lemma PutData(G: Geometry, m: seq<byte>, i: nat, t: seq<byte>, b: nat, m': seq<byte>, data: seq<byte>)
    requires G.Laid(m) && i < G.ring.Size() && |t| <= G.cap && b == G.bufs[i] && b + G.cap <= |m|
    requires m' == Splice(m, b, t) && data == Overlay(m[b..b + G.cap], t)
    ensures Updated(G, m, m', i, G.Cells(m)[i].(data := data))
  {
    SpliceSpec(m, b, t);
    DataSlice(m, m', b, G.cap, t);
    Widened(m, m', b, |t|, G.cap);
    DataCell(G, m, m', i, data);
  }

  /** A 16-bit store over the low half of a 32-bit field. */
  lemma HalfStore(lo: nat, hi: nat, v: nat)
    requires lo < TWO16
    ensures Low16(lo + TWO16 * hi, v) == v % TWO16 + TWO16 * hi
  {
  }

  lemma LengthField(m: seq<byte>, m': seq<byte>, o: nat, v: nat)
    requires o + 4 <= |m| && Outside(m, m', o, o + 2) && Get16(m', o) == v % TWO16
    ensures Get32(m', o) == Low16(Get32(m, o), v)
  {
    SameFields(m, m', o, o + 2, o + 2);
    HalfStore(Get16(m, o), Get16(m, o + 2), v);
  }

  lemma LengthHere(G: Geometry, m: seq<byte>, m': seq<byte>, i: nat, v: nat)
    requires G.Laid(m) && i < G.ring.Size() && |m'| == |m|
    requires Get16(m', G.ring.Desc(i) + DESC_LENGTH) == v % TWO16
    requires Outside(m, m', G.ring.Desc(i) + DESC_LENGTH, G.ring.Desc(i) + DESC_LENGTH + 2)
    ensures G.LaidAt(m', i)
    ensures G.CellAt(m', i) == G.CellAt(m, i).(len := Low16(G.CellAt(m, i).len, v))
  {
    var o := G.ring.Desc(i) + DESC_LENGTH;
    assert G.LaidAt(m, i) && G.Apart(G.ring.offset, G.ring.End(), i);
    SameSlice(m, m', o, o + 2, G.bufs[i], G.bufs[i] + G.cap);
    LengthField(m, m', o, v);
    SameFields(m, m', o, o + 2, G.ring.Desc(i) + DESC_FLAGS);
    SameFields(m, m', o, o + 2, G.ring.Desc(i) + DESC_REGION);
    SameFields(m, m', o, o + 2, G.ring.Desc(i) + DESC_OFFSET);
  }

  lemma SetLengthCell(G: Geometry, m: seq<byte>, i: nat, v: nat)
    requires G.Laid(m) && i < G.ring.Size()
    ensures Updated(G, m, SetDescLength(G.ring, m, i, v), i,
                    G.Cells(m)[i].(len := Low16(G.Cells(m)[i].len, v)))
  {
    var m', o := SetDescLength(G.ring, m, i, v), G.ring.Desc(i) + DESC_LENGTH;
    Put16Spec(m, o, v);
    LengthHere(G, m, m', i, v);
    OnlyCell(G, m, m', o, o + 2, i, G.CellAt(m', i));
  }

  /** An index store touches no cell and not the other index. */
  lemma IndexCells(G: Geometry, m: seq<byte>, m': seq<byte>, lo: nat)
    requires G.Laid(m) && Outside(m, m', lo, lo + 2)
    requires lo == G.ring.offset + HEAD_OFFSET || lo == G.ring.offset + TAIL_OFFSET
    ensures G.Laid(m') && G.Cells(m') == G.Cells(m)
  {
    forall j | 0 <= j < G.ring.Size() ensures G.LaidAt(m', j) && G.CellAt(m', j) == G.CellAt(m, j) {
      assert G.Apart(G.ring.offset, G.ring.End(), j);
      CellFrame(G, m, m', lo, lo + 2, j);
    }
  }

  /** writeHead and writeTail: the one index takes the low 16 bits, all else stays. */
  lemma WriteIndexSpec(G: Geometry, m: seq<byte>, v: nat)
    requires G.Laid(m)
    ensures var m' := WriteHead(G.ring, m, v);
            && G.Laid(m') && G.Cells(m') == G.Cells(m)
            && ReadHead(G.ring, m') == v % TWO16 && ReadTail(G.ring, m') == ReadTail(G.ring, m)
    ensures var m' := WriteTail(G.ring, m, v);
            && G.Laid(m') && G.Cells(m') == G.Cells(m)
            && ReadTail(G.ring, m') == v % TWO16 && ReadHead(G.ring, m') == ReadHead(G.ring, m)
  {
    var h, t := G.ring.offset + HEAD_OFFSET, G.ring.offset + TAIL_OFFSET;
    Put16Spec(m, h, v);
    Put16Spec(m, t, v);
    IndexCells(G, m, WriteHead(G.ring, m, v), h);
    IndexCells(G, m, WriteTail(G.ring, m, v), t);
    SameFields(m, WriteHead(G.ring, m, v), h, h + 2, t);
    SameFields(m, WriteTail(G.ring, m, v), t, t + 2, h);
  }

  /** updateRing: the 128 header bytes, copied out. */
  function UpdateRing(r: Ring, m: seq<byte>): (rb: seq<byte>)
    requires r.End() <= |m|
    ensures |rb| == RING_SIZE
  {
    m[r.offset..r.offset + RING_SIZE]
  }

  /** putRing: the 128 header bytes, copied back. */
  function PutRing(r: Ring, m: seq<byte>, rb: seq<byte>): seq<byte>
    requires r.End() <= |m| && |rb| == RING_SIZE
  {
    Splice(m, r.offset, rb)
  }

  /** The direct index accessors agree with updateRing, get or set, and putRing. */
  lemma FastAccessorsAgree(r: Ring, m: seq<byte>, v: nat)
    requires r.End() <= |m|
    ensures Get16(UpdateRing(r, m), HEAD_OFFSET) == ReadHead(r, m)
    ensures Get16(UpdateRing(r, m), TAIL_OFFSET) == ReadTail(r, m)
    ensures PutRing(r, m, Put16(UpdateRing(r, m), HEAD_OFFSET, v)) == WriteHead(r, m, v)
    ensures PutRing(r, m, Put16(UpdateRing(r, m), TAIL_OFFSET, v)) == WriteTail(r, m, v)
  {
    PutThrough(m, r.offset, HEAD_OFFSET, v);
    PutThrough(m, r.offset, TAIL_OFFSET, v);
  }

  lemma PutThrough(m: seq<byte>, o: nat, f: nat, v: nat)
    requires o + RING_SIZE <= |m| && f + 2 <= RING_SIZE
    ensures Splice(m, o, Put16(m[o..o + RING_SIZE], f, v)) == Put16(m, o + f, v)
  {
    var rb := m[o..o + RING_SIZE];
    Put16Spec(rb, f, v);
    SpliceSpec(m, o, Put16(rb, f, v));
    var a, b := Splice(m, o, Put16(rb, f, v)), Put16(m, o + f, v);
    forall k | 0 <= k < |m| ensures a[k] == b[k] {
      if o <= k < o + RING_SIZE {
        assert a[k] == a[o..o + RING_SIZE][k - o] == Put16(rb, f, v)[k - o];
      }
    }
  }
}
