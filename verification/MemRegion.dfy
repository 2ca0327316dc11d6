/** The client's region: addRegion and initializeQueues, in place on the mapped bytes. */
module MemRegion {
  import opened Arith
  import opened Bytes
  import opened Layout
  import opened RingMemory

  const COOKIE: nat := 0x3E31F20

  ghost predicate HeaderOk(m: seq<byte>, off: nat) {
    && off + RING_SIZE <= |m|
    && Get32(m, off + COOKIE_OFFSET) == COOKIE && Get16(m, off + FLAGS_OFFSET) == 1
    && Get16(m, off + HEAD_OFFSET) == 0 && Get16(m, off + TAIL_OFFSET) == 0
  }

  /** The descriptor at o is unused and offers len bytes at buf in region 0. */
  ghost predicate DescOk(m: seq<byte>, o: nat, len: nat, buf: nat) {
    && o + DESC_SIZE <= |m|
    && Get16(m, o + DESC_FLAGS) == 0 && Get16(m, o + DESC_REGION) == 0
    && Get32(m, o + DESC_LENGTH) == len && Get32(m, o + DESC_OFFSET) == buf
  }

  /** packetBufferOffset + uint32(slot) * PacketBufferSize, in uint32. */
  function BufferOffset(c: MemoryConfig, slot: nat): nat {
    (c.PacketBufferOffset() + slot * c.packetBufferSize % TWO32) % TWO32
  }

  /** Entry j of the table at t offers packet buffer first + j. */
  ghost predicate EntryOk(m: seq<byte>, c: MemoryConfig, t: nat, first: nat, j: nat) {
    DescOk(m, t + DESC_SIZE * j, c.packetBufferSize, BufferOffset(c, first + j))
  }

  ghost predicate EntriesOk(m: seq<byte>, c: MemoryConfig, t: nat, first: nat, n: nat) {
    forall j :: 0 <= j < n ==> EntryOk(m, c, t, first, j)
  }

  /** The descriptors of ring g offer the packet buffers from `first` on. */
  ghost predicate TableOk(m: seq<byte>, c: MemoryConfig, g: nat, first: nat) {
    EntriesOk(m, c, c.RingStart(g) + RING_SIZE, first, Pow2(c.log2RingSize))
  }

  lemma HeaderRange(m: seq<byte>, m': seq<byte>, lo: nat, hi: nat, off: nat)
    requires HeaderOk(m, off) && SameRange(m, m', lo, hi) && lo <= off && off + RING_SIZE <= hi <= |m|
    ensures HeaderOk(m', off)
  {
    FieldRange(m, m', lo, hi, off + COOKIE_OFFSET);
    FieldRange(m, m', lo, hi, off + FLAGS_OFFSET);
    FieldRange(m, m', lo, hi, off + HEAD_OFFSET);
    FieldRange(m, m', lo, hi, off + TAIL_OFFSET);
  }

  lemma EntriesRange(m: seq<byte>, m': seq<byte>, c: MemoryConfig, lo: nat, hi: nat, t: nat, first: nat, n: nat)
    requires EntriesOk(m, c, t, first, n) && SameRange(m, m', lo, hi) && lo <= t && t + DESC_SIZE * n <= hi <= |m|
    ensures EntriesOk(m', c, t, first, n)
  {
    forall j | 0 <= j < n ensures EntryOk(m', c, t, first, j) {
      var o := t + DESC_SIZE * j;
      assert EntryOk(m, c, t, first, j);
      FieldRange(m, m', lo, hi, o + DESC_FLAGS);
      FieldRange(m, m', lo, hi, o + DESC_REGION);
      FieldRange(m, m', lo, hi, o + DESC_LENGTH);
      FieldRange(m, m', lo, hi, o + DESC_OFFSET);
    }
  }

  /** What initializeQueues leaves behind. */
  ghost predicate Initialized(c: MemoryConfig, m0: seq<byte>, m: seq<byte>) {
    && |m| == |m0|
    && (forall g :: 0 <= g < c.RingCount() ==> HeaderOk(m, c.RingStart(g)))
    && (c.numQueuePairs > 0 ==> TableOk(m, c, 0, 0) && TableOk(m, c, c.numQueuePairs, 0))
    && (c.numQueuePairs > 1 ==> SameRange(m0, m, c.RingStart(1) + RING_SIZE, c.RingStart(2)))
  }

  // ---- the stores, in their order

  /** The bytes of the region, or the panic of a store that starts beyond them. */
  datatype Image = Image(bytes: seq<byte>) | Crash

  /** copy(data[at:], t): what does not fit is cut off. */
  function Put(i: Image, at: nat, t: seq<byte>): Image {
    if i.Crash? || at > |i.bytes| then Crash else Image(Splice(i.bytes, at, t[..Min(|i.bytes| - at, |t|)]))
  }

  function Zeros(n: nat): seq<byte> { seq(n, _ => 0) }

  /** A ring header: cookie, flags 1, both indices 0. */
  function Header(): (h: seq<byte>)
    ensures |h| == RING_SIZE
  {
    Put16(Put32(Zeros(RING_SIZE), COOKIE_OFFSET, COOKIE), FLAGS_OFFSET, 1)
  }

  /** A descriptor: no flags, region 0, the configured length and a buffer. */
  function Entry(c: MemoryConfig, buf: nat): (d: seq<byte>)
    ensures |d| == DESC_SIZE
  {
    Put32(Put32(Zeros(DESC_SIZE), DESC_LENGTH, c.packetBufferSize), DESC_OFFSET, buf)
  }

  function SlotStart(off: nat, slot: nat): nat { off + RING_SIZE + DESC_SIZE * slot }

  /** n descriptors from slot at of the table of the ring at off on, for the buffers from first on. */
  function Table(c: MemoryConfig, i: Image, off: nat, at: nat, first: nat, n: nat): Image {
    if n == 0 then i
    else Put(Table(c, i, off, at, first, n - 1), SlotStart(off, at + n - 1), Entry(c, BufferOffset(c, first + n - 1)))
  }

  /** The queue that ring g belongs to: S2M rings first, then the M2S rings. */
  function QueueOf(c: MemoryConfig, g: nat): nat { if g < c.numQueuePairs then g else g - c.numQueuePairs }

  /** Header and descriptors of ring g, with slots counted from qid * size in its own table. */
  function OneRing(c: MemoryConfig, i: Image, g: nat): Image {
    var size, off := Pow2(c.log2RingSize), c.RingStart(g);
    Table(c, Put(i, off, Header()), off, QueueOf(c, g) * size, QueueOf(c, g) * size, size)
  }

  /** The first n rings. */
  function Rings(c: MemoryConfig, i: Image, n: nat): Image {
    if n == 0 then i else OneRing(c, Rings(c, i, n - 1), n - 1)
  }

  class Port {
    var run: MemoryConfig
    var data: array<byte>
    var packetBufferOffset: nat
    var txQueues: seq<Ring>
    var rxQueues: seq<Ring>

    constructor (run: MemoryConfig)
      ensures this.run == run && txQueues == [] && rxQueues == [] && data.Length == 0
    {
      this.run, packetBufferOffset, txQueues, rxQueues := run, 0, [], [];
      data := new byte[0];
    }

    /** addRegion(true, true): a new region, mapped and zeroed. */
    method AddRegion()
      requires run.Typed()
      modifies this`data, this`packetBufferOffset
      ensures packetBufferOffset == run.PacketBufferOffset() && data.Length == run.RegionSize() && fresh(data)
      ensures forall k :: 0 <= k < data.Length ==> data[k] == 0
    {
      packetBufferOffset := run.PacketBufferOffset();
      data := new byte[run.RegionSize()](_ => 0);
    }

    /** One store, or its panic. */
    method Copy(at: nat, t: seq<byte>) returns (ok: bool)
      modifies data
      ensures ok <==> at <= data.Length
      ensures ok ==> Image(data[..]) == Put(Image(old(data[..])), at, t)
    {
      ok := at <= data.Length;
      if ok { var n := CopyInto(data, at, t); }
    }

    /** setCookie, setFlags and putRing on a fresh ring buffer. */
    method PutRing(off: nat) returns (ok: bool)
      modifies data
      ensures ok <==> off <= data.Length
      ensures ok ==> Image(data[..]) == Put(Image(old(data[..])), off, Header())
    {
      var rb := new byte[RING_SIZE](_ => 0);
      assert rb[..] == Zeros(RING_SIZE);
      Store32(rb, COOKIE_OFFSET, COOKIE);
      Store16(rb, FLAGS_OFFSET, 1);
      ok := Copy(off, rb[..]);
    }

    /** The descriptor that the loops reuse: no flags, region 0, the configured length. */
    method NewDesc() returns (desc: array<byte>)
      ensures fresh(desc) && desc[..] == Entry(run, 0)
    {
      desc := new byte[DESC_SIZE](_ => 0);
      ghost var z := Zeros(DESC_SIZE);
      assert desc[..] == z;
      Store16(desc, DESC_FLAGS, 0);
      Store16(desc, DESC_REGION, 0);
      assert desc[..] == z;
      Store32(desc, DESC_LENGTH, run.packetBufferSize);
      NoOffsetYet(Put32(z, DESC_LENGTH, run.packetBufferSize));
    }

    /** putDescBuf */
    method CopyDesc(at: nat, desc: array<byte>) returns (ok: bool)
      requires desc != data
      modifies data
      ensures ok <==> at <= data.Length
      ensures ok ==> Image(data[..]) == Put(Image(old(data[..])), at, desc[..])
    {
      ok := Copy(at, desc[..]);
    }

    /** setOffset on a descriptor that had another one. */
    method SetBuffer(desc: array<byte>, ghost last: nat, buf: nat)
      requires desc[..] == Entry(run, last)
      modifies desc
      ensures desc[..] == Entry(run, buf)
    {
      EntryAgain(run, last, buf);
      Store32(desc, DESC_OFFSET, buf);
    }

    /** One turn of the inner loop. */
    method PutNext(off: nat, at: nat, first: nat, j: nat, desc: array<byte>, ghost last: nat, ghost i: Image)
      returns (ok: bool, ghost buf: nat)
      requires packetBufferOffset == run.PacketBufferOffset() && desc != data && desc[..] == Entry(run, last)
      requires Image(data[..]) == Table(run, i, off, at, first, j)
      modifies data, desc
      ensures desc[..] == Entry(run, buf) && (ok <==> Table(run, i, off, at, first, j + 1).Image?)
      ensures ok ==> Image(data[..]) == Table(run, i, off, at, first, j + 1)
    {
      var b := (packetBufferOffset + (first + j) * run.packetBufferSize % TWO32) % TWO32;
      SetBuffer(desc, last, b);
      TableIs(run, i, off, at, first, j, b);
      ok := CopyDesc(SlotStart(off, at + j), desc);
      buf := b;
    }

    /** The inner loop for one ring. */
    method PutTable(off: nat, at: nat, first: nat, size: nat) returns (ok: bool)
      requires packetBufferOffset == run.PacketBufferOffset()
      modifies data
      ensures ok <==> Table(run, Image(old(data[..])), off, at, first, size).Image?
      ensures ok ==> Image(data[..]) == Table(run, Image(old(data[..])), off, at, first, size)
    {
      var desc := NewDesc();
      ghost var i := Image(data[..]);
      ghost var last: nat := 0;
      var j := 0;
      ok := true;
      while j < size && ok
        invariant 0 <= j <= size && fresh(desc) && desc[..] == Entry(run, last)
        invariant ok <==> Table(run, i, off, at, first, j).Image?
        invariant ok ==> Image(data[..]) == Table(run, i, off, at, first, j)
      {
        ok, last := PutNext(off, at, first, j, desc, last, i);
        j := j + 1;
      }
      if !ok { TableCrashes(run, i, off, at, first, j, size); }
    }

    /** One turn of either outer loop: header, then descriptors at slots qid*size + j of that ring. */
    method InitQueue(s2m: bool, qid: nat) returns (ok: bool, ring: Ring)
      requires packetBufferOffset == run.PacketBufferOffset() && qid < run.numQueuePairs
      modifies data
      ensures var g := if s2m then qid else run.numQueuePairs + qid;
              && QueueAt(run, ring, g) && (ok <==> OneRing(run, Image(old(data[..])), g).Image?)
              && (ok ==> Image(data[..]) == OneRing(run, Image(old(data[..])), g))
    {
      ring := NewRing(run, s2m, qid);
      NewRingPlace(run, s2m, qid);
      var size := Pow2(run.log2RingSize);
      ok := PutRing(ring.offset);
      if ok {
        ok := PutTable(ring.offset, qid * size, qid * size, size);
      } else {
        TableCrashes(run, Crash, ring.offset, qid * size, qid * size, 0, size);
      }
    }

    /** The transmit loop, over S2M rings. */
    method InitTx() returns (ok: bool)
      requires packetBufferOffset == run.PacketBufferOffset() && txQueues == []
      modifies data, this`txQueues
      ensures ok <==> Rings(run, Image(old(data[..])), run.numQueuePairs).Image?
      ensures ok ==> Image(data[..]) == Rings(run, Image(old(data[..])), run.numQueuePairs)
      ensures ok ==> |txQueues| == run.numQueuePairs && QueuesAt(run, txQueues, 0)
    {
      ghost var m0 := data[..];
      var qid := 0;
      ok := true;
      while qid < run.numQueuePairs && ok
        invariant 0 <= qid <= run.numQueuePairs
        invariant ok ==> |txQueues| == qid && QueuesAt(run, txQueues, 0) && Image(data[..]) == Rings(run, Image(m0), qid)
        invariant !ok ==> Rings(run, Image(m0), qid).Crash?
      {
        var ring;
        RingsNext(run, Image(m0), qid);
        ok, ring := InitQueue(true, qid);
        QueuesAppend(run, txQueues, 0, ring, qid);
        txQueues := txQueues + [ring];
        qid := qid + 1;
      }
      if !ok { RingsCrash(run, Image(m0), qid, run.numQueuePairs); }
    }

    /** The receive loop, over M2S rings. */
    method InitRx(ghost i0: Image) returns (ok: bool)
      requires packetBufferOffset == run.PacketBufferOffset() && rxQueues == []
      requires Image(data[..]) == Rings(run, i0, run.numQueuePairs)
      modifies data, this`rxQueues
      ensures ok <==> Rings(run, i0, run.RingCount()).Image?
      ensures ok ==> Image(data[..]) == Rings(run, i0, run.RingCount())
      ensures ok ==> |rxQueues| == run.numQueuePairs && QueuesAt(run, rxQueues, run.numQueuePairs)
    {
      var n, qid := run.numQueuePairs, 0;
      ghost var g := n;
      ok := true;
      while qid < n && ok
        invariant 0 <= qid <= n && g == n + qid
        invariant ok ==> |rxQueues| == qid && QueuesAt(run, rxQueues, n) && Image(data[..]) == Rings(run, i0, g)
        invariant !ok ==> Rings(run, i0, g).Crash?
      {
        var ring;
        RingsNext(run, i0, g);
        ok, ring := InitQueue(false, qid);
        QueuesAppend(run, rxQueues, n, ring, g);
        rxQueues := rxQueues + [ring];
        qid, g := qid + 1, g + 1;
      }
      if !ok { RingsCrash(run, i0, g, run.RingCount()); }
    }

    /**
     initializeQueues, for any number of queue pairs and any region: it panics exactly if a store starts
     beyond the region, and otherwise leaves what the stores leave.
     */
    method InitializeQueues() returns (ok: bool)
      requires packetBufferOffset == run.PacketBufferOffset() && txQueues == [] && rxQueues == []
      modifies data, this`txQueues, this`rxQueues
      ensures ok <==> run.FitsIn(data.Length)
      ensures ok ==> Image(data[..]) == Rings(run, Image(old(data[..])), run.RingCount())
      ensures ok ==> |txQueues| == |rxQueues| == run.numQueuePairs
      ensures ok ==> QueuesAt(run, txQueues, 0) && QueuesAt(run, rxQueues, run.numQueuePairs)
    {
      ghost var m0 := data[..];
      CrashesIff(run, m0);
      ok := InitTx();
      if ok { ok := InitRx(Image(m0)); } else { RingsCrash(run, Image(m0), run.numQueuePairs, run.RingCount()); }
    }

    /** The loops with slots counted within each ring, and with the buffers counted through all rings. */
    method InitializeApart()
      requires run.Typed() && packetBufferOffset == run.PacketBufferOffset() && run.RingsEnd() <= data.Length
      modifies data
      ensures SetApart(run, data[..], run.RingCount())
    {
      for g := 0 to run.RingCount()
        invariant SetApart(run, data[..], g)
      {
        ghost var m := data[..];
        RingBounds(run, g);
        InitApart(g);
        ApartNext(run, m, data[..], g);
      }
    }

    method InitApart(g: nat)
      requires run.Typed() && packetBufferOffset == run.PacketBufferOffset()
      requires run.RingStart(g) + run.RingBytes() <= data.Length
      modifies data
      ensures HeaderOk(data[..], run.RingStart(g)) && AsIntended(data[..], run, g)
      ensures SameRange(old(data[..]), data[..], 0, run.RingStart(g))
    {
      var off, size := run.RingStart(g), Pow2(run.log2RingSize);
      ghost var m0 := data[..];
      var ok := PutRing(off);
      ghost var m := data[..];
      HeaderPut(m0, off, m);
      ok := PutTable(off, 0, g * size, size);
      TablePut(run, m, off, 0, g * size, size);
      HeaderRange(m, data[..], 0, off + RING_SIZE, off);
    }
  }

  lemma RingsNext(c: MemoryConfig, i: Image, n: nat)
    ensures Rings(c, i, n + 1) == OneRing(c, Rings(c, i, n), n)
  {
  }

  lemma TableIs(c: MemoryConfig, i: Image, off: nat, at: nat, first: nat, n: nat, buf: nat)
    requires buf == BufferOffset(c, first + n)
    ensures Table(c, i, off, at, first, n + 1) == Put(Table(c, i, off, at, first, n), SlotStart(off, at + n), Entry(c, buf))
  {
  }

  // ---- when a store panics

  lemma {:induction false} TableCrashes(c: MemoryConfig, i: Image, off: nat, at: nat, first: nat, j: nat, n: nat)
    requires Table(c, i, off, at, first, j).Crash? && j <= n
    ensures Table(c, i, off, at, first, n).Crash?
    decreases n
  {
    if j < n { TableCrashes(c, i, off, at, first, j, n - 1); }
  }

  lemma {:induction false} RingsCrash(c: MemoryConfig, i: Image, j: nat, n: nat)
    requires Rings(c, i, j).Crash? && j <= n
    ensures Rings(c, i, n).Crash?
    decreases n
  {
    if j < n {
      RingsCrash(c, i, j, n - 1);
      var k := QueueOf(c, n - 1) * Pow2(c.log2RingSize);
      TableCrashes(c, Crash, c.RingStart(n - 1), k, k, 0, Pow2(c.log2RingSize));
    }
  }

  lemma {:induction false} TableFits(c: MemoryConfig, i: Image, off: nat, at: nat, first: nat, n: nat)
    requires i.Image? && n > 0
    ensures var t := Table(c, i, off, at, first, n);
            (t.Image? <==> SlotStart(off, at + n - 1) <= |i.bytes|) && (t.Image? ==> |t.bytes| == |i.bytes|)
    decreases n
  {
    if n > 1 { TableFits(c, i, off, at, first, n - 1); }
    else { assert Table(c, i, off, at, first, 0) == i; }
  }

  /** Where the last store for ring g starts. */
  function LastStore(c: MemoryConfig, g: nat): nat {
    var size := Pow2(c.log2RingSize);
    SlotStart(c.RingStart(g), QueueOf(c, g) * size + size - 1)
  }

  lemma RingFits(c: MemoryConfig, i: Image, g: nat)
    requires i.Image?
    ensures var t := OneRing(c, i, g); (t.Image? <==> LastStore(c, g) <= |i.bytes|) && (t.Image? ==> |t.bytes| == |i.bytes|)
  {
    var size, off := Pow2(c.log2RingSize), c.RingStart(g);
    var k := QueueOf(c, g) * size;
    if off <= |i.bytes| {
      TableFits(c, Put(i, off, Header()), off, k, k, size);
    } else {
      TableCrashes(c, Crash, off, k, k, 0, size);
    }
  }

  /** Every store for the first n rings starts within len bytes. */
  ghost predicate AllStart(c: MemoryConfig, n: nat, len: nat) {
    forall g: nat :: g < n ==> LastStore(c, g) <= len
  }

  lemma AllStartNext(c: MemoryConfig, n: nat, len: nat)
    ensures AllStart(c, n + 1, len) <==> AllStart(c, n, len) && LastStore(c, n) <= len
  {
  }

  lemma RingsFitNext(c: MemoryConfig, i: Image, n: nat, len: nat)
    requires var r := Rings(c, i, n); if r.Image? then AllStart(c, n, len) && |r.bytes| == len else !AllStart(c, n, len)
    ensures var t := Rings(c, i, n + 1); if t.Image? then AllStart(c, n + 1, len) && |t.bytes| == len else !AllStart(c, n + 1, len)
  {
    var r := Rings(c, i, n);
    AllStartNext(c, n, len);
    RingsNext(c, i, n);
    if r.Image? { RingFits(c, r, n); } else { RingsCrash(c, i, n, n + 1); }
  }

  lemma {:induction false} RingsFit(c: MemoryConfig, i: Image, n: nat)
    requires i.Image?
    ensures var t := Rings(c, i, n);
            if t.Image? then AllStart(c, n, |i.bytes|) && |t.bytes| == |i.bytes| else !AllStart(c, n, |i.bytes|)
    decreases n
  {
    if n > 0 {
      RingsFit(c, i, n - 1);
      RingsFitNext(c, i, n - 1, |i.bytes|);
    }
  }

  /** The last store for the last M2S ring starts farthest on. */
  lemma LastIsFarthest(c: MemoryConfig, g: nat)
    requires g < c.RingCount()
    ensures LastStore(c, g) <= LastStore(c, c.RingCount() - 1)
  {
    var n, size := c.numQueuePairs, Pow2(c.log2RingSize);
    MulApart(g, 2 * n - 1, c.RingBytes());
    MulApart(QueueOf(c, g), n - 1, size);
  }

  /** initializeQueues panics exactly if the region does not hold the start of every store. */
  lemma CrashesIff(c: MemoryConfig, m: seq<byte>)
    ensures Rings(c, Image(m), c.RingCount()).Image? <==> c.FitsIn(|m|)
  {
    RingsFit(c, Image(m), c.RingCount());
    if c.numQueuePairs > 0 {
      Distribute(c.numQueuePairs - 1, 1, Pow2(c.log2RingSize));
      assert c.FitsIn(|m|) <==> LastStore(c, c.RingCount() - 1) <= |m|;
      forall g: nat | g < c.RingCount() ensures LastStore(c, g) <= LastStore(c, c.RingCount() - 1) { LastIsFarthest(c, g); }
    }
  }

  // ---- what the stores leave in a region with room for every descriptor

  lemma HeaderPut(m: seq<byte>, off: nat, m': seq<byte>)
    requires off + RING_SIZE <= |m| && Image(m') == Put(Image(m), off, Header())
    ensures HeaderOk(m', off) && Outside(m, m', off, off + RING_SIZE)
  {
    FreshHeader(Zeros(RING_SIZE));
    assert Header()[..RING_SIZE] == Header();
    SpliceSpec(m, off, Header());
    HeaderInPlace(m', off, Header());
  }

  lemma EntryPut(c: MemoryConfig, m: seq<byte>, o: nat, buf: nat, m': seq<byte>)
    requires c.Typed() && o + DESC_SIZE <= |m| && buf < TWO32 && Image(m') == Put(Image(m), o, Entry(c, buf))
    ensures DescOk(m', o, c.packetBufferSize, buf) && Outside(m, m', o, o + DESC_SIZE)
  {
    var d := Entry(c, buf);
    FreshDesc(Zeros(DESC_SIZE), c.packetBufferSize);
    SetOffset(Put32(Zeros(DESC_SIZE), DESC_LENGTH, c.packetBufferSize), c.packetBufferSize, buf);
    assert d[..DESC_SIZE] == d;
    SpliceSpec(m, o, d);
    DescInPlace(m', o, d);
  }

  /** The first n entries of the table at t are in place, and nothing else of m has changed. */
  ghost predicate TableDone(c: MemoryConfig, m: seq<byte>, t: nat, first: nat, n: nat, i: Image) {
    i.Image? && EntriesOk(i.bytes, c, t, first, n) && Outside(m, i.bytes, t, t + DESC_SIZE * n)
  }

  lemma TableStart(c: MemoryConfig, m: seq<byte>, t: nat, first: nat)
    ensures TableDone(c, m, t, first, 0, Image(m))
  {
  }

  lemma TableStep(c: MemoryConfig, m: seq<byte>, t: nat, first: nat, n: nat, i: Image, o: nat, r: Image)
    requires c.Typed() && TableDone(c, m, t, first, n, i) && o == t + DESC_SIZE * n && o + DESC_SIZE <= |m|
    requires r == Put(i, o, Entry(c, BufferOffset(c, first + n)))
    ensures TableDone(c, m, t, first, n + 1, r)
  {
    EntryPut(c, i.bytes, o, BufferOffset(c, first + n), r.bytes);
    NextEntry(c, i.bytes, r.bytes, t, first, n);
  }

  lemma {:induction false} TableFrom(c: MemoryConfig, m: seq<byte>, off: nat, at: nat, first: nat, n: nat, t: nat)
    requires c.Typed() && t == SlotStart(off, at) && t + DESC_SIZE * n <= |m|
    ensures TableDone(c, m, t, first, n, Table(c, Image(m), off, at, first, n))
    decreases n
  {
    if n == 0 {
      TableStart(c, m, t, first);
    } else {
      var h := n - 1;
      TableFrom(c, m, off, at, first, h, t);
      TableIs(c, Image(m), off, at, first, h, BufferOffset(c, first + h));
      TableStep(c, m, t, first, h, Table(c, Image(m), off, at, first, h), SlotStart(off, at + h),
                Table(c, Image(m), off, at, first, n));
    }
  }

  lemma TablePut(c: MemoryConfig, m: seq<byte>, off: nat, at: nat, first: nat, n: nat)
    requires c.Typed() && SlotStart(off, at + n) <= |m|
    ensures TableDone(c, m, SlotStart(off, at), first, n, Table(c, Image(m), off, at, first, n))
  {
    TableFrom(c, m, off, at, first, n, SlotStart(off, at));
  }

  /** The slot that the descriptors for ring g are counted from, which is also their first buffer. */
  function FirstSlot(c: MemoryConfig, g: nat): nat { QueueOf(c, g) * Pow2(c.log2RingSize) }

  /** Where the descriptors for ring g begin. */
  function FirstEntry(c: MemoryConfig, g: nat): nat { SlotStart(c.RingStart(g), FirstSlot(c, g)) }

  /** The turn of ring g stores nothing in [lo, hi). */
  ghost predicate Spares(c: MemoryConfig, g: nat, lo: nat, hi: nat) {
    var off, t := c.RingStart(g), FirstEntry(c, g);
    (hi <= off || off + RING_SIZE <= lo) && (hi <= t || t + DESC_SIZE * Pow2(c.log2RingSize) <= lo)
  }

  /** What the turn of ring g leaves: its header, and the buffers qid * size on, from slot qid * size on. */
  ghost predicate Turned(c: MemoryConfig, m: seq<byte>, i: Image, g: nat) {
    && i.Image? && |i.bytes| == |m| && HeaderOk(i.bytes, c.RingStart(g))
    && EntriesOk(i.bytes, c, FirstEntry(c, g), FirstSlot(c, g), Pow2(c.log2RingSize))
    && forall lo, hi :: Spares(c, g, lo, hi) ==> SameRange(m, i.bytes, lo, hi)
  }

  lemma TwoStores(c: MemoryConfig, g: nat, m: seq<byte>, h: seq<byte>, r: seq<byte>, lo: nat, hi: nat)
    requires var off, t := c.RingStart(g), FirstEntry(c, g);
             Outside(m, h, off, off + RING_SIZE) && Outside(h, r, t, t + DESC_SIZE * Pow2(c.log2RingSize))
    requires Spares(c, g, lo, hi)
    ensures SameRange(m, r, lo, hi)
  {
  }

  lemma RingTurn(c: MemoryConfig, m: seq<byte>, g: nat)
    requires c.Typed() && g < c.RingCount() && RoomNeeded(c) <= |m|
    ensures Turned(c, m, OneRing(c, Image(m), g), g)
  {
    var qid, off, size := QueueOf(c, g), c.RingStart(g), Pow2(c.log2RingSize);
    Bounds(c, g, qid);
    var h := Put(Image(m), off, Header()).bytes;
    HeaderPut(m, off, h);
    TablePut(c, h, off, qid * size, qid * size, size);
    var r := OneRing(c, Image(m), g).bytes;
    HeaderRange(h, r, 0, off + RING_SIZE, off);
    forall lo, hi | Spares(c, g, lo, hi) ensures SameRange(m, r, lo, hi) { TwoStores(c, g, m, h, r, lo, hi); }
  }

  lemma RingPut(c: MemoryConfig, m: seq<byte>, g: nat)
    requires c.Typed() && g < c.RingCount() && RoomNeeded(c) <= |m|
    ensures var r := OneRing(c, Image(m), g); r.Image? && RingDone(c, m, r.bytes, g, QueueOf(c, g))
  {
    var off, end := c.RingStart(g), c.RingStart(g) + c.RingBytes();
    Bounds(c, g, QueueOf(c, g));
    RingTurn(c, m, g);
    assert Spares(c, g, 0, off);
    if QueueOf(c, g) == 0 { assert Spares(c, g, end, |m|); } else { assert Spares(c, g, off + RING_SIZE, end); }
  }

  ghost predicate ProgressAt(c: MemoryConfig, m0: seq<byte>, i: Image, g: nat) {
    i.Image? && Progress(c, m0, i.bytes, g)
  }

  /** The turn of ring g adds it to the rings that are done. */
  lemma ProgressRing(c: MemoryConfig, m0: seq<byte>, i: Image, g: nat)
    requires c.Typed() && g < c.RingCount() && RoomNeeded(c) <= |m0| && ProgressAt(c, m0, i, g)
    ensures ProgressAt(c, m0, OneRing(c, i, g), g + 1)
  {
    RingPut(c, i.bytes, g);
    ProgressNext(c, m0, i.bytes, OneRing(c, i, g).bytes, g < c.numQueuePairs, QueueOf(c, g), g);
  }

  lemma {:induction false} RingsProgress(c: MemoryConfig, m: seq<byte>, n: nat)
    requires c.Typed() && n <= c.RingCount() && RoomNeeded(c) <= |m|
    ensures ProgressAt(c, m, Rings(c, Image(m), n), n)
    decreases n
  {
    if n == 0 {
      NoRings(c, m);
    } else {
      RingsProgress(c, m, n - 1);
      NextRing(c, m, n - 1);
    }
  }

  lemma NextRing(c: MemoryConfig, m: seq<byte>, g: nat)
    requires c.Typed() && g < c.RingCount() && RoomNeeded(c) <= |m| && ProgressAt(c, m, Rings(c, Image(m), g), g)
    ensures ProgressAt(c, m, Rings(c, Image(m), g + 1), g + 1)
  {
    RingsNext(c, Image(m), g);
    ProgressRing(c, m, Rings(c, Image(m), g), g);
  }

  lemma NoRings(c: MemoryConfig, m: seq<byte>)
    ensures ProgressAt(c, m, Rings(c, Image(m), 0), 0)
  {
  }

  // ---- which buffers the later queues get

  function EntryStart(c: MemoryConfig, g: nat, j: nat): nat { FirstEntry(c, g) + DESC_SIZE * j }

  ghost predicate SparesEntry(c: MemoryConfig, h: nat, o: nat) { Spares(c, h, o, o + DESC_SIZE) }

  /** The bytes once the first n rings have had their turns. */
  function After(c: MemoryConfig, m: seq<byte>, n: nat): seq<byte>
    requires Rings(c, Image(m), n).Image?
  {
    Rings(c, Image(m), n).bytes
  }

  lemma OneTurn(c: MemoryConfig, m: seq<byte>, n: nat)
    requires c.Typed() && n < c.RingCount() && RoomNeeded(c) <= |m|
    ensures Rings(c, Image(m), n).Image? && Rings(c, Image(m), n + 1).Image?
    ensures |After(c, m, n)| == |m| && Turned(c, After(c, m, n), Image(After(c, m, n + 1)), n)
  {
    RingsProgress(c, m, n);
    RingsNext(c, Image(m), n);
    RingTurn(c, After(c, m, n), n);
  }

  lemma TurnSpares(c: MemoryConfig, m: seq<byte>, n: nat, o: nat)
    requires c.Typed() && n < c.RingCount() && RoomNeeded(c) <= |m| && SparesEntry(c, n, o)
    ensures Rings(c, Image(m), n).Image? && Rings(c, Image(m), n + 1).Image?
    ensures SameRange(After(c, m, n), After(c, m, n + 1), o, o + DESC_SIZE)
  {
    OneTurn(c, m, n);
    assert Spares(c, n, o, o + DESC_SIZE);
  }

  lemma MoreSpared(c: MemoryConfig, m: seq<byte>, k: nat, n: nat, o: nat)
    requires c.Typed() && k <= n < c.RingCount() && RoomNeeded(c) <= |m| && SparesEntry(c, n, o)
    requires Rings(c, Image(m), k).Image? && Rings(c, Image(m), n).Image?
    requires SameRange(After(c, m, k), After(c, m, n), o, o + DESC_SIZE)
    ensures Rings(c, Image(m), n + 1).Image? && SameRange(After(c, m, k), After(c, m, n + 1), o, o + DESC_SIZE)
  {
    TurnSpares(c, m, n, o);
    SameBoth(After(c, m, k), After(c, m, n), After(c, m, n + 1), o, o + DESC_SIZE);
  }

  lemma {:induction false} TurnsSpare(c: MemoryConfig, m: seq<byte>, k: nat, n: nat, o: nat)
    requires c.Typed() && k <= n <= c.RingCount() && RoomNeeded(c) <= |m|
    requires forall g: nat :: k <= g < n ==> SparesEntry(c, g, o)
    requires Rings(c, Image(m), k).Image? && Rings(c, Image(m), n).Image?
    ensures SameRange(After(c, m, k), After(c, m, n), o, o + DESC_SIZE)
    decreases n
  {
    if k < n {
      OneTurn(c, m, n - 1);
      TurnsSpare(c, m, k, n - 1, o);
      MoreSpared(c, m, k, n - 1, o);
    }
  }

  lemma SameBoth(m: seq<byte>, m': seq<byte>, m'': seq<byte>, lo: nat, hi: nat)
    requires SameRange(m, m', lo, hi) && SameRange(m', m'', lo, hi)
    ensures SameRange(m, m'', lo, hi)
  {
  }

  lemma SameDesc(m: seq<byte>, m': seq<byte>, o: nat, len: nat, buf: nat)
    requires DescOk(m, o, len, buf) && SameRange(m, m', o, o + DESC_SIZE)
    ensures DescOk(m', o, len, buf)
  {
    FieldRange(m, m', o, o + DESC_SIZE, o + DESC_FLAGS);
    FieldRange(m, m', o, o + DESC_SIZE, o + DESC_REGION);
    FieldRange(m, m', o, o + DESC_SIZE, o + DESC_LENGTH);
    FieldRange(m, m', o, o + DESC_SIZE, o + DESC_OFFSET);
  }

  lemma EntryPlaced(c: MemoryConfig, m0: seq<byte>, g: nat, j: nat)
    requires c.Typed() && RoomNeeded(c) <= |m0| && g < c.RingCount() && j < Pow2(c.log2RingSize)
    ensures Rings(c, Image(m0), g + 1).Image?
    ensures EntryOk(After(c, m0, g + 1), c, FirstEntry(c, g), FirstSlot(c, g), j)
  {
    OneTurn(c, m0, g);
  }

  lemma EntryStays(c: MemoryConfig, m: seq<byte>, m': seq<byte>, t: nat, first: nat, j: nat)
    requires EntryOk(m, c, t, first, j) && SameRange(m, m', t + DESC_SIZE * j, t + DESC_SIZE * j + DESC_SIZE)
    ensures EntryOk(m', c, t, first, j)
  {
    SameDesc(m, m', t + DESC_SIZE * j, c.packetBufferSize, BufferOffset(c, first + j));
  }

  lemma EntryKept(c: MemoryConfig, m0: seq<byte>, m: seq<byte>, g: nat, o: nat, t: nat, first: nat, j: nat)
    requires c.Typed() && RoomNeeded(c) <= |m0| && Image(m) == Rings(c, Image(m0), c.RingCount()) && g < c.RingCount()
    requires o == t + DESC_SIZE * j && forall h: nat :: g < h < c.RingCount() ==> SparesEntry(c, h, o)
    requires Rings(c, Image(m0), g + 1).Image? && EntryOk(After(c, m0, g + 1), c, t, first, j)
    ensures EntryOk(m, c, t, first, j)
  {
    TurnsSpare(c, m0, g + 1, c.RingCount(), o);
    EntryStays(c, After(c, m0, g + 1), m, t, first, j);
  }

  /**
   The j-th descriptor for ring g goes to slot qid * size + j counted from the ring's own table and offers
   packet buffer qid * size + j, and is in the finished region unless a later ring's turn stores there.
   */
  lemma EntrySurvives(c: MemoryConfig, m0: seq<byte>, m: seq<byte>, g: nat, j: nat)
    requires c.Typed() && RoomNeeded(c) <= |m0| && Image(m) == Rings(c, Image(m0), c.RingCount())
    requires g < c.RingCount() && j < Pow2(c.log2RingSize)
    requires forall h: nat :: g < h < c.RingCount() ==> SparesEntry(c, h, EntryStart(c, g, j))
    ensures EntryOk(m, c, FirstEntry(c, g), FirstSlot(c, g), j)
  {
    EntryPlaced(c, m0, g, j);
    EntryKept(c, m0, m, g, EntryStart(c, g, j), FirstEntry(c, g), FirstSlot(c, g), j);
  }

  lemma SecondRing(c: MemoryConfig)
    requires c.numQueuePairs >= 2
    ensures FirstSlot(c, 1) == Pow2(c.log2RingSize) && c.RingStart(2) == c.RingStart(1) + c.RingBytes()
  {
    Distribute(1, 1, c.RingBytes());
  }

  /** With three or more pairs, slot k of the third S2M ring gets a buffer of the second, eight on from slot k's. */
  lemma ThirdTable(c: MemoryConfig, m0: seq<byte>, m: seq<byte>, k: nat)
    requires c.Typed() && RoomNeeded(c) <= |m0| && Image(m) == Rings(c, Image(m0), c.RingCount())
    requires c.numQueuePairs >= 3 && k + 8 < Pow2(c.log2RingSize)
    ensures DescOk(m, SlotStart(c.RingStart(2), k), c.packetBufferSize, BufferOffset(c, Pow2(c.log2RingSize) + 8 + k))
  {
    var size, o := Pow2(c.log2RingSize), SlotStart(c.RingStart(2), k);
    SecondRing(c);
    assert EntryStart(c, 1, 8 + k) == o;
    forall h: nat | 1 < h < c.RingCount() ensures SparesEntry(c, h, o) { LaterSpares(c, h, k); }
    EntrySurvives(c, m0, m, 1, 8 + k);
    assert EntryOk(m, c, FirstEntry(c, 1), size, 8 + k);
  }

  lemma LaterSpares(c: MemoryConfig, h: nat, k: nat)
    requires c.numQueuePairs >= 3 && 2 <= h < c.RingCount() && k + 8 < Pow2(c.log2RingSize)
    ensures SparesEntry(c, h, SlotStart(c.RingStart(2), k))
  {
    if h == 2 {
      Distribute(1, 1, Pow2(c.log2RingSize));
    } else {
      MulApart(2, h, c.RingBytes());
    }
  }

  // ---- a region that ends within the last descriptor

  lemma PutAt(m: seq<byte>, at: nat, t: seq<byte>, r: seq<byte>, k: nat)
    requires Image(r) == Put(Image(m), at, t) && k < |m|
    ensures |r| == |m| && r[k] == if at <= k < at + |t| then t[k - at] else m[k]
  {
  }

  lemma OneRingIs(c: MemoryConfig, i: Image, g: nat, first: nat)
    requires first == QueueOf(c, g) * Pow2(c.log2RingSize)
    ensures OneRing(c, i, g) == Table(c, Put(i, c.RingStart(g), Header()), c.RingStart(g), first, first, Pow2(c.log2RingSize))
  {
  }

  lemma TableLast(c: MemoryConfig, i: Image, off: nat, first: nat, n: nat) returns (j: Image)
    ensures Table(c, i, off, first, first, n + 1) == Put(j, SlotStart(off, first + n), Entry(c, BufferOffset(c, first + n)))
  {
    TableIs(c, i, off, first, first, n, BufferOffset(c, first + n));
    j := Table(c, i, off, first, first, n);
  }

  lemma OneRingLast(c: MemoryConfig, i: Image, g: nat, first: nat, last: nat) returns (j: Image)
    requires first == QueueOf(c, g) * Pow2(c.log2RingSize) && last + 1 == first + Pow2(c.log2RingSize)
    ensures OneRing(c, i, g) == Put(j, SlotStart(c.RingStart(g), last), Entry(c, BufferOffset(c, last)))
  {
    OneRingIs(c, i, g, first);
    j := TableLast(c, Put(i, c.RingStart(g), Header()), c.RingStart(g), first, Pow2(c.log2RingSize) - 1);
    assert first + (Pow2(c.log2RingSize) - 1) == last;
  }

  lemma LastFirst(c: MemoryConfig, g: nat, first: nat)
    requires c.numQueuePairs > 0 && g + 1 == c.RingCount() && first == (c.numQueuePairs - 1) * Pow2(c.log2RingSize)
    ensures first == QueueOf(c, g) * Pow2(c.log2RingSize) && first + Pow2(c.log2RingSize) == c.numQueuePairs * Pow2(c.log2RingSize)
  {
    Distribute(c.numQueuePairs - 1, 1, Pow2(c.log2RingSize));
  }

  lemma LastPut(c: MemoryConfig, i: Image, g: nat, last: nat) returns (j: Image)
    requires g + 1 == c.RingCount() && last + 1 == c.numQueuePairs * Pow2(c.log2RingSize)
    ensures Rings(c, i, c.RingCount()) == Put(j, SlotStart(c.RingStart(g), last), Entry(c, BufferOffset(c, last)))
  {
    var first := (c.numQueuePairs - 1) * Pow2(c.log2RingSize);
    LastFirst(c, g, first);
    RingsNext(c, i, g);
    j := OneRingLast(c, Rings(c, i, g), g, first, last);
  }

  /** Of the last descriptor of the last M2S ring the region holds as much as it has room for. */
  lemma LastEntryFront(c: MemoryConfig, m0: seq<byte>, m: seq<byte>, last: nat, k: nat)
    requires c.numQueuePairs > 0 && Image(m) == Rings(c, Image(m0), c.RingCount())
    requires last + 1 == c.numQueuePairs * Pow2(c.log2RingSize)
    requires k < DESC_SIZE && SlotStart(c.RingStart(c.RingCount() - 1), last) + k < |m|
    ensures m[SlotStart(c.RingStart(c.RingCount() - 1), last) + k] == Entry(c, BufferOffset(c, last))[k]
  {
    var o, e := SlotStart(c.RingStart(c.RingCount() - 1), last), Entry(c, BufferOffset(c, last));
    var j := LastPut(c, Image(m0), c.RingCount() - 1, last);
    PutAt(j.bytes, o, e, m, o + k);
  }

  /** The bytes of a fresh header, and of a descriptor for a buffer of 2048 bytes at 0x8100. */
  lemma FreshBytes()
    ensures Header()[..10] == [0x20, 0x1F, 0xE3, 0x03, 1, 0, 0, 0, 0, 0]
    ensures Entry(MemoryConfig(1, 10, 2048), 0x8100) == [0, 0, 0, 0, 0, 8, 0, 0, 0, 0x81, 0, 0, 0, 0, 0, 0]
  {
  }

  /** In a region with room for every descriptor. */
  lemma LeavesInitialized(c: MemoryConfig, m0: seq<byte>, m: seq<byte>)
    requires c.Typed() && RoomNeeded(c) <= |m0| && Image(m) == Rings(c, Image(m0), c.RingCount())
    ensures Initialized(c, m0, m)
  {
    RingsProgress(c, m0, c.RingCount());
  }

  /** Entry j of ring g should offer buffer g * size + j: one buffer a slot, as addRegion makes room for. */
  ghost predicate AsIntended(m: seq<byte>, c: MemoryConfig, g: nat) {
    TableOk(m, c, g, g * Pow2(c.log2RingSize))
  }

  /** The first n rings are set up in that way. */
  ghost predicate SetApart(c: MemoryConfig, m: seq<byte>, n: nat) {
    forall g :: 0 <= g < n ==> HeaderOk(m, c.RingStart(g)) && AsIntended(m, c, g)
  }

  lemma RingBounds(c: MemoryConfig, g: nat)
    requires g < c.RingCount()
    ensures c.RingStart(g) + c.RingBytes() <= c.RingsEnd()
  {
    MulApart(g, c.RingCount(), c.RingBytes());
  }

  lemma ApartNext(c: MemoryConfig, m: seq<byte>, m': seq<byte>, g: nat)
    requires SetApart(c, m, g) && SameRange(m, m', 0, c.RingStart(g)) && c.RingStart(g) <= |m|
    requires HeaderOk(m', c.RingStart(g)) && AsIntended(m', c, g)
    ensures SetApart(c, m', g + 1)
  {
    forall h | 0 <= h < g ensures HeaderOk(m', c.RingStart(h)) && AsIntended(m', c, h) {
      MulApart(h, g, c.RingBytes());
      HeaderRange(m, m', 0, c.RingStart(g), c.RingStart(h));
      EntriesRange(m, m', c, 0, c.RingStart(g), c.RingStart(h) + RING_SIZE, h * Pow2(c.log2RingSize), Pow2(c.log2RingSize));
    }
  }

  ghost predicate QueueAt(c: MemoryConfig, r: Ring, g: nat) {
    r.offset == c.RingStart(g) && r.log2 == c.log2RingSize
  }

  /** qs are the rings from g on. */
  ghost predicate QueuesAt(c: MemoryConfig, qs: seq<Ring>, g: nat) {
    forall i :: 0 <= i < |qs| ==> QueueAt(c, qs[i], g + i)
  }

  lemma QueuesAppend(c: MemoryConfig, qs: seq<Ring>, g: nat, r: Ring, h: nat)
    requires QueuesAt(c, qs, g) && QueueAt(c, r, h) && h == g + |qs|
    ensures QueuesAt(c, qs + [r], g)
  {
  }

  /** The rings before g are done, and nobody has written the table of the second ring. */
  ghost predicate Progress(c: MemoryConfig, m0: seq<byte>, m: seq<byte>, g: nat) {
    && |m| == |m0|
    && (forall h :: 0 <= h < g ==> HeaderOk(m, c.RingStart(h)))
    && (g > 0 ==> TableOk(m, c, 0, 0))
    && (g > c.numQueuePairs ==> TableOk(m, c, c.numQueuePairs, 0))
    && (c.numQueuePairs > 1 ==> SameRange(m0, m, c.RingStart(1) + RING_SIZE, c.RingStart(2)))
  }

  /** Queue qid's descriptors are put qid tables too far, the last queue's beyond the rings. */
  function RoomNeeded(c: MemoryConfig): nat {
    if c.numQueuePairs == 0 then 0
    else c.RingsEnd() + DESC_SIZE * ((c.numQueuePairs - 1) * Pow2(c.log2RingSize))
  }

  lemma Bounds(c: MemoryConfig, g: nat, qid: nat)
    requires qid < c.numQueuePairs && g <= c.numQueuePairs + qid
    ensures var size := Pow2(c.log2RingSize);
            && c.RingStart(g) + RING_SIZE + DESC_SIZE * (qid * size + size) <= RoomNeeded(c)
            && (qid * size == 0 <==> qid == 0) && (qid > 0 ==> qid * size >= size)
  {
    var size := Pow2(c.log2RingSize);
    MulApart(g, c.RingCount(), c.RingBytes());
    MulApart(qid, c.numQueuePairs - 1, size);
    MulApart(0, qid, size);
  }

  /** Everything below the ring just written is as it was. */
  lemma ProgressBelow(c: MemoryConfig, m0: seq<byte>, m: seq<byte>, m': seq<byte>, g: nat)
    requires Progress(c, m0, m, g) && g > 0 && SameRange(m, m', 0, c.RingStart(g)) && c.RingStart(g) <= |m|
    requires HeaderOk(m', c.RingStart(g))
    ensures forall h :: 0 <= h < g + 1 ==> HeaderOk(m', c.RingStart(h))
    ensures TableOk(m', c, 0, 0)
    ensures g > c.numQueuePairs ==> TableOk(m', c, c.numQueuePairs, 0)
  {
    forall h | 0 <= h < g ensures HeaderOk(m', c.RingStart(h)) {
      MulApart(h, g, c.RingBytes());
      HeaderRange(m, m', 0, c.RingStart(g), c.RingStart(h));
    }
    MulApart(0, g, c.RingBytes());
    EntriesRange(m, m', c, 0, c.RingStart(g), c.RingStart(0) + RING_SIZE, 0, Pow2(c.log2RingSize));
    if g > c.numQueuePairs {
      MulApart(c.numQueuePairs, g, c.RingBytes());
      EntriesRange(m, m', c, 0, c.RingStart(g), c.RingStart(c.numQueuePairs) + RING_SIZE, 0, Pow2(c.log2RingSize));
    }
  }

  /** What is known after one InitRing. */
  ghost predicate RingDone(c: MemoryConfig, m: seq<byte>, m': seq<byte>, g: nat, qid: nat) {
    && HeaderOk(m', c.RingStart(g)) && SameRange(m, m', 0, c.RingStart(g))
    && (qid == 0 ==> TableOk(m', c, g, 0) && SameRange(m, m', c.RingStart(g) + c.RingBytes(), |m|))
    && (qid > 0 ==> SameRange(m, m', c.RingStart(g) + RING_SIZE, c.RingStart(g) + c.RingBytes()))
  }

  lemma ProgressTx(c: MemoryConfig, m0: seq<byte>, m: seq<byte>, m': seq<byte>, qid: nat)
    requires Progress(c, m0, m, qid) && qid < c.numQueuePairs && RingDone(c, m, m', qid, qid)
    ensures Progress(c, m0, m', qid + 1)
  {
    Distribute(1, 1, c.RingBytes());
    if qid > 0 {
      ProgressBelow(c, m0, m, m', qid);
      MulApart(1, qid, c.RingBytes());
      MulApart(2, qid, c.RingBytes());
    } else {
      assert c.RingStart(0) == 0;
    }
  }

  lemma ProgressRx(c: MemoryConfig, m0: seq<byte>, m: seq<byte>, m': seq<byte>, qid: nat)
    requires var g := c.numQueuePairs + qid;
             Progress(c, m0, m, g) && qid < c.numQueuePairs && RingDone(c, m, m', g, qid)
    ensures Progress(c, m0, m', c.numQueuePairs + qid + 1)
  {
    var g := c.numQueuePairs + qid;
    ProgressBelow(c, m0, m, m', g);
    MulApart(2, g, c.RingBytes());
  }

  lemma ProgressNext(c: MemoryConfig, m0: seq<byte>, m: seq<byte>, m': seq<byte>, s2m: bool, qid: nat, g: nat)
    requires Progress(c, m0, m, g) && qid < c.numQueuePairs && g == if s2m then qid else c.numQueuePairs + qid
    requires RingDone(c, m, m', g, qid)
    ensures Progress(c, m0, m', g + 1)
  {
    if s2m { ProgressTx(c, m0, m, m', qid); } else { ProgressRx(c, m0, m, m', qid); }
  }

  // ---- bytes of fresh headers and descriptors

  lemma FreshHeader(z: seq<byte>)
    requires |z| == RING_SIZE && forall k :: 0 <= k < |z| ==> z[k] == 0
    ensures HeaderOk(Put16(Put32(z, COOKIE_OFFSET, COOKIE), FLAGS_OFFSET, 1), 0)
  {
    Put32Spec(z, COOKIE_OFFSET, COOKIE);
    var h := Put32(z, COOKIE_OFFSET, COOKIE);
    Put16Spec(h, FLAGS_OFFSET, 1);
    SameFields(h, Put16(h, FLAGS_OFFSET, 1), FLAGS_OFFSET, FLAGS_OFFSET + 2, COOKIE_OFFSET);
  }

  lemma HeaderInPlace(m: seq<byte>, off: nat, h: seq<byte>)
    requires off + RING_SIZE <= |m| && m[off..off + RING_SIZE] == h && HeaderOk(h, 0)
    ensures HeaderOk(m, off)
  {
    SliceAny(m, off, RING_SIZE, COOKIE_OFFSET);
    SliceAny(m, off, RING_SIZE, FLAGS_OFFSET);
    SliceAny(m, off, RING_SIZE, HEAD_OFFSET);
    SliceAny(m, off, RING_SIZE, TAIL_OFFSET);
  }

  lemma SliceAny(m: seq<byte>, o: nat, n: nat, f: nat)
    requires o + n <= |m| && f + 4 <= n
    ensures Get16(m[o..o + n], f) == Get16(m, o + f) && Get32(m[o..o + n], f) == Get32(m, o + f)
  {
  }

  ghost predicate Blank(d: seq<byte>, len: nat) {
    && |d| == DESC_SIZE && Get16(d, DESC_FLAGS) == 0 && Get16(d, DESC_REGION) == 0 && Get32(d, DESC_LENGTH) == len
  }

  lemma FreshDesc(z: seq<byte>, len: nat)
    requires |z| == DESC_SIZE && (forall k :: 0 <= k < |z| ==> z[k] == 0) && len < TWO32
    ensures Blank(Put32(Put16(Put16(z, DESC_FLAGS, 0), DESC_REGION, 0), DESC_LENGTH, len), len)
  {
    var d := Put16(Put16(z, DESC_FLAGS, 0), DESC_REGION, 0);
    assert d == z;
    Put32Spec(z, DESC_LENGTH, len);
  }

  lemma NoOffsetYet(d: seq<byte>)
    requires |d| == DESC_SIZE && forall k :: DESC_OFFSET <= k < DESC_OFFSET + 4 ==> d[k] == 0
    ensures Put32(d, DESC_OFFSET, 0) == d
  {
  }

  lemma EntryAgain(c: MemoryConfig, a: nat, b: nat)
    ensures Put32(Entry(c, a), DESC_OFFSET, b) == Entry(c, b)
  {
    OffsetAgain(Put32(Zeros(DESC_SIZE), DESC_LENGTH, c.packetBufferSize), a, b);
  }

  lemma OffsetAgain(d: seq<byte>, a: nat, b: nat)
    requires |d| == DESC_SIZE
    ensures Put32(Put32(d, DESC_OFFSET, a), DESC_OFFSET, b) == Put32(d, DESC_OFFSET, b)
  {
  }

  lemma SetOffset(d: seq<byte>, len: nat, buf: nat)
    requires Blank(d, len) && buf < TWO32
    ensures var e := Put32(d, DESC_OFFSET, buf); Blank(e, len) && Get32(e, DESC_OFFSET) == buf
  {
    var e := Put32(d, DESC_OFFSET, buf);
    Put32Spec(d, DESC_OFFSET, buf);
    SameFields(d, e, DESC_OFFSET, DESC_OFFSET + 4, DESC_FLAGS);
    SameFields(d, e, DESC_OFFSET, DESC_OFFSET + 4, DESC_REGION);
    SameFields(d, e, DESC_OFFSET, DESC_OFFSET + 4, DESC_LENGTH);
  }

  lemma DescInPlace(m: seq<byte>, o: nat, d: seq<byte>)
    requires o + DESC_SIZE <= |m| && m[o..o + DESC_SIZE] == d
    ensures DescOk(d, 0, Get32(d, DESC_LENGTH), Get32(d, DESC_OFFSET)) ==>
            DescOk(m, o, Get32(d, DESC_LENGTH), Get32(d, DESC_OFFSET))
  {
    SliceAny(m, o, DESC_SIZE, DESC_FLAGS);
    SliceAny(m, o, DESC_SIZE, DESC_REGION);
    SliceAny(m, o, DESC_SIZE, DESC_LENGTH);
    SliceAny(m, o, DESC_SIZE, DESC_OFFSET);
  }

  lemma NextEntry(c: MemoryConfig, m: seq<byte>, m': seq<byte>, t: nat, first: nat, j: nat)
    requires EntriesOk(m, c, t, first, j) && Outside(m, m', t + DESC_SIZE * j, t + DESC_SIZE * (j + 1))
    requires t + DESC_SIZE * j <= |m| && EntryOk(m', c, t, first, j)
    ensures EntriesOk(m', c, t, first, j + 1)
  {
    EntriesRange(m, m', c, t, t + DESC_SIZE * j, t, first, j);
  }
}
