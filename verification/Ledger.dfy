/**
 One ring seen from outside, call by call: a bounded queue of packets and what its free slots offer.  What
 every call returns is a function of the calls before it.
 */
module Ledger {
  import opened Arith
  import opened Bytes
  import opened Capacity
  import opened DataPath
  import A = RingProtocol

  /** A call of WritePacket with a packet, or of ReadPacket with a buffer of that length. */
  datatype Call = Put(pkt: A.Packet) | Take(len: nat)

  /**
   open: slots are on offer, which on an M2S ring they are from the first read on; free: what the free slots
   offer, in turn; queue: the packets sent and not read, as they were cut up.
   */
  datatype Book = Book(open: bool, free: seq<nat>, queue: seq<A.Sent>)

  function Blank(P: A.Params): Book {
    Book(P.dir.S2M?, if P.dir.S2M? then A.Times(P.cap, P.size) else [], [])
  }

  function Entry(P: A.Params, b: Book, pkt: A.Packet): A.Sent {
    A.Sent(pkt, Cut(P.rest, pkt, b.free), b.free)
  }

  /** What a slot that held n bytes offers once it has been read. */
  function Again(P: A.Params, n: nat): nat { if P.dir.S2M? then P.cap else A.Low16(n, P.cap) }

  function Returned(P: A.Params, chunks: seq<seq<byte>>): (rooms: seq<nat>)
    ensures |rooms| == |chunks| && forall i :: 0 <= i < |chunks| ==> rooms[i] == Again(P, |chunks[i]|)
  {
    seq(|chunks|, i requires 0 <= i < |chunks| => Again(P, |chunks[i]|))
  }

  function Enter(P: A.Params, b: Book, call: Call): Book {
    match call
    case Put(pkt) =>
      if !Suffices(b.free, |pkt|) then b
      else var x := Entry(P, b, pkt); b.(free := b.free[|x.chunks|..], queue := b.queue + [x])
    case Take(_) =>
      if !b.open then Book(true, A.Times(P.cap, P.size), [])
      else if b.queue == [] then b
      else b.(free := b.free + Returned(P, b.queue[0].chunks), queue := b.queue[1..])
  }

  /** What the call returns: the bytes sent, or read. */
  function Count(P: A.Params, b: Book, call: Call): nat {
    match call
    case Put(pkt) => if Suffices(b.free, |pkt|) then A.Total(Entry(P, b, pkt).chunks) else 0
    case Take(_) => if b.queue == [] then 0 else A.Total(b.queue[0].chunks)
  }

  /** A read of a packet whose last piece begins beyond the buffer is a slice panic. */
  predicate Panics(b: Book, call: Call) {
    call.Take? && b.queue != [] && Overruns(b.queue[0].chunks, call.len)
  }

  predicate Overruns(chunks: seq<seq<byte>>, len: nat) {
    chunks != [] && len < A.Total(chunks[..|chunks| - 1])
  }

  /** The book after the calls. */
  function After(P: A.Params, calls: seq<Call>): Book {
    if calls == [] then Blank(P) else Enter(P, After(P, calls[..|calls| - 1]), calls[|calls| - 1])
  }

  function Counts(P: A.Params, calls: seq<Call>): seq<nat> {
    if calls == [] then []
    else
      var n := |calls| - 1;
      Counts(P, calls[..n]) + [Count(P, After(P, calls[..n]), calls[n])]
  }

  /** The packets sent. */
  function AllSent(P: A.Params, calls: seq<Call>): seq<A.Sent> {
    if calls == [] then []
    else
      var n := |calls| - 1;
      AllSent(P, calls[..n]) + Added(P, After(P, calls[..n]), calls[n])
  }

  function Added(P: A.Params, b: Book, call: Call): seq<A.Sent> {
    if call.Put? && Suffices(b.free, |call.pkt|) then [Entry(P, b, call.pkt)] else []
  }

  lemma Next(P: A.Params, calls: seq<Call>, call: Call)
    ensures After(P, calls + [call]) == Enter(P, After(P, calls), call)
    ensures Counts(P, calls + [call]) == Counts(P, calls) + [Count(P, After(P, calls), call)]
    ensures AllSent(P, calls + [call]) == AllSent(P, calls) + Added(P, After(P, calls), call)
  {
    assert (calls + [call])[..|calls|] == calls;
  }

  // ---- what always holds of the book

  ghost predicate Fine(P: A.Params, xs: seq<A.Sent>) {
    forall i :: 0 <= i < |xs| ==> A.SentOk(P, xs[i]) && Even(P, xs[i])
  }

  /** The queue is the end of what was sent, no slot is lost, and each slot offers what its last use has left. */
  ghost predicate BookOk(P: A.Params, b: Book, sent: seq<A.Sent>) {
    && P.Valid() && |b.queue| <= |sent| && b.queue == sent[|sent| - |b.queue|..] && Fine(P, sent)
    && (if b.open then |b.free| + |LensOf(b.queue)| == P.size else P.dir.M2S? && b.free == [] && sent == [])
    && RoomsAfter(P, LensOf(sent), b.free) && (forall k :: 0 <= k < |b.free| ==> Sized(P, b.free[k]))
  }

  lemma BlankOk(P: A.Params)
    requires P.Valid()
    ensures BookOk(P, Blank(P), [])
  {
  }

  /** A packet that goes in is cut up as an accepted packet is. */
  lemma EntryOk(P: A.Params, b: Book, sent: seq<A.Sent>, pkt: A.Packet)
    requires BookOk(P, b, sent)
    ensures var x := Entry(P, b, pkt); Even(P, x) && if Suffices(b.free, |pkt|) then A.SentOk(P, x) else A.RejectOk(P, x)
  {
    CutOk(P, Entry(P, b, pkt));
  }

  lemma RoomsMove(P: A.Params, h: seq<nat>, rooms: seq<nat>, ls: seq<nat>)
    requires RoomsAfter(P, h, rooms) && |ls| <= |rooms| <= P.size
    ensures RoomsAfter(P, h + ls, rooms[|ls|..])
  {
    var rest := rooms[|ls|..];
    forall k | 0 <= k < |rest| ensures rest[k] == RoomAt(P, h + ls, |h + ls| + k) { }
  }

  lemma FineMore(P: A.Params, xs: seq<A.Sent>, x: A.Sent)
    requires Fine(P, xs) && A.SentOk(P, x) && Even(P, x)
    ensures Fine(P, xs + [x])
  {
  }

  /** Sending moves slots from the free ones to the queue. */
  lemma PutSlots(P: A.Params, b: Book, x: A.Sent)
    requires |x.chunks| <= |b.free| && |b.free| + |LensOf(b.queue)| == P.size
    ensures |b.free[|x.chunks|..]| + |LensOf(b.queue + [x])| == P.size
  {
    LensAppend(b.queue, x);
  }

  lemma PutRooms(P: A.Params, b: Book, sent: seq<A.Sent>, x: A.Sent)
    requires BookOk(P, b, sent) && |x.chunks| <= |b.free| <= P.size
    ensures RoomsAfter(P, LensOf(sent + [x]), b.free[|x.chunks|..])
    ensures forall k :: 0 <= k < |b.free| - |x.chunks| ==> Sized(P, b.free[|x.chunks|..][k])
  {
    LensAppend(sent, x);
    RoomsMove(P, LensOf(sent), b.free, Lens(x.chunks));
  }

  lemma PutQueue(queue: seq<A.Sent>, sent: seq<A.Sent>, x: A.Sent)
    requires |queue| <= |sent| && queue == sent[|sent| - |queue|..]
    ensures queue + [x] == (sent + [x])[|sent| - |queue|..]
  {
  }

  lemma EnterPut(P: A.Params, b: Book, pkt: A.Packet, x: A.Sent)
    requires Suffices(b.free, |pkt|) && x == Entry(P, b, pkt)
    ensures Enter(P, b, Put(pkt)) == Book(b.open, b.free[|x.chunks|..], b.queue + [x])
  {
  }

  lemma PutBook(P: A.Params, b: Book, sent: seq<A.Sent>, x: A.Sent)
    requires BookOk(P, b, sent) && b.open && A.SentOk(P, x) && Even(P, x) && |x.chunks| <= |b.free|
    ensures BookOk(P, Book(b.open, b.free[|x.chunks|..], b.queue + [x]), sent + [x])
  {
    FineMore(P, sent, x);
    PutSlots(P, b, x);
    PutRooms(P, b, sent, x);
    PutQueue(b.queue, sent, x);
  }

  lemma PutOk(P: A.Params, b: Book, sent: seq<A.Sent>, pkt: A.Packet)
    requires BookOk(P, b, sent) && Suffices(b.free, |pkt|)
    ensures BookOk(P, Enter(P, b, Put(pkt)), sent + [Entry(P, b, pkt)])
  {
    var x := Entry(P, b, pkt);
    EntryOk(P, b, sent, pkt);
    EnterPut(P, b, pkt, x);
    PutBook(P, b, sent, x);
  }

  lemma ThreeParts(a: seq<nat>, b: seq<nat>, c: seq<nat>)
    ensures (a + b) + c == a + (b + c)
  {
  }

  lemma LensConcatOne(xs: seq<A.Sent>, ys: seq<A.Sent>, y: A.Sent)
    requires LensOf(xs + ys) == LensOf(xs) + LensOf(ys)
    ensures LensOf(xs + (ys + [y])) == LensOf(xs) + LensOf(ys + [y])
  {
    LensAppend(xs + ys, y);
    LensAppend(ys, y);
    assert xs + (ys + [y]) == (xs + ys) + [y];
    ThreeParts(LensOf(xs), LensOf(ys), Lens(y.chunks));
  }

  lemma {:induction false} LensConcat(xs: seq<A.Sent>, ys: seq<A.Sent>)
    ensures LensOf(xs + ys) == LensOf(xs) + LensOf(ys)
    decreases |ys|
  {
    if ys == [] {
      assert xs + ys == xs;
    } else {
      var n := |ys| - 1;
      LensConcat(xs, ys[..n]);
      LensConcatOne(xs, ys[..n], ys[n]);
      assert ys == ys[..n] + [ys[n]];
    }
  }

  lemma FirstLens(ys: seq<A.Sent>)
    requires ys != []
    ensures LensOf(ys) == Lens(ys[0].chunks) + LensOf(ys[1..])
  {
    assert ys == [ys[0]] + ys[1..];
    LensAppend([], ys[0]);
    LensConcat([ys[0]], ys[1..]);
  }

  lemma LengthOk(P: A.Params, x: A.Sent, i: nat)
    requires P.Valid() && Even(P, x) && i < |x.chunks|
    ensures |x.chunks[i]| <= P.cap && Sized(P, Again(P, |x.chunks[i]|))
  {
    assert EvenAt(P, x, i);
    if P.dir.M2S? {
      A.RefillBelow(|x.chunks[i]|, P.cap);
      RefilledLen(P, |x.chunks[i]|);
    }
  }

  /** The slots of the packet read come after the free ones, one round on. */
  lemma RoomsReturn(P: A.Params, h: seq<nat>, rooms: seq<nat>, chunks: seq<seq<byte>>, rest: seq<nat>)
    requires RoomsAfter(P, h, rooms) && |rooms| + |chunks| + |rest| == P.size
    requires |chunks| + |rest| <= |h| && h == h[..|h| - |chunks| - |rest|] + (Lens(chunks) + rest)
    ensures RoomsAfter(P, h, rooms + Returned(P, chunks))
  {
    var all, lo := rooms + Returned(P, chunks), |h| - |chunks| - |rest|;
    forall k | 0 <= k < |all| ensures all[k] == RoomAt(P, h, |h| + k) {
      if k >= |rooms| {
        var i := k - |rooms|;
        assert h[lo + i] == (Lens(chunks) + rest)[i] == |chunks[i]|;
      }
    }
  }

  lemma TakeRooms(P: A.Params, b: Book, sent: seq<A.Sent>)
    requires BookOk(P, b, sent) && b.queue != []
    ensures RoomsAfter(P, LensOf(sent), b.free + Returned(P, b.queue[0].chunks))
    ensures |LensOf(b.queue)| == |b.queue[0].chunks| + |LensOf(b.queue[1..])|
  {
    var d := |sent| - |b.queue|;
    assert sent == sent[..d] + b.queue;
    LensConcat(sent[..d], b.queue);
    FirstLens(b.queue);
    RoomsReturn(P, LensOf(sent), b.free, b.queue[0].chunks, LensOf(b.queue[1..]));
  }

  lemma ReturnedSized(P: A.Params, x: A.Sent)
    requires P.Valid() && Even(P, x)
    ensures forall i :: 0 <= i < |x.chunks| ==> Sized(P, Returned(P, x.chunks)[i])
  {
    forall i | 0 <= i < |x.chunks| ensures Sized(P, Returned(P, x.chunks)[i]) { LengthOk(P, x, i); }
  }

  lemma TakeOk(P: A.Params, b: Book, sent: seq<A.Sent>, len: nat)
    requires BookOk(P, b, sent) && b.queue != []
    ensures BookOk(P, Enter(P, b, Take(len)), sent)
  {
    var d := |sent| - |b.queue|;
    assert b.queue[0] == sent[d] && b.queue[1..] == sent[d + 1..];
    ReturnedSized(P, b.queue[0]);
    TakeRooms(P, b, sent);
  }

  /** Before anything was sent every slot offers the whole buffer. */
  lemma OpenOk(P: A.Params, b: Book, len: nat)
    requires BookOk(P, b, []) && !b.open
    ensures BookOk(P, Enter(P, b, Take(len)), [])
  {
  }

  lemma EnterOk(P: A.Params, b: Book, sent: seq<A.Sent>, call: Call)
    requires BookOk(P, b, sent)
    ensures BookOk(P, Enter(P, b, call), sent + Added(P, b, call))
  {
    match call
    case Put(pkt) => if Suffices(b.free, |pkt|) { PutOk(P, b, sent, pkt); } else { assert sent + [] == sent; }
    case Take(len) =>
      assert sent + [] == sent;
      if !b.open { OpenOk(P, b, len); } else if b.queue != [] { TakeOk(P, b, sent, len); }
  }

  lemma {:induction false} BookAlways(P: A.Params, calls: seq<Call>)
    requires P.Valid()
    ensures BookOk(P, After(P, calls), AllSent(P, calls))
    decreases |calls|
  {
    if calls == [] {
      BlankOk(P);
    } else {
      var n := |calls| - 1;
      BookAlways(P, calls[..n]);
      EnterOk(P, After(P, calls[..n]), AllSent(P, calls[..n]), calls[n]);
    }
  }

  // ---- the theorems

  /** No slot is ever lost: once slots are on offer, free ones and those of unread packets add up to the ring. */
  lemma SlotsConserved(P: A.Params, calls: seq<Call>)
    requires P.Valid()
    ensures var b := After(P, calls);
            if b.open then |b.free| + |LensOf(b.queue)| == P.size else P.dir.M2S? && b.free == [] && b.queue == []
  {
    BookAlways(P, calls);
  }

  function PktsOf(xs: seq<A.Sent>): (pkts: seq<A.Packet>)
    ensures |pkts| == |xs| && forall i :: 0 <= i < |xs| ==> pkts[i] == xs[i].pkt
  {
    seq(|xs|, i requires 0 <= i < |xs| => xs[i].pkt)
  }

  lemma {:induction false} SlotsAre(P: A.Params, xs: seq<A.Sent>)
    requires P.Regular() && Fine(P, xs)
    ensures |LensOf(xs)| == SlotsOf(PktsOf(xs), P.cap)
    decreases |xs|
  {
    if xs != [] {
      var n := |xs| - 1;
      AcceptedShape(P, xs[n]);
      SlotsAre(P, xs[..n]);
      assert PktsOf(xs)[..n] == PktsOf(xs[..n]);
    }
  }

  /** With whole slots a packet goes in exactly if slots are on offer and as many are left as it needs. */
  lemma SentIffSlotsLeft(P: A.Params, calls: seq<Call>, pkt: A.Packet)
    requires P.Regular()
    ensures var b := After(P, calls);
            Suffices(b.free, |pkt|) <==> b.open && SlotsOf(PktsOf(b.queue), P.cap) + NumSlots(|pkt|, P.cap) <= P.size
  {
    var b, sent := After(P, calls), AllSent(P, calls);
    BookAlways(P, calls);
    EntryOk(P, b, sent, pkt);
    SlotsAre(P, b.queue);
    if Suffices(b.free, |pkt|) { AcceptedShape(P, Entry(P, b, pkt)); } else { RejectedShape(P, Entry(P, b, pkt)); }
  }

  /** What is read for the i-th packet sent. */
  lemma SentIs(P: A.Params, calls: seq<Call>, i: nat)
    requires P.Valid() && i < |AllSent(P, calls)|
    ensures var x := AllSent(P, calls)[i];
            var out := A.Concat(x.chunks);
            && out == Joined(P.rest, x.pkt, x.rooms) && |x.pkt| <= |out| == A.Total(x.chunks)
            && (P.rest || P.Regular() ==> out == Wire(P, x.pkt)) && (|x.pkt| <= Least(P) ==> out == x.pkt)
  {
    BookAlways(P, calls);
    Carried(P, AllSent(P, calls)[i]);
  }

  /** A panic needs a read buffer with less than a ring's worth of space. */
  lemma PanicIsShort(P: A.Params, calls: seq<Call>, call: Call)
    requires P.Valid() && Panics(After(P, calls), call)
    ensures call.len < P.size * P.cap
  {
    BookAlways(P, calls);
    var b, sent := After(P, calls), AllSent(P, calls);
    var x := b.queue[0];
    assert x == sent[|sent| - |b.queue|];
    var n := |x.chunks| - 1;
    UsedRooms(P, x, n);
    SumAtMost(x.rooms, n, P.cap);
    MulApart(n, P.size, P.cap);
  }
}
