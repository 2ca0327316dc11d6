/**
 What the free slots of a ring offer, how many slots a packet takes, when it is accepted and what arrives.
 */
module Capacity {
  import opened Arith
  import opened Bytes
  import opened RingProtocol

  /**
   The lengths that a free slot can offer.  A client always fills its own buffer size; a server finds what
   16-bit refills have left of it, which agrees with it modulo 2^16.
   */
  ghost predicate Sized(P: Params, n: nat) {
    if P.dir.S2M? then n == P.cap else n <= P.cap && n % TWO16 == P.cap % TWO16
  }

  /** Below 2^16 that is the whole buffer size. */
  lemma SizedIsCap(P: Params, n: nat)
    requires P.Regular() && Sized(P, n)
    ensures n == P.cap
  {
  }

  /** Piece i is as long as what it is copied from, or the slot, allows. */
  ghost predicate EvenAt(P: Params, x: Sent, i: nat)
    requires i < |x.chunks| <= |x.rooms|
  {
    |x.chunks[i]| == Min(x.rooms[i], |Source(P.rest, x.pkt, Total(x.chunks[..i]))|)
  }

  ghost predicate Even(P: Params, x: Sent) {
    && |x.chunks| <= |x.rooms| <= P.size
    && (forall k :: 0 <= k < |x.rooms| ==> Sized(P, x.rooms[k]))
    && (forall i :: 0 <= i < |x.chunks| ==> EvenAt(P, x, i))
  }

  lemma EvenExtends(P: Params, x: Sent, y: Sent)
    requires Even(P, x) && |x.chunks| < |x.rooms| && y == x.(chunks := x.chunks + [Piece(P, x, x.rooms[|x.chunks|])])
    ensures Even(P, y)
  {
    forall i | 0 <= i < |y.chunks| ensures EvenAt(P, y, i) {
      assert y.chunks[..i] == x.chunks[..i];
      if i < |x.chunks| { assert EvenAt(P, x, i); } else { assert x.chunks[..i] == x.chunks; }
    }
  }

  // ---- where the length of a slot comes from

  function Lens(chunks: seq<seq<byte>>): (ls: seq<nat>)
    ensures |ls| == |chunks| && forall i :: 0 <= i < |chunks| ==> ls[i] == |chunks[i]|
  {
    seq(|chunks|, i requires 0 <= i < |chunks| => |chunks[i]|)
  }

  /** The lengths put in the slots of all packets, one after the other. */
  function LensOf(ps: seq<Sent>): seq<nat> {
    if ps == [] then [] else LensOf(ps[..|ps| - 1]) + Lens(ps[|ps| - 1].chunks)
  }

  lemma LensAppend(ps: seq<Sent>, p: Sent)
    ensures LensOf(ps + [p]) == LensOf(ps) + Lens(p.chunks)
  {
    assert (ps + [p])[..|ps|] == ps;
  }

  /** The length at a position when its slot is consumed: before the first packet, as initialised. */
  function LenAt(P: Params, h: seq<nat>, t: int): nat { if 0 <= t < |h| then h[t] else P.cap }

  /** What a free position offers: a server finds what the refill has left of the length one round before. */
  function RoomAt(P: Params, h: seq<nat>, t: int): nat {
    if P.dir.S2M? then P.cap else Low16(LenAt(P, h, t - P.size), P.cap)
  }

  /** rooms is what the positions from the end of h on offer when h are the lengths used so far. */
  ghost predicate RoomsAfter(P: Params, h: seq<nat>, rooms: seq<nat>) {
    forall k :: 0 <= k < |rooms| ==> rooms[k] == RoomAt(P, h, |h| + k)
  }

  /** The last slot of a finished, unpublished chain may already hold a shorter length. */
  ghost predicate Exempt(s: State, t: nat) { s.w.WPub? && t + 1 == s.w.job.slot }

  /** Where the refilled slots end. */
  function Top(s: State): nat { if s.r.RRefill? then s.r.head else s.lim }

  /** The lengths of an M2S ring are determined by the packets accepted. */
  ghost predicate Traced(P: Params, s: State)
    requires Shaped(P, s)
  {
    var h := LensOf(s.accepted);
    && |h| == s.pub
    && (P.dir.M2S? ==>
          && (forall u :: Top(s) <= u < s.pub + P.size ==> s.cells[At(P, u)].len == LenAt(P, h, u - P.size))
          && (forall t :: s.pub <= t < Top(s) && !Exempt(s, t) ==> s.cells[At(P, t)].len == RoomAt(P, h, t)))
  }

  /** So every free slot offers a length of the right kind. */
  lemma OfferIs(P: Params, s: State, t: nat)
    requires Placed(P, s) && Traced(P, s) && s.pub <= t < s.lim && !Exempt(s, t)
    ensures Offer(P, s.cells, t) == RoomAt(P, LensOf(s.accepted), t) && Sized(P, Offer(P, s.cells, t))
  {
    if P.dir.M2S? { RefilledLen(P, LenAt(P, LensOf(s.accepted), t - P.size)); }
  }

  /** The slots that a write has still ahead offer what they offered at its start. */
  ghost predicate Ahead(P: Params, s: State)
    requires Shaped(P, s)
  {
    s.w.WGet? || s.w.WCopy? || s.w.WPut? ==>
      var x := s.w.job.sent;
      forall k :: |x.chunks| <= k < |x.rooms| ==> x.rooms[k] == Offer(P, s.cells, s.pub + k)
  }

  ghost predicate JobEven(P: Params, s: State) {
    && (!s.w.WIdle? ==> Even(P, s.w.job.sent))
    && (s.w.WCopy? || s.w.WPut? ==>
          var x := s.w.job.sent; |x.chunks| < |x.rooms| && s.w.room == x.rooms[|x.chunks|])
  }

  ghost predicate AllEven(P: Params, s: State) {
    && (forall i :: 0 <= i < |s.accepted| ==> Even(P, s.accepted[i]))
    && (forall i :: 0 <= i < |s.rejected| ==> Even(P, s.rejected[i]))
  }

  ghost predicate Whole(P: Params, s: State)
    requires Shaped(P, s)
  {
    Traced(P, s) && Ahead(P, s) && JobEven(P, s) && AllEven(P, s)
  }

  /** Every slot the writer sees as free offers a length of that kind, and every write used what was offered. */
  ghost predicate Offered(P: Params, s: State) { Inv(P, s) && Whole(P, s) }

  /** A store at t keeps the lengths at all other positions of the window. */
  lemma TraceFrame(P: Params, s: State, s': State, t: nat)
    requires Placed(P, s) && Shaped(P, s') && Traced(P, s) && P.dir.M2S?
    requires s.pub <= t < Top(s') <= s.r.last + P.size && s'.cells == s.cells[At(P, t) := s'.cells[At(P, t)]]
    requires s'.pub == s.pub && s'.accepted == s.accepted
    requires Top(s') == Top(s) || (Top(s') == Top(s) + 1 && t == Top(s))
    requires forall u :: Exempt(s, u) ==> Exempt(s', u)
    requires Exempt(s', t) || s'.cells[At(P, t)].len == RoomAt(P, LensOf(s.accepted), t)
    ensures Traced(P, s')
  {
    var h := LensOf(s.accepted);
    forall u | Top(s') <= u < s.pub + P.size ensures s'.cells[At(P, u)].len == LenAt(P, h, u - P.size) {
      OtherCell(P, s.cells, s'.cells, t, u);
    }
    forall u | s.pub <= u < Top(s') && !Exempt(s', u) ensures s'.cells[At(P, u)].len == RoomAt(P, h, u) {
      OtherCell(P, s.cells, s'.cells, t, u);
    }
  }

  lemma OtherCell(P: Params, cells: seq<Cell>, cells': seq<Cell>, t: nat, u: nat)
    requires P.Valid() && |cells| == |cells'| == P.size && cells' == cells[At(P, t) := cells'[At(P, t)]]
    requires t < u + P.size && u < t + P.size
    ensures u != t ==> cells'[At(P, u)] == cells[At(P, u)]
  {
    if u < t { AtDistinct(P, u, t); } else if t < u { AtDistinct(P, t, u); }
  }

  /** A put that is not the last of its chain rewrites the length that was there. */
  lemma PutMoreTraced(P: Params, s: State, chunk: seq<byte>)
    requires Placed(P, s) && Traced(P, s) && P.dir.M2S? && s.w.WPut? && s.w.room == Offer(P, s.cells, s.w.job.slot)
    requires chunk == Piece(P, s.w.job.sent, s.w.room)
    requires Total(s.w.job.sent.chunks) + |chunk| < |s.w.job.sent.pkt| && 1 < s.w.job.left
    ensures Traced(P, WriteStep(P, s))
  {
    PieceFills(P, s.w.job.sent, s.w.room);
    PutMoreIs(P, s, chunk);
    TraceFrame(P, s, WriteStep(P, s), s.w.job.slot);
  }

  lemma PutLastTraced(P: Params, s: State, chunk: seq<byte>)
    requires Placed(P, s) && Traced(P, s) && P.dir.M2S? && s.w.WPut?
    requires chunk == Piece(P, s.w.job.sent, s.w.room)
    requires Total(s.w.job.sent.chunks) + |chunk| >= |s.w.job.sent.pkt|
    ensures Traced(P, WriteStep(P, s))
  {
    PutLastIs(P, s, chunk);
    TraceFrame(P, s, WriteStep(P, s), s.w.job.slot);
  }

  lemma PutKeepsTraced(P: Params, s: State)
    requires Placed(P, s) && Traced(P, s) && P.dir.M2S? && s.w.WPut? && s.w.room == Offer(P, s.cells, s.w.job.slot)
    ensures Traced(P, WriteStep(P, s))
  {
    var chunk := Piece(P, s.w.job.sent, s.w.room);
    TotalAppend(s.w.job.sent.chunks, chunk);
    if Total(s.w.job.sent.chunks) + |chunk| >= |s.w.job.sent.pkt| {
      PutLastTraced(P, s, chunk);
    } else if 1 < s.w.job.left {
      PutMoreTraced(P, s, chunk);
    }
  }

  lemma CopyKeepsTraced(P: Params, s: State)
    requires Placed(P, s) && Traced(P, s) && P.dir.M2S? && s.w.WCopy?
    ensures Traced(P, WriteStep(P, s))
  {
    TraceFrame(P, s, WriteStep(P, s), s.w.job.slot);
  }

  lemma SameCellAgain(P: Params, u: nat)
    requires P.Valid() && P.size <= u
    ensures At(P, u) == At(P, u - P.size)
  {
    WrapIsMod(u, P.size);
    WrapIsMod(u - P.size, P.size);
    DivModUnique(u, P.size, (u - P.size) / P.size + 1, (u - P.size) % P.size);
  }

  /** The slots of a chain that is published hold the lengths of its pieces. */
  lemma PublishedLens(P: Params, s: State, h: seq<nat>, h': seq<nat>, u: nat)
    requires Shaped(P, s) && s.w.WPub? && Match(P, s.cells, s.pub, Tagged(s.w.job.sent.chunks, false))
    requires |h| == s.pub && h' == h + Lens(s.w.job.sent.chunks) && s.pub + P.size <= u < |h'| + P.size
    ensures s.cells[At(P, u)].len == LenAt(P, h', u - P.size)
  {
    SameCellAgain(P, u);
    var i := u - P.size - s.pub;
    assert Holds(s.cells[At(P, s.pub + i)], Tagged(s.w.job.sent.chunks, false)[i]);
  }

  lemma PubKeepsTraced(P: Params, s: State)
    requires Inv(P, s) && Placed(P, s) && Traced(P, s) && s.w.WPub?
    ensures Traced(P, WriteStep(P, s))
  {
    var h, h', s' := LensOf(s.accepted), LensOf(s.accepted + [s.w.job.sent]), WriteStep(P, s);
    LensAppend(s.accepted, s.w.job.sent);
    if P.dir.M2S? {
      forall u | Top(s) <= u < s'.pub + P.size ensures s.cells[At(P, u)].len == LenAt(P, h', u - P.size) {
        if s.pub + P.size <= u { PublishedLens(P, s, h, h', u); }
      }
      forall t | s'.pub <= t < Top(s) ensures s.cells[At(P, t)].len == RoomAt(P, h', t) {
        assert RoomAt(P, h', t) == RoomAt(P, h, t);
      }
    }
  }

  lemma WriteKeepsTraced(P: Params, s: State)
    requires Inv(P, s) && Placed(P, s) && Traced(P, s) && Ahead(P, s) && JobEven(P, s)
    ensures Traced(P, WriteStep(P, s))
  {
    match s.w
    case WPut(_, _) => if P.dir.M2S? { PutKeepsTraced(P, s); }
    case WCopy(_, _) => if P.dir.M2S? { CopyKeepsTraced(P, s); }
    case WPub(_) => PubKeepsTraced(P, s);
    case _ =>
  }

  /** A store outside what a write has ahead. */
  lemma AheadFrame(P: Params, s: State, s': State, t: nat, n: nat)
    requires Placed(P, s) && Ahead(P, s) && (s.w.WGet? || s.w.WCopy? || s.w.WPut?)
    requires Shaped(P, s') && s'.pub == s.pub && s'.cells == s.cells[At(P, t) := s'.cells[At(P, t)]]
    requires s'.w.WGet? || s'.w.WCopy? || s'.w.WPut?
    requires s'.w.job.sent.rooms == s.w.job.sent.rooms && n == |s'.w.job.sent.chunks| >= |s.w.job.sent.chunks|
    requires s.pub <= t < s.r.last + P.size && !(s.pub + n <= t < s.pub + |s.w.job.sent.rooms|)
    ensures Ahead(P, s')
  {
    var x := s.w.job.sent;
    forall k | n <= k < |x.rooms| ensures x.rooms[k] == Offer(P, s'.cells, s.pub + k) {
      OtherCell(P, s.cells, s'.cells, t, s.pub + k);
    }
  }

  lemma CopyKeepsAhead(P: Params, s: State)
    requires Placed(P, s) && Ahead(P, s) && s.w.WCopy?
    ensures Ahead(P, WriteStep(P, s))
  {
    var s', x := WriteStep(P, s), s.w.job.sent;
    forall k | |x.chunks| <= k < |x.rooms| ensures x.rooms[k] == Offer(P, s'.cells, s.pub + k) {
      assert x.rooms[k] == Offer(P, s.cells, s.pub + k);
    }
  }

  lemma PutKeepsAhead(P: Params, s: State)
    requires Placed(P, s) && Ahead(P, s) && s.w.WPut?
    ensures Ahead(P, WriteStep(P, s))
  {
    var chunk := Piece(P, s.w.job.sent, s.w.room);
    TotalAppend(s.w.job.sent.chunks, chunk);
    if Total(s.w.job.sent.chunks) + |chunk| < |s.w.job.sent.pkt| && 1 < s.w.job.left {
      PutMoreIs(P, s, chunk);
      AheadFrame(P, s, WriteStep(P, s), s.w.job.slot, |s.w.job.sent.chunks| + 1);
    }
  }

  lemma WriteKeepsAhead(P: Params, s: State)
    requires Placed(P, s) && Ahead(P, s)
    ensures Ahead(P, WriteStep(P, s))
  {
    match s.w
    case WCopy(_, _) => CopyKeepsAhead(P, s);
    case WPut(_, _) => PutKeepsAhead(P, s);
    case _ =>
  }

  lemma WriteKeepsEven(P: Params, s: State)
    requires Placed(P, s) && Ahead(P, s) && JobEven(P, s) && AllEven(P, s)
    ensures JobEven(P, WriteStep(P, s)) && AllEven(P, WriteStep(P, s))
  {
    if s.w.WPut? {
      var x := s.w.job.sent;
      EvenExtends(P, x, x.(chunks := x.chunks + [Piece(P, x, s.w.room)]));
    }
  }

  /** A refill leaves a length of the right kind, whatever was there. */
  lemma RefilledLen(P: Params, len: nat)
    requires P.dir.M2S? && Low16(len, P.cap) <= P.cap
    ensures Sized(P, Low16(len, P.cap))
  {
  }

  /** Steps that store nothing in a slot. */
  lemma SameTrace(P: Params, s: State, s': State)
    requires Shaped(P, s) && Traced(P, s) && s'.cells == s.cells && s'.pub == s.pub && s'.accepted == s.accepted
    requires Top(s') == Top(s) && s'.w.WPub? == s.w.WPub? && (s.w.WPub? ==> s'.w == s.w)
    ensures Traced(P, s')
  {
  }

  lemma RefillKeepsTraced(P: Params, s: State)
    requires Placed(P, s) && Traced(P, s) && P.dir.M2S? && s.r.RRefill? && s.r.head < s.r.last + P.size
    ensures Traced(P, ReadStep(P, s))
  {
    TraceFrame(P, s, ReadStep(P, s), s.r.head);
  }

  lemma ReadKeepsTraced(P: Params, s: State)
    requires Placed(P, s) && Traced(P, s)
    ensures Traced(P, ReadStep(P, s))
  {
    if P.dir.M2S? {
      if s.r.RRefill? && s.r.head < s.r.last + P.size { RefillKeepsTraced(P, s); } else { SameTrace(P, s, ReadStep(P, s)); }
    }
  }

  lemma ReadKeepsAhead(P: Params, s: State)
    requires Placed(P, s) && Ahead(P, s)
    ensures Ahead(P, ReadStep(P, s))
  {
    if s.r.RRefill? && s.r.head < s.r.last + P.size && (s.w.WGet? || s.w.WCopy? || s.w.WPut?) {
      AheadFrame(P, s, ReadStep(P, s), s.r.head, |s.w.job.sent.chunks|);
    }
  }

  lemma OffersAreSized(P: Params, s: State, rooms: seq<nat>)
    requires Placed(P, s) && Traced(P, s) && s.w.WIdle? && s.pub + |rooms| <= s.lim && AreOffers(P, s.cells, s.pub, rooms)
    ensures forall k :: 0 <= k < |rooms| ==> Sized(P, rooms[k])
  {
    forall k | 0 <= k < |rooms| ensures Sized(P, rooms[k]) { OfferIs(P, s, s.pub + k); }
  }

  lemma StartKeepsWhole(P: Params, s: State, pkt: Packet)
    requires Placed(P, s) && Whole(P, s) && s.w.WIdle?
    ensures Whole(P, BeginWrite(P, s, pkt))
  {
    SameTrace(P, s, BeginWrite(P, s, pkt));
    if s.pub < s.lim { OffersAreSized(P, s, Offers(P, s.cells, s.pub, s.lim - s.pub)); }
  }

  lemma WriteKeepsWhole(P: Params, s: State)
    requires Inv(P, s) && Placed(P, s) && Whole(P, s)
    ensures Whole(P, WriteStep(P, s))
  {
    WriteKeepsTraced(P, s);
    WriteKeepsAhead(P, s);
    WriteKeepsEven(P, s);
  }

  lemma ReadKeepsEven(P: Params, s: State)
    requires Shaped(P, s) && JobEven(P, s) && AllEven(P, s)
    ensures JobEven(P, ReadStep(P, s)) && AllEven(P, ReadStep(P, s))
  {
  }

  lemma ReadKeepsWhole(P: Params, s: State)
    requires Placed(P, s) && Whole(P, s)
    ensures Whole(P, ReadStep(P, s))
  {
    ReadKeepsTraced(P, s);
    ReadKeepsAhead(P, s);
    ReadKeepsEven(P, s);
  }

  lemma StartReadKeepsWhole(P: Params, s: State, space: nat)
    requires Placed(P, s) && Whole(P, s) && s.r.RIdle?
    ensures Whole(P, BeginRead(P, s, space))
  {
    if P.dir.M2S? { SameTrace(P, s, BeginRead(P, s, space)); }
  }

  lemma StepKeepsWhole(P: Params, s: State, a: Action)
    requires Inv(P, s) && Placed(P, s) && Whole(P, s)
    ensures Whole(P, Step(P, s, a))
  {
    match a
    case StartWrite(pkt) => if s.w.WIdle? { StartKeepsWhole(P, s, pkt); }
    case StepWrite => WriteKeepsWhole(P, s);
    case StepRead => ReadKeepsWhole(P, s);
    case StartRead(space) => if s.r.RIdle? { StartReadKeepsWhole(P, s, space); }
  }

  lemma StepKeepsOffered(P: Params, s: State, a: Action)
    requires Offered(P, s)
    ensures Offered(P, Step(P, s, a))
  {
    InvPlaced(P, s);
    StepKeepsInv(P, s, a);
    StepKeepsWhole(P, s, a);
  }

  lemma {:induction false} RunKeepsOffered(P: Params, s: State, acts: seq<Action>)
    requires Offered(P, s)
    ensures Offered(P, Run(P, s, acts))
    decreases |acts|
  {
    if acts != [] {
      RunKeepsOffered(P, s, acts[..|acts| - 1]);
      StepKeepsOffered(P, Run(P, s, acts[..|acts| - 1]), acts[|acts| - 1]);
    }
  }

  // ---- which packets are accepted, for every buffer size

  function Sum(rooms: seq<nat>): nat {
    if rooms == [] then 0 else Sum(rooms[..|rooms| - 1]) + rooms[|rooms| - 1]
  }

  lemma SumNext(rooms: seq<nat>, n: nat)
    requires n < |rooms|
    ensures Sum(rooms[..n + 1]) == Sum(rooms[..n]) + rooms[n]
  {
    assert rooms[..n + 1][..n] == rooms[..n];
  }

  /** n more rooms offer no less. */
  lemma {:induction false} SumGrows(rooms: seq<nat>, n: nat)
    requires n <= |rooms|
    ensures Sum(rooms[..n]) <= Sum(rooms)
    decreases |rooms| - n
  {
    if n < |rooms| {
      SumNext(rooms, n);
      SumGrows(rooms, n + 1);
    } else {
      assert rooms[..n] == rooms;
    }
  }

  lemma TotalNext(chunks: seq<seq<byte>>, n: nat)
    requires n < |chunks|
    ensures Total(chunks[..n + 1]) == Total(chunks[..n]) + |chunks[n]|
  {
    assert chunks[..n + 1] == chunks[..n] + [chunks[n]];
    TotalAppend(chunks[..n], chunks[n]);
  }

  /** The pieces use at most what was offered, and all of it as long as the packet goes on. */
  lemma {:induction false} UsedRooms(P: Params, x: Sent, n: nat)
    requires Even(P, x) && n <= |x.chunks|
    ensures Total(x.chunks[..n]) <= Sum(x.rooms[..n])
    ensures Total(x.chunks[..n]) < |x.pkt| ==> Total(x.chunks[..n]) == Sum(x.rooms[..n])
    decreases n
  {
    if n > 0 {
      UsedRooms(P, x, n - 1);
      assert EvenAt(P, x, n - 1);
      TotalNext(x.chunks, n - 1);
      SumNext(x.rooms, n - 1);
    }
  }

  /** There is a free slot, and the free slots together offer the length of the packet. */
  predicate Suffices(rooms: seq<nat>, len: nat) { rooms != [] && len <= Sum(rooms) }

  lemma AcceptedSuffices(P: Params, x: Sent)
    requires SentOk(P, x) && Even(P, x)
    ensures Suffices(x.rooms, |x.pkt|)
  {
    var n := |x.chunks|;
    assert x.chunks[..n] == x.chunks;
    UsedRooms(P, x, n);
    SumGrows(x.rooms, n);
  }

  lemma RejectedFallsShort(P: Params, x: Sent)
    requires RejectOk(P, x) && Even(P, x)
    ensures !Suffices(x.rooms, |x.pkt|)
  {
    var n := |x.chunks|;
    assert x.chunks[..n] == x.chunks && x.rooms[..n] == x.rooms;
    UsedRooms(P, x, n);
  }

  lemma {:induction false} SumAtMost(rooms: seq<nat>, n: nat, cap: nat)
    requires n <= |rooms| && forall k :: 0 <= k < |rooms| ==> rooms[k] <= cap
    ensures Sum(rooms[..n]) <= n * cap
    decreases n
  {
    if n > 0 {
      SumAtMost(rooms, n - 1, cap);
      SumNext(rooms, n - 1);
      Distribute(n - 1, 1, cap);
    }
  }

  /** For every buffer size an accepted packet took at least NumSlots slots, and no more than the ring has. */
  lemma AcceptedSlots(P: Params, x: Sent)
    requires P.Valid() && SentOk(P, x) && Even(P, x)
    ensures NumSlots(|x.pkt|, P.cap) <= |x.chunks| <= |x.rooms| <= P.size
  {
    var n := |x.chunks|;
    assert x.chunks[..n] == x.chunks;
    UsedRooms(P, x, n);
    SumAtMost(x.rooms, n, P.cap);
    CeilAtMost(|x.pkt|, P.cap, n);
  }

  lemma CeilAtMost(len: nat, cap: nat, m: nat)
    requires cap > 0 && m > 0 && len <= m * cap
    ensures NumSlots(len, cap) <= m
  {
    var q := (len + cap - 1) / cap;
    assert q * cap <= len + cap - 1;
    MulApart(m, q, cap);
  }

  // ---- how a packet is cut up

  /** The pieces of a packet in slots that offer rooms: done, and as many more as it takes. */
  function CutOn(rest: bool, pkt: Packet, rooms: seq<nat>, done: seq<seq<byte>>): (chunks: seq<seq<byte>>)
    ensures |chunks| <= |done| + |rooms|
    decreases |rooms|
  {
    if rooms == [] then done
    else
      var more := done + [Prefix(Source(rest, pkt, Total(done)), rooms[0])];
      if Total(more) >= |pkt| then more else CutOn(rest, pkt, rooms[1..], more)
  }

  function Cut(rest: bool, pkt: Packet, rooms: seq<nat>): (chunks: seq<seq<byte>>)
    ensures |chunks| <= |rooms|
  {
    CutOn(rest, pkt, rooms, [])
  }

  /** The bytes that a packet becomes in such slots. */
  function Joined(rest: bool, pkt: Packet, rooms: seq<nat>): Packet { Concat(Cut(rest, pkt, rooms)) }

  lemma PieceAt(P: Params, x: Sent, i: nat)
    requires Pieces(P, x) && Even(P, x) && i < |x.chunks|
    ensures x.chunks[i] == Prefix(Source(P.rest, x.pkt, Total(x.chunks[..i])), x.rooms[i])
  {
    assert EvenAt(P, x, i);
    if P.rest {
      ConcatNext(x.chunks, i);
      ConcatPrefix(x.chunks, i + 1);
      ConcatLength(x.chunks[..i]);
      assert Concat(x.chunks[..i]) + x.chunks[i] <= x.pkt;
    }
  }

  lemma {:induction false} TotalGrows(chunks: seq<seq<byte>>, i: nat, j: nat)
    requires i <= j <= |chunks|
    ensures Total(chunks[..i]) <= Total(chunks[..j])
    decreases j
  {
    if i < j {
      TotalGrows(chunks, i, j - 1);
      TotalNext(chunks, j - 1);
    }
  }

  /** The pieces of a packet are those that the code cuts, from the i-th on. */
  lemma {:induction false} CutFrom(P: Params, x: Sent, i: nat)
    requires Pieces(P, x) && Even(P, x) && i < |x.chunks| && Total(x.chunks) >= |x.pkt|
    requires |x.chunks| > 1 ==> Total(x.chunks[..|x.chunks| - 1]) < |x.pkt|
    ensures CutOn(P.rest, x.pkt, x.rooms[i..], x.chunks[..i]) == x.chunks
    decreases |x.chunks| - i
  {
    var more := x.chunks[..i + 1];
    PieceAt(P, x, i);
    assert more == x.chunks[..i] + [x.chunks[i]];
    if i + 1 == |x.chunks| {
      assert more == x.chunks;
    } else {
      TotalGrows(x.chunks, i + 1, |x.chunks| - 1);
      CutFrom(P, x, i + 1);
      assert x.rooms[i..][1..] == x.rooms[i + 1..];
    }
  }

  /** An accepted packet was cut up as its length and what the free slots offered determine. */
  lemma CutIs(P: Params, x: Sent)
    requires SentOk(P, x) && Even(P, x)
    ensures x.chunks == Cut(P.rest, x.pkt, x.rooms)
  {
    assert x.chunks[..0] == [] && x.rooms[0..] == x.rooms;
    CutFrom(P, x, 0);
  }

  /** And cutting a packet up so gives one that is accepted or turned away, as the rooms suffice or not. */
  lemma {:induction false} CutOnOk(P: Params, x: Sent, chunks: seq<seq<byte>>)
    requires Pieces(P, x) && Even(P, x) && (x.chunks != [] ==> Total(x.chunks) < |x.pkt|)
    requires chunks == CutOn(P.rest, x.pkt, x.rooms[|x.chunks|..], x.chunks)
    ensures var y := x.(chunks := chunks); Even(P, y) && (SentOk(P, y) || RejectOk(P, y))
    decreases |x.rooms| - |x.chunks|
  {
    var n := |x.chunks|;
    if n < |x.rooms| {
      var y := x.(chunks := x.chunks + [Piece(P, x, x.rooms[n])]);
      EvenExtends(P, x, y);
      PieceExtends(P, x, x.rooms[n]);
      assert x.rooms[n..][1..] == x.rooms[n + 1..] && y.chunks[..n] == x.chunks;
      if Total(y.chunks) < |y.pkt| { CutOnOk(P, y, chunks); }
    }
  }

  lemma CutOk(P: Params, x: Sent)
    requires |x.rooms| <= P.size && (forall k :: 0 <= k < |x.rooms| ==> Sized(P, x.rooms[k]))
    requires x.chunks == Cut(P.rest, x.pkt, x.rooms)
    ensures Even(P, x) && if Suffices(x.rooms, |x.pkt|) then SentOk(P, x) else RejectOk(P, x)
  {
    assert x.rooms[0..] == x.rooms;
    CutOnOk(P, x.(chunks := []), x.chunks);
    if SentOk(P, x) { AcceptedSuffices(P, x); } else { RejectedFallsShort(P, x); }
  }

  // ---- which packets arrive byte for byte

  /**
   The least number of bytes that a slot can offer, other than none at all.  A ring of one slot takes only
   packets that its slot offers room for, so that there what it offers does not matter.
   */
  function Least(P: Params): nat {
    if P.dir.S2M? || P.cap <= TWO16 || P.size == 1 then P.cap
    else if P.cap % TWO16 > 0 then P.cap % TWO16 else TWO16
  }

  lemma LeastOffer(P: Params, n: nat)
    requires P.Valid() && Sized(P, n) && P.size > 1
    ensures n == 0 || Least(P) <= n
  {
  }

  /** Each piece is empty or the whole packet. */
  lemma WholePieces(P: Params, x: Sent, i: nat)
    requires P.Valid() && !P.rest && Even(P, x) && Pieces(P, x) && |x.pkt| <= Least(P) && P.size > 1 && i < |x.chunks|
    ensures x.chunks[i] == [] || x.chunks[i] == x.pkt
  {
    assert EvenAt(P, x, i);
    LeastOffer(P, x.rooms[i]);
  }

  lemma {:induction false} OnlyEmpty(P: Params, x: Sent, n: nat)
    requires P.Valid() && !P.rest && Even(P, x) && Pieces(P, x) && |x.pkt| <= Least(P) && P.size > 1
    requires n <= |x.chunks| && Total(x.chunks[..n]) < |x.pkt|
    ensures Concat(x.chunks[..n]) == []
    decreases n
  {
    if n > 0 {
      WholePieces(P, x, n - 1);
      TotalNext(x.chunks, n - 1);
      ConcatNext(x.chunks, n - 1);
      OnlyEmpty(P, x, n - 1);
    }
  }

  /** A packet of at most that length arrives byte for byte whenever it is accepted. */
  lemma LeastIsExact(P: Params, x: Sent)
    requires P.Valid() && !P.rest && SentOk(P, x) && Even(P, x) && |x.pkt| <= Least(P)
    ensures Concat(x.chunks) == x.pkt
  {
    var n := |x.chunks| - 1;
    assert x.chunks[..n + 1] == x.chunks;
    TotalNext(x.chunks, n);
    ConcatNext(x.chunks, n);
    if P.size == 1 || n == 0 {
      assert x.chunks[..0] == [];
    } else {
      OnlyEmpty(P, x, n);
      ConcatLength(x.chunks[..n]);
      WholePieces(P, x, n);
    }
  }

  /** But one whose first slot offers less, and something, has its first byte again where the second piece begins. */
  lemma FirstByteAgain(P: Params, x: Sent)
    requires !P.rest && SentOk(P, x) && Even(P, x) && |x.rooms| > 1 && 0 < x.rooms[0] < |x.pkt| && 0 < x.rooms[1]
    ensures |Concat(x.chunks)| > x.rooms[0] && Concat(x.chunks)[x.rooms[0]] == x.pkt[0]
  {
    assert EvenAt(P, x, 0);
    ConcatNext(x.chunks, 0);
    TotalNext(x.chunks, 0);
    assert x.chunks[..0] == [];
    assert EvenAt(P, x, 1);
    ConcatNext(x.chunks, 1);
    ConcatPrefix(x.chunks, 2);
  }

  lemma {:induction false} ConcatPrefix(chunks: seq<seq<byte>>, n: nat)
    requires n <= |chunks|
    ensures Concat(chunks[..n]) <= Concat(chunks)
    decreases |chunks| - n
  {
    if n < |chunks| {
      ConcatNext(chunks, n);
      ConcatPrefix(chunks, n + 1);
    } else {
      assert chunks[..n] == chunks;
    }
  }

  // ---- slots and bytes of one packet

  /** max(1, ceil(len / cap)) */
  function NumSlots(len: nat, cap: nat): nat
    requires cap > 0
  {
    if len == 0 then 1 else (len + cap - 1) / cap
  }

  function Repeat(s: seq<byte>, n: nat): seq<byte> {
    if n == 0 then [] else Repeat(s, n - 1) + s
  }

  /** What the peer receives for a packet: every slot of a chain gets the front of the packet again. */
  function OnWire(pkt: Packet, cap: nat): Packet
    requires cap > 0
  {
    Repeat(pkt[..Min(cap, |pkt|)], NumSlots(|pkt|, cap))
  }

  /** What the peer receives when each copy takes up where the last one ended: the packet. */
  function Wire(P: Params, pkt: Packet): Packet
    requires P.Valid()
  {
    if P.rest then pkt else OnWire(pkt, P.cap)
  }

  /** Copying the front again: n equal pieces. */
  lemma {:induction false} FrontTotal(P: Params, x: Sent, n: nat, m: nat)
    requires P.Regular() && !P.rest && Even(P, x) && Pieces(P, x) && n <= |x.chunks| && m == Min(P.cap, |x.pkt|)
    ensures Total(x.chunks[..n]) == n * m && Concat(x.chunks[..n]) == Repeat(x.pkt[..m], n)
    decreases n
  {
    if n > 0 {
      FrontTotal(P, x, n - 1, m);
      SizedIsCap(P, x.rooms[n - 1]);
      assert EvenAt(P, x, n - 1) && x.chunks[n - 1] == x.pkt[..m];
      ConcatNext(x.chunks, n - 1);
      TotalNext(x.chunks, n - 1);
      Distribute(n - 1, 1, m);
    }
  }

  /** Copying the rest: all pieces but the last fill their buffers, and none runs past the packet. */
  lemma {:induction false} RestTotal(P: Params, x: Sent, n: nat)
    requires P.Regular() && P.rest && Even(P, x) && n <= |x.chunks|
    ensures Total(x.chunks[..n]) == Min(n * P.cap, |x.pkt|)
    decreases n
  {
    if n > 0 {
      RestTotal(P, x, n - 1);
      SizedIsCap(P, x.rooms[n - 1]);
      assert EvenAt(P, x, n - 1);
      TotalNext(x.chunks, n - 1);
      assert n * P.cap == (n - 1) * P.cap + P.cap;
    }
  }

  /** (m - 1) * cap < len <= m * cap pins m down. */
  lemma CeilUnique(len: nat, cap: nat, m: nat)
    requires cap > 0 && 0 < len && m > 0 && (m - 1) * cap < len <= m * cap
    ensures NumSlots(len, cap) == m
  {
    var q := (len + cap - 1) / cap;
    assert q * cap <= len + cap - 1 < q * cap + cap;
    assert (m - 1) * cap == m * cap - cap;
    MulApart(q, m, cap);
  }

  lemma CeilBelow(len: nat, cap: nat, m: nat)
    requires cap > 0 && m * cap < len
    ensures NumSlots(len, cap) > m
  {
    var q := (len + cap - 1) / cap;
    assert len + cap - 1 < q * cap + cap;
    MulApart(q, m, cap);
  }

  lemma FrontShape(P: Params, x: Sent)
    requires P.Regular() && !P.rest && SentOk(P, x) && Even(P, x)
    ensures |x.chunks| == NumSlots(|x.pkt|, P.cap) && Concat(x.chunks) == OnWire(x.pkt, P.cap)
  {
    var n, m := |x.chunks|, Min(P.cap, |x.pkt|);
    assert x.chunks[..n] == x.chunks;
    FrontTotal(P, x, n, m);
    FrontTotal(P, x, n - 1, m);
    if |x.pkt| <= P.cap {
      MulApart(0, n - 1, m);
      assert n == 1;
      if |x.pkt| > 0 { CeilUnique(|x.pkt|, P.cap, 1); }
    } else {
      CeilUnique(|x.pkt|, P.cap, n);
    }
  }

  lemma RestShape(P: Params, x: Sent)
    requires P.Regular() && P.rest && SentOk(P, x) && Even(P, x)
    ensures |x.chunks| == NumSlots(|x.pkt|, P.cap) && Concat(x.chunks) == x.pkt
  {
    var n := |x.chunks|;
    assert x.chunks[..n] == x.chunks;
    ConcatLength(x.chunks);
    RestTotal(P, x, n);
    RestTotal(P, x, n - 1);
    if |x.pkt| > 0 {
      MulApart(0, n - 1, P.cap);
      CeilUnique(|x.pkt|, P.cap, n);
    }
  }

  /** An accepted packet took exactly NumSlots slots, had that many free, and is sent as Wire says. */
  lemma AcceptedShape(P: Params, x: Sent)
    requires P.Regular() && SentOk(P, x) && Even(P, x)
    ensures |x.chunks| == NumSlots(|x.pkt|, P.cap) <= |x.rooms|
    ensures Concat(x.chunks) == Wire(P, x.pkt)
  {
    if P.rest { RestShape(P, x); } else { FrontShape(P, x); }
  }

  /** A packet turned away needed more slots than were free. */
  lemma RejectedShape(P: Params, x: Sent)
    requires P.Regular() && RejectOk(P, x) && Even(P, x)
    ensures |x.rooms| < NumSlots(|x.pkt|, P.cap)
  {
    var n, m := |x.rooms|, Min(P.cap, |x.pkt|);
    if n > 0 {
      assert x.chunks[..n] == x.chunks;
      MulApart(0, n, m);
      if P.rest {
        RestTotal(P, x, n);
      } else {
        FrontTotal(P, x, n, m);
        assert n * m >= m;
      }
      CeilBelow(|x.pkt|, P.cap, n);
    } else if |x.pkt| > 0 {
      CeilBelow(|x.pkt|, P.cap, 0);
    }
  }

  /** One buffer's worth or less arrives byte for byte. */
  lemma ShortPacketIsExact(pkt: Packet, cap: nat)
    requires 0 < cap && |pkt| <= cap
    ensures NumSlots(|pkt|, cap) == 1 && OnWire(pkt, cap) == pkt
  {
    if pkt != [] { CeilUnique(|pkt|, cap, 1); }
    assert pkt[..Min(cap, |pkt|)] == pkt;
    assert Repeat(pkt, 1) == Repeat(pkt, 0) + pkt;
  }

  lemma {:induction false} RepeatIndex(s: seq<byte>, n: nat, i: nat)
    requires s != [] && i < n * |s|
    ensures |Repeat(s, n)| == n * |s| && Repeat(s, n)[i] == s[i % |s|]
    decreases n
  {
    RepeatLength(s, n);
    assert n > 0;
    assert n * |s| == (n - 1) * |s| + |s|;
    RepeatLength(s, n - 1);
    if i < (n - 1) * |s| {
      RepeatIndex(s, n - 1, i);
    } else {
      var j := i - (n - 1) * |s|;
      DivModUnique(i, |s|, n - 1, j);
    }
  }

  lemma {:induction false} RepeatLength(s: seq<byte>, n: nat)
    ensures |Repeat(s, n)| == n * |s|
    decreases n
  {
    if n > 0 { RepeatLength(s, n - 1); assert n * |s| == (n - 1) * |s| + |s|; }
  }

  /** A longer packet comes back as its first cap bytes over and over, rounded up to whole buffers. */
  lemma LongPacketRepeats(pkt: Packet, cap: nat, i: nat)
    requires 0 < cap < |pkt| && i < NumSlots(|pkt|, cap) * cap
    ensures |OnWire(pkt, cap)| == NumSlots(|pkt|, cap) * cap >= |pkt|
    ensures OnWire(pkt, cap)[i] == pkt[i % cap]
  {
    RepeatIndex(pkt[..cap], NumSlots(|pkt|, cap), i);
    var q := NumSlots(|pkt|, cap);
    assert |pkt| + cap - 1 < q * cap + cap;
  }

  /** All packets of a length arrive intact exactly when the length fits one buffer. */
  lemma IntactIffOneBuffer(len: nat, cap: nat)
    requires 0 < cap
    ensures (forall pkt: Packet :: |pkt| == len ==> OnWire(pkt, cap) == pkt) <==> len <= cap
  {
    if len <= cap {
      forall pkt: Packet | |pkt| == len ensures OnWire(pkt, cap) == pkt { ShortPacketIsExact(pkt, cap); }
    } else {
      var pkt: Packet := seq(len, i => if i == cap then 1 else 0);
      LongPacketRepeats(pkt, cap, 0);
      LongPacketRepeats(pkt, cap, cap);
      DivModUnique(cap, cap, 1, 0);
      assert OnWire(pkt, cap)[cap] == pkt[0] != pkt[cap];
    }
  }
}
