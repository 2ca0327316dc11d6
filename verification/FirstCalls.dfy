/** Single calls on a ring, step by step: a first client read, a packet of one slot written, and read. */
module FirstCalls {
  import opened Bytes
  import opened DataPath
  import opened Refinement
  import opened RingMemory
  import A = RingProtocol
  import C = RingSteps

  lemma RunOne(P: A.Params, s: A.State, acts: seq<A.Action>, a: A.Action)
    requires A.Shaped(P, s)
    ensures A.Run(P, s, acts + [a]) == A.Step(P, A.Run(P, s, acts), a)
  {
    assert (acts + [a])[..|acts|] == acts;
  }

  lemma RunTwo(P: A.Params, s: A.State, a: A.Action, b: A.Action)
    requires A.Shaped(P, s)
    ensures A.Run(P, s, [a, b]) == A.Step(P, A.Step(P, s, a), b)
  {
    assert A.Run(P, s, []) == s;
    RunOne(P, s, [], a);
    RunOne(P, s, [a], b);
    assert [] + [a] == [a] && [a] + [b] == [a, b];
  }

  lemma RunThree(P: A.Params, s: A.State, a: A.Action, b: A.Action, c: A.Action)
    requires A.Shaped(P, s)
    ensures A.Run(P, s, [a, b, c]) == A.Step(P, A.Step(P, A.Step(P, s, a), b), c)
  {
    RunTwo(P, s, a, b);
    RunOne(P, s, [a, b], c);
    assert [a, b] + [c] == [a, b, c];
  }

  // ---- a client's first read offers every slot

  lemma RestoresWhole(cap: nat)
    ensures A.Low16(cap, cap) == cap
  {
  }

  lemma RestoreStep(P: A.Params, s: A.State)
    requires A.Shaped(P, s) && s.r.RRefill? && s.r.head < s.r.last + P.size
    requires s.cells[A.At(P, s.r.head)].len == P.cap
    ensures A.ReadStep(P, s) == s.(r := A.RRefill(s.r.last, s.r.head + 1), refilled := s.refilled + 1)
  {
    RestoresWhole(P.cap);
    var i := A.At(P, s.r.head);
    assert s.cells[i := s.cells[i].(len := P.cap)] == s.cells;
  }

  function Restored(s: A.State, n: nat): A.State
    requires s.r.RRefill?
  {
    s.(r := A.RRefill(s.r.last, s.r.head + n), refilled := s.refilled + n)
  }

  lemma RestoredNext(P: A.Params, s: A.State, n: nat)
    requires A.Shaped(P, s) && s.r.RRefill? && s.r.head + n < s.r.last + P.size
    requires s.cells[A.At(P, s.r.head + n)].len == P.cap
    ensures A.Step(P, Restored(s, n), A.StepRead) == Restored(s, n + 1)
  {
    RestoreStep(P, Restored(s, n));
  }

  /** Restoring a length that is whole changes nothing but the counters. */
  lemma {:induction false} RestoreRun(P: A.Params, s: A.State, n: nat)
    requires A.Shaped(P, s) && s.r.RRefill? && s.r.head + n <= s.r.last + P.size
    requires forall i :: 0 <= i < P.size ==> s.cells[i].len == P.cap
    ensures A.Run(P, s, A.Times(A.StepRead, n)) == Restored(s, n)
    decreases n
  {
    if n > 0 {
      RestoreRun(P, s, n - 1);
      RunOne(P, s, A.Times(A.StepRead, n - 1), A.StepRead);
      RestoredNext(P, s, n - 1);
    }
  }

  function Offer(size: nat): seq<A.Action> { [A.StartRead(0)] + A.Times(A.StepRead, size) + [A.StepRead] }

  function COffer(size: nat): seq<C.Action> { [C.StartRead([])] + A.Times(C.StepRead, size) + [C.StepRead] }

  function Offered0(P: A.Params, s: A.State): A.State {
    s.(lim := P.size, r := A.RIdle(0), returned := 1, refilled := P.size)
  }

  lemma OfferRun(P: A.Params, s: A.State)
    requires A.Initial(P, s) && P.dir.M2S?
    ensures A.Run(P, s, Offer(P.size)) == Offered0(P, s)
  {
    var s1 := A.Step(P, s, A.StartRead(0));
    assert s1 == s.(r := A.RRefill(0, 0));
    assert A.Run(P, s, []) == s;
    RunOne(P, s, [], A.StartRead(0));
    assert [] + [A.StartRead(0)] == [A.StartRead(0)];
    A.RunAppend(P, s, [A.StartRead(0)], A.Times(A.StepRead, P.size));
    RestoreRun(P, s1, P.size);
    RunOne(P, s, [A.StartRead(0)] + A.Times(A.StepRead, P.size), A.StepRead);
  }

  // ---- a packet that fits the slot it goes to

  /** What the next free slot offers, and what all of them do. */
  function Room(P: A.Params, s: A.State): nat
    requires A.Shaped(P, s)
  {
    A.Offer(P, s.cells, s.pub)
  }

  function Rooms(P: A.Params, s: A.State): seq<nat>
    requires A.Shaped(P, s) && s.pub <= s.lim
  {
    A.Offers(P, s.cells, s.pub, s.lim - s.pub)
  }

  function CopyCall(pkt: A.Packet): seq<A.Action> { [A.StartWrite(pkt), A.StepWrite, A.StepWrite] }

  lemma StartWriteIs(P: A.Params, s: A.State, pkt: A.Packet, job: A.Job)
    requires A.Shaped(P, s) && s.w.WIdle? && s.pub < s.lim
    requires job == A.Job(s.pub, s.lim - s.pub, A.Sent(pkt, [], Rooms(P, s)))
    ensures A.Step(P, s, A.StartWrite(pkt)) == s.(w := A.WGet(job))
  {
  }

  lemma GetIs(P: A.Params, s: A.State, job: A.Job, room: nat)
    requires A.Shaped(P, s) && job.slot == s.pub && room == Room(P, s)
    ensures A.Step(P, s.(w := A.WGet(job)), A.StepWrite) == s.(w := A.WCopy(job, room))
  {
  }

  lemma CopyIs(P: A.Params, s: A.State, job: A.Job, room: nat, piece: seq<byte>, i: nat)
    requires A.Shaped(P, s) && i == A.At(P, job.slot) && piece == A.Piece(P, job.sent, room)
    ensures A.Step(P, s.(w := A.WCopy(job, room)), A.StepWrite) ==
            s.(cells := s.cells[i := s.cells[i].(data := A.Overlay(s.cells[i].data, piece))], w := A.WPut(job, room))
  {
  }

  /** Where a write of pkt stands once it has copied: the descriptor is still as it was. */
  function Copied(P: A.Params, s: A.State, pkt: A.Packet): (t: A.State)
    requires A.Shaped(P, s) && s.pub <= s.lim
    ensures A.Shaped(P, t)
  {
    var i := A.At(P, s.pub);
    s.(cells := s.cells[i := s.cells[i].(data := A.Overlay(s.cells[i].data, pkt))],
       w := A.WPut(A.Job(s.pub, s.lim - s.pub, A.Sent(pkt, [], Rooms(P, s))), Room(P, s)))
  }

  lemma CopyRun(P: A.Params, s: A.State, pkt: A.Packet)
    requires A.Shaped(P, s) && s.w.WIdle? && s.pub < s.lim && |pkt| <= Room(P, s)
    ensures A.Run(P, s, CopyCall(pkt)) == Copied(P, s, pkt)
  {
    var job := A.Job(s.pub, s.lim - s.pub, A.Sent(pkt, [], Rooms(P, s)));
    StartWriteIs(P, s, pkt, job);
    GetIs(P, s, job, Room(P, s));
    FirstPiece(P, pkt, Rooms(P, s), Room(P, s));
    CopyIs(P, s, job, Room(P, s), pkt, A.At(P, s.pub));
    RunThree(P, s, A.StartWrite(pkt), A.StepWrite, A.StepWrite);
  }

  function WriteCall(pkt: A.Packet): seq<A.Action> { CopyCall(pkt) + [A.StepWrite, A.StepWrite] }

  function Written(P: A.Params, s: A.State, pkt: A.Packet): A.State
    requires A.Shaped(P, s) && s.pub < s.lim
  {
    var i := A.At(P, s.pub);
    s.(cells := s.cells[i := A.Cell(false, |pkt|, A.Overlay(s.cells[i].data, pkt))], pub := s.pub + 1,
       accepted := s.accepted + [A.Sent(pkt, [pkt], Rooms(P, s))])
  }

  lemma PutIs(P: A.Params, s: A.State, pkt: A.Packet)
    requires A.Shaped(P, s) && s.pub < s.lim && |pkt| <= Room(P, s)
    ensures A.Step(P, Copied(P, s, pkt), A.StepWrite) ==
            Written(P, s, pkt).(pub := s.pub, accepted := s.accepted,
              w := A.WPub(A.Job(s.pub + 1, s.lim - s.pub, A.Sent(pkt, [pkt], Rooms(P, s)))))
  {
    var i, t := A.At(P, s.pub), Copied(P, s, pkt);
    assert [] + [pkt] == [pkt];
    A.TotalAppend([], pkt);
    FirstPiece(P, pkt, Rooms(P, s), Room(P, s));
    A.PutLastIs(P, t, pkt);
    SetTwice(s.cells, i, A.Overlay(s.cells[i].data, pkt), |pkt|);
  }

  lemma PublishIs(P: A.Params, s: A.State, pkt: A.Packet, t: A.State)
    requires A.Shaped(P, s) && s.pub < s.lim && s.w.WIdle?
    requires t == Written(P, s, pkt).(pub := s.pub, accepted := s.accepted,
                    w := A.WPub(A.Job(s.pub + 1, s.lim - s.pub, A.Sent(pkt, [pkt], Rooms(P, s)))))
    ensures A.Shaped(P, t) && A.Step(P, t, A.StepWrite) == Written(P, s, pkt)
  {
  }

  lemma FirstPiece(P: A.Params, pkt: A.Packet, rooms: seq<nat>, room: nat)
    requires |pkt| <= room
    ensures A.Piece(P, A.Sent(pkt, [], rooms), room) == pkt
  {
    assert pkt[..|pkt|] == pkt && pkt[0..] == pkt && A.Total([]) == 0;
  }

  lemma SetTwice(cells: seq<A.Cell>, i: nat, data: seq<byte>, len: nat)
    requires i < |cells|
    ensures var cs := cells[i := cells[i].(data := data)];
            cs[i := cs[i].(next := false, len := len)] == cells[i := A.Cell(false, len, data)]
  {
  }

  lemma WriteRun(P: A.Params, s: A.State, pkt: A.Packet)
    requires A.Shaped(P, s) && s.w.WIdle? && s.pub < s.lim && |pkt| <= Room(P, s)
    ensures A.Run(P, s, WriteCall(pkt)) == Written(P, s, pkt)
  {
    var t := Copied(P, s, pkt);
    CopyRun(P, s, pkt);
    A.RunAppend(P, s, CopyCall(pkt), [A.StepWrite, A.StepWrite]);
    PutIs(P, s, pkt);
    PublishIs(P, s, pkt, A.Step(P, t, A.StepWrite));
    RunTwo(P, t, A.StepWrite, A.StepWrite);
  }

  function ReadCall(space: nat): seq<A.Action> { [A.StartRead(space), A.StepRead, A.StepRead] }

  /** A read under way in a packet of one slot. */
  lemma StartReadIs(P: A.Params, s: A.State, space: nat)
    requires A.Shaped(P, s) && s.r.RIdle? && s.r.last < s.pub
    ensures A.Step(P, s, A.StartRead(space)) == s.(r := A.RGet(s.r.last, s.r.last, s.pub - s.r.last, [], space))
  {
  }

  lemma FetchIs(P: A.Params, s: A.State, last: nat, left: nat, space: nat, c: A.Cell)
    requires A.Shaped(P, s) && c == s.cells[A.At(P, last)]
    ensures A.Step(P, s.(r := A.RGet(last, last, left, [], space)), A.StepRead) ==
            s.(r := A.RCopy(last, last, left, [], space, c.next, c.len))
  {
  }

  lemma CopyOutIs(P: A.Params, s: A.State, last: nat, left: nat, space: nat, c: A.Cell)
    requires A.Shaped(P, s) && c == s.cells[A.At(P, last)] && !c.next
    ensures A.Step(P, s.(r := A.RCopy(last, last, left, [], space, c.next, c.len)), A.StepRead) ==
            A.EnterRefill(P, s.(delivered := s.delivered + [A.Prefix(c.data, c.len)]), last + 1)
  {
    assert [] + A.Prefix(c.data, c.len) == A.Prefix(c.data, c.len);
  }

  /** Up to the copy out: the packet is delivered, its slot is still to be given back. */
  lemma ReadRun(P: A.Params, s: A.State, space: nat)
    requires A.Shaped(P, s) && s.r.RIdle? && s.r.last < s.pub && !s.cells[A.At(P, s.r.last)].next
    ensures var c := s.cells[A.At(P, s.r.last)];
            A.Run(P, s, ReadCall(space)) ==
            A.EnterRefill(P, s.(delivered := s.delivered + [A.Prefix(c.data, c.len)]), s.r.last + 1)
  {
    var c, last, left := s.cells[A.At(P, s.r.last)], s.r.last, s.pub - s.r.last;
    StartReadIs(P, s, space);
    FetchIs(P, s, last, left, space, c);
    CopyOutIs(P, s, last, left, space, c);
    RunThree(P, s, A.StartRead(space), A.StepRead, A.StepRead);
  }

  // ---- a 16-bit store does not restore a longer length

  /** The client offers its slots, the server sends an empty packet, the client reads it and offers the slot again. */
  function ShortenActs(size: nat): seq<A.Action> {
    Offer(size) + WriteCall([]) + ReadCall(0) + [A.StepRead, A.StepRead]
  }

  function CShortenActs(size: nat): seq<C.Action> {
    COffer(size) + [C.StartWrite([]), C.StepWrite, C.StepWrite, C.StepWrite, C.StepWrite] +
    [C.StartRead([]), C.StepRead, C.StepRead] + [C.StepRead, C.StepRead]
  }

  lemma {:induction false} AbsTimes(n: nat)
    ensures AbsActs(A.Times(C.StepRead, n)) == A.Times(A.StepRead, n)
    decreases n
  {
    if n > 0 { AbsTimes(n - 1); AbsAppend(A.Times(C.StepRead, n - 1), [C.StepRead]); }
  }

  lemma AbsAppend(acts: seq<C.Action>, more: seq<C.Action>)
    ensures AbsActs(acts + more) == AbsActs(acts) + AbsActs(more)
  {
  }

  lemma AbsOffer(size: nat)
    ensures AbsActs(COffer(size)) == Offer(size)
  {
    AbsTimes(size);
    AbsAppend([C.StartRead([])], A.Times(C.StepRead, size));
    AbsAppend([C.StartRead([])] + A.Times(C.StepRead, size), [C.StepRead]);
  }

  lemma AbsShorten(size: nat)
    ensures AbsActs(CShortenActs(size)) == ShortenActs(size)
  {
    var w, r := [C.StartWrite([]), C.StepWrite, C.StepWrite, C.StepWrite, C.StepWrite], [C.StartRead([]), C.StepRead, C.StepRead];
    AbsOffer(size);
    AbsAppend(COffer(size), w);
    AbsAppend(COffer(size) + w, r);
    AbsAppend(COffer(size) + w + r, [C.StepRead, C.StepRead]);
    assert AbsActs(w) == WriteCall([]);
  }

  lemma AtZero(P: A.Params)
    requires P.Valid()
    ensures A.At(P, 0) == 0 && A.At(P, P.size) == 0
  {
  }

  lemma RefillAndReturn(P: A.Params, s: A.State)
    requires A.Shaped(P, s) && s.r == A.RRefill(1, P.size) && s.cells[0].len == 0
    ensures var s' := A.Run(P, s, [A.StepRead, A.StepRead]);
            && s' == s.(cells := s'.cells, lim := P.size + 1, r := A.RIdle(1), returned := s.returned + 1,
                        refilled := s.refilled + 1)
            && s'.cells[0].len == P.cap % TWO16
  {
    AtZero(P);
    RunTwo(P, s, A.StepRead, A.StepRead);
  }

  lemma ShortenRun(P: A.Params, s: A.State)
    requires A.Initial(P, s) && P.dir.M2S?
    ensures var s' := A.Run(P, s, ShortenActs(P.size));
            s'.pub == 1 && s'.lim == P.size + 1 && s'.w.WIdle? && s'.cells[0].len == P.cap % TWO16
  {
    AtZero(P);
    var o, w, r := Offer(P.size), WriteCall([]), ReadCall(0);
    OfferRun(P, s);
    var s1 := Offered0(P, s);
    A.RunAppend(P, s, o, w);
    WriteRun(P, s1, []);
    var s2 := Written(P, s1, []);
    A.RunAppend(P, s, o + w, r);
    ReadRun(P, s2, 0);
    A.RunAppend(P, s, o + w + r, [A.StepRead, A.StepRead]);
    RefillAndReturn(P, A.Run(P, s2, r));
  }

  /** If slot 0 is the last free slot and is short, the free slots are not all whole. */
  lemma ShortSlot(G: Geometry, m: seq<byte>, a: A.State)
    requires MemRel(G, m, a) && G.dir.M2S? && a.pub == 1 && a.lim == G.ring.Size() + 1 && a.cells[0].len != G.cap
    ensures !WholeSlots(G, m)
  {
    var n := G.ring.Size();
    FreeSlots(G, m, a);
    assert a.cells[0] == G.CellAt(m, 0);
    AtZero(G.Abs());
    SlotIsAt(G, n, n);
    assert !WholeAt(G, m, n);
  }

  lemma ShortenBehind(G: Geometry, c: C.State)
    requires Fresh(G, c) && G.dir.M2S?
    ensures var a := Behind(G, c, CShortenActs(G.ring.Size()));
            a.pub == 1 && a.lim == G.ring.Size() + 1 && a.w.WIdle? && |a.cells| > 0 && a.cells[0].len == G.cap % TWO16
  {
    FreshStart(G, c);
    AbsShorten(G.ring.Size());
    ShortenRun(G.Abs(), Start(G, c.mem));
  }

  lemma ShortSlotGood(G: Geometry, s: C.State, a: A.State)
    requires Good(G, s, a) && G.dir.M2S? && a.pub == 1 && a.lim == G.ring.Size() + 1 && a.w.WIdle?
    requires |a.cells| > 0 && a.cells[0].len != G.cap
    ensures s.w.WDone? && !WholeSlots(G, s.mem)
  {
    ShortSlot(G, s.mem, a);
  }

  lemma ShortenedSlot(G: Geometry, c: C.State)
    requires Fresh(G, c) && G.dir.M2S? && G.cap >= TWO16
    ensures var s := C.Run(Conf(G), c, CShortenActs(G.ring.Size())); s.w.WDone? && !WholeSlots(G, s.mem)
  {
    var acts := CShortenActs(G.ring.Size());
    RunFromFresh(G, c, acts);
    ShortenBehind(G, c);
    ShortSlotGood(G, C.Run(Conf(G), c, acts), Behind(G, c, acts));
  }

  ghost predicate WholeAfter(G: Geometry, c: C.State, acts: seq<C.Action>)
    requires Fresh(G, c)
  {
    var s := C.Run(Conf(G), c, acts);
    s.w.WDone? ==> WholeSlots(G, s.mem)
  }

  /**
   Over all runs of an M2S ring the free slots are whole whenever no write is under way, exactly when the
   client's PacketBufferSize fits the 16 bits that a refill stores.
   */
  lemma WholeSlotsIff(G: Geometry, c: C.State)
    requires Fresh(G, c) && G.dir.M2S?
    ensures (forall acts :: WholeAfter(G, c, acts)) <==> G.cap < TWO16
  {
    if G.cap < TWO16 {
      forall acts ensures WholeAfter(G, c, acts) {
        var s := C.Run(Conf(G), c, acts);
        if s.w.WDone? { FreeSlotsAreWhole(G, c, acts, s); }
      }
    } else {
      ShortenedSlot(G, c);
      assert !WholeAfter(G, c, CShortenActs(G.ring.Size()));
    }
  }
}
