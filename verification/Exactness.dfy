/**
 Which packets arrive byte for byte: for every ring and every length, all runs deliver all packets of that
 length intact, or some run delivers one that is not; and which of the two.
 */
module Exactness {
  import opened Arith
  import opened Bytes
  import opened Capacity
  import opened DataPath
  import opened FirstCalls
  import opened Progress
  import opened Refinement
  import opened RingMemory
  import A = RingProtocol
  import C = RingSteps

  // ---- a packet that is cut after its first slot

  /** Nothing is under way, and nothing is unread. */
  ghost predicate Quiet(s: A.State) { s.w.WIdle? && s.r.RIdle? && |s.accepted| == |s.delivered| }

  /** The first free slot cuts a packet of that length, and the free slots take it. */
  ghost predicate Cuts(rooms: seq<nat>, len: nat) {
    |rooms| > 1 && 0 < rooms[0] < len && 0 < rooms[1] && Suffices(rooms, len)
  }

  /** A packet with a mark at place k. */
  function Marked(len: nat, k: nat): (pkt: seq<byte>)
    ensures |pkt| == len && forall i :: 0 <= i < len ==> pkt[i] == if i == k then 1 else 0
  {
    seq(len, i => if i == k then 1 else 0)
  }

  /** Sending a packet and reading it. */
  function SendActs(P: A.Params, s: A.State, pkt: A.Packet): seq<A.Action> {
    WriteActs(pkt, if s.pub <= s.lim then s.lim - s.pub else 0)
  }

  ghost function After(P: A.Params, s: A.State, pkt: A.Packet): A.State
    requires A.Shaped(P, s)
  {
    A.Run(P, s, SendActs(P, s, pkt))
  }

  ghost function Fetch(P: A.Params, s: A.State): seq<A.Action> {
    ReadActs(P, P.size * P.cap, if s.r.last <= s.pub then s.pub - s.r.last else 0)
  }

  /** t has delivered the packet that s had not, and it is not the packet that was sent. */
  ghost predicate Spoilt(s: A.State, t: A.State, len: nat, k: nat) {
    var d := |s.delivered|;
    && |t.accepted| == |t.delivered| == d + 1 && k < len && t.accepted[d].pkt == Marked(len, k)
    && k < |t.delivered[d]| && t.delivered[d][k] == 0
  }

  /** From a quiet ring whose free slots cut packets of that length, one of them arrives spoilt. */
  lemma CutRun(P: A.Params, s: A.State, len: nat, k: nat)
    requires Offered(P, s) && !P.rest && Quiet(s) && Cuts(Rooms(P, s), len) && k == Rooms(P, s)[0]
    ensures var u := After(P, s, Marked(len, k));
            A.Shaped(P, u) && Spoilt(s, A.Run(P, u, Fetch(P, u)), len, k)
  {
    var u := After(P, s, Marked(len, k));
    var x := WriteSucceeds(P, s, Marked(len, k), u);
    FirstByteAgain(P, x);
    ReadCut(P, s, u, x, len, k);
  }

  lemma ReadCut(P: A.Params, s: A.State, u: A.State, x: A.Sent, len: nat, k: nat)
    requires Offered(P, u) && u.r.RIdle? && k < len && x.pkt == Marked(len, k) && u.delivered == s.delivered
    requires |s.accepted| == |s.delivered| && u.accepted == s.accepted + [x]
    requires k < |A.Concat(x.chunks)| && A.Concat(x.chunks)[k] == 0
    ensures Spoilt(s, A.Run(P, u, Fetch(P, u)), len, k)
  {
    ReadSucceeds(P, u, P.size * P.cap, A.Run(P, u, Fetch(P, u)));
  }

  // ---- whole slots, and a packet longer than one of them

  lemma {:induction false} SumOfWhole(rooms: seq<nat>, n: nat, cap: nat)
    requires n <= |rooms| && forall k :: 0 <= k < |rooms| ==> rooms[k] == cap
    ensures Sum(rooms[..n]) == n * cap
    decreases n
  {
    if n > 0 {
      SumOfWhole(rooms, n - 1, cap);
      SumNext(rooms, n - 1);
      Distribute(n - 1, 1, cap);
    }
  }

  lemma SlotsCover(len: nat, cap: nat, n: nat)
    requires cap > 0 && NumSlots(len, cap) <= n
    ensures len <= n * cap && (cap < len ==> n > 1)
  {
    var q := (len + cap - 1) / cap;
    assert len + cap - 1 < q * cap + cap;
    MulApart(q, n, cap);
    MulApart(1, q, cap);
  }

  lemma WholeCuts(rooms: seq<nat>, len: nat, cap: nat)
    requires 0 < cap < len && NumSlots(len, cap) <= |rooms| && forall k :: 0 <= k < |rooms| ==> rooms[k] == cap
    ensures Cuts(rooms, len)
  {
    SlotsCover(len, cap, |rooms|);
    SumOfWhole(rooms, |rooms|, cap);
    assert rooms[..|rooms|] == rooms;
  }

  // ---- M2S: one packet through a slot of its own, and what its slot offers then

  function RoundActs(P: A.Params, pkt: A.Packet): seq<A.Action> {
    WriteCall(pkt) + ReadCall(P.size * P.cap) + [A.StepRead, A.StepRead]
  }

  /** All slots are free, and the indices stand at t. */
  ghost predicate AllFree(P: A.Params, s: A.State, t: nat) {
    A.Shaped(P, s) && Quiet(s) && s.pub == t && s.r == A.RIdle(t) && s.lim == t + P.size
  }

  lemma AtAgain(P: A.Params, t: nat)
    requires P.Valid()
    ensures A.At(P, t + P.size) == A.At(P, t)
  {
  }

  /** The refill of the one slot that was consumed. */
  lemma RefillOne(P: A.Params, s: A.State, t: nat, i: nat)
    requires A.Shaped(P, s) && s.r == A.RRefill(t + 1, t + P.size) && i == A.At(P, t)
    ensures A.Run(P, s, [A.StepRead, A.StepRead]) ==
            s.(cells := s.cells[i := s.cells[i].(len := A.Low16(s.cells[i].len, P.cap))], lim := t + 1 + P.size,
               r := A.RIdle(t + 1), returned := s.returned + 1, refilled := s.refilled + 1)
  {
    AtAgain(P, t);
    RunTwo(P, s, A.StepRead, A.StepRead);
  }

  lemma RoundRun(P: A.Params, s: A.State, t: nat, pkt: A.Packet, s': A.State)
    requires AllFree(P, s, t) && P.dir.M2S? && |pkt| <= s.cells[A.At(P, t)].len && s' == A.Run(P, s, RoundActs(P, pkt))
    ensures AllFree(P, s', t + 1) && s'.cells == s.cells[A.At(P, t) := s'.cells[A.At(P, t)]]
    ensures s'.cells[A.At(P, t)].len == A.Low16(|pkt|, P.cap)
  {
    var s1, i := Written(P, s, pkt), A.At(P, t);
    WriteRun(P, s, pkt);
    A.RunAppend(P, s, WriteCall(pkt), ReadCall(P.size * P.cap));
    ReadRun(P, s1, P.size * P.cap);
    A.RunAppend(P, s, WriteCall(pkt) + ReadCall(P.size * P.cap), [A.StepRead, A.StepRead]);
    RefillOne(P, A.Run(P, s1, ReadCall(P.size * P.cap)), t, i);
  }

  // ---- M2S: once round the ring, the first slot with a short packet, the others with full ones

  /** A packet that leaves its slot with the least it can offer. */
  function ShortLength(cap: nat): nat { if cap % TWO16 > 0 then 0 else TWO16 }

  function Payload(P: A.Params, k: nat): A.Packet { Marked(if k == 0 then ShortLength(P.cap) else P.cap, 0) }

  function LapActs(P: A.Params, n: nat): seq<A.Action> {
    if n == 0 then [] else LapActs(P, n - 1) + RoundActs(P, Payload(P, n - 1))
  }

  /** After n rounds the first slot is short and the others are whole. */
  ghost predicate Lapped(P: A.Params, s: A.State, n: nat) {
    && AllFree(P, s, n)
    && forall i :: 0 <= i < P.size ==> s.cells[i].len == if i == 0 && n > 0 then Least(P) else P.cap
  }

  lemma ShortIsLeast(P: A.Params)
    requires P.Valid() && P.dir.M2S? && P.cap > TWO16 && P.size > 1
    ensures A.Low16(ShortLength(P.cap), P.cap) == Least(P) < P.cap && ShortLength(P.cap) <= P.cap
    ensures A.Low16(P.cap, P.cap) == P.cap && 0 < Least(P)
  {
  }

  lemma AtSmall(P: A.Params, t: nat)
    requires P.Valid() && t < P.size
    ensures A.At(P, t) == t && A.At(P, t + P.size) == t
  {
  }

  lemma {:induction false} LapRun(P: A.Params, s: A.State, n: nat, s': A.State)
    requires Lapped(P, s, 0) && P.dir.M2S? && P.cap > TWO16 && P.size > 1 && n <= P.size
    requires s' == A.Run(P, s, LapActs(P, n))
    ensures Lapped(P, s', n)
    decreases n
  {
    if n > 0 {
      var u := A.Run(P, s, LapActs(P, n - 1));
      LapRun(P, s, n - 1, u);
      A.RunAppend(P, s, LapActs(P, n - 1), RoundActs(P, Payload(P, n - 1)));
      ShortIsLeast(P);
      AtSmall(P, n - 1);
      RoundRun(P, u, n - 1, Payload(P, n - 1), s');
    }
  }

  lemma {:induction false} SumAtLeast(rooms: seq<nat>, k: nat)
    requires k < |rooms|
    ensures rooms[k] <= Sum(rooms)
  {
    SumNext(rooms, k);
    SumGrows(rooms, k + 1);
  }

  /** Then the free slots cut every packet longer than the least that a slot can offer. */
  lemma LappedCuts(P: A.Params, s: A.State, len: nat)
    requires Lapped(P, s, P.size) && P.dir.M2S? && P.cap > TWO16 && P.size > 1 && Least(P) < len <= P.cap
    ensures Cuts(Rooms(P, s), len)
  {
    ShortIsLeast(P);
    AtSmall(P, 0);
    AtSmall(P, 1);
    var rooms := Rooms(P, s);
    assert rooms[0] == A.Offer(P, s.cells, P.size + 0) && rooms[1] == A.Offer(P, s.cells, P.size + 1);
    SumAtLeast(rooms, 1);
  }

  // ---- a run that spoils a packet

  /** How the ring is brought to where a packet of that length is cut. */
  function SetUp(P: A.Params, len: nat): seq<A.Action> {
    (if P.dir.S2M? then [] else Offer(P.size)) + if len <= P.cap then LapActs(P, P.size) else []
  }

  lemma SetUpRun(P: A.Params, s: A.State, len: nat, s': A.State)
    requires A.Initial(P, s) && Least(P) < len && NumSlots(len, P.cap) <= P.size && s' == A.Run(P, s, SetUp(P, len))
    ensures A.Shaped(P, s') && Quiet(s') && s'.pub <= s'.lim && Cuts(Rooms(P, s'), len)
  {
    var s1 := if P.dir.S2M? then s else Offered0(P, s);
    assert A.Run(P, s, []) == s;
    if P.dir.M2S? { OfferRun(P, s); }
    var first := if P.dir.S2M? then [] else Offer(P.size);
    if len <= P.cap {
      A.RunAppend(P, s, first, LapActs(P, P.size));
      LapRun(P, s1, P.size, s');
      LappedCuts(P, s', len);
    } else {
      assert first + [] == first;
      WholeCuts(Rooms(P, s1), len, P.cap);
    }
  }

  /** The packet sent and read, from there. */
  ghost function SpoilActs(P: A.Params, u: A.State, len: nat, k: nat): seq<A.Action>
    requires A.Shaped(P, u)
  {
    SendActs(P, u, Marked(len, k)) + Fetch(P, After(P, u, Marked(len, k)))
  }

  lemma SpoilRun(P: A.Params, u: A.State, len: nat, k: nat)
    requires Offered(P, u) && !P.rest && Quiet(u) && Cuts(Rooms(P, u), len) && k == Rooms(P, u)[0]
    ensures Spoilt(u, A.Run(P, u, SpoilActs(P, u, len, k)), len, k) && k < P.size * P.cap
  {
    CutRun(P, u, len, k);
    A.RunAppend(P, u, SendActs(P, u, Marked(len, k)), Fetch(P, After(P, u, Marked(len, k))));
    CutBelow(P, u, k);
  }

  lemma CutBelow(P: A.Params, u: A.State, k: nat)
    requires Offered(P, u) && u.w.WIdle? && u.pub + 1 < u.lim && k == Rooms(P, u)[0]
    ensures k < P.size * P.cap
  {
    assert k == A.Offer(P, u.cells, u.pub + 0) <= P.cap;
    MulApart(1, P.size, P.cap);
  }

  // ---- the same on the bytes

  /** Schedules of the protocol as schedules of the code, with read buffers of the given lengths. */
  function LiftAct(a: A.Action): (b: C.Action)
    ensures AbsAct(b) == a
  {
    match a
    case StartWrite(pkt) => C.StartWrite(pkt)
    case StepWrite => C.StepWrite
    case StartRead(space) => C.StartRead(Marked(space, space))
    case StepRead => C.StepRead
  }

  function Lift(acts: seq<A.Action>): (r: seq<C.Action>)
    ensures |r| == |acts| && AbsActs(r) == acts
  {
    seq(|acts|, i requires 0 <= i < |acts| => LiftAct(acts[i]))
  }

  /** Reads begun with buffers of k bytes or more return such buffers. */
  ghost predicate Wide(s: C.State, d: nat, k: nat) {
    && (forall i :: d <= i < |s.delivered| ==> k <= |s.delivered[i].buf|)
    && (s.r.RGet? || s.r.RCopy? ==> k <= |s.r.buf|)
  }

  lemma WideStep(q: C.Config, s: C.State, a: C.Action, d: nat, k: nat)
    requires C.Shaped(q, s) && Wide(s, d, k) && (a.StartRead? ==> k <= |a.buf|)
    ensures Wide(C.Step(q, s, a), d, k)
  {
  }

  lemma {:induction false} WideRun(q: C.Config, s: C.State, acts: seq<C.Action>, d: nat, k: nat)
    requires C.Shaped(q, s) && Wide(s, d, k) && forall i :: 0 <= i < |acts| && acts[i].StartRead? ==> k <= |acts[i].buf|
    ensures Wide(C.Run(q, s, acts), d, k)
    decreases |acts|
  {
    if acts != [] {
      var n := |acts| - 1;
      WideRun(q, s, acts[..n], d, k);
      WideStep(q, C.Run(q, s, acts[..n]), acts[n], d, k);
    }
  }

  lemma SpoilWide(P: A.Params, u: A.State, len: nat, k: nat, acts: seq<C.Action>)
    requires A.Shaped(P, u) && acts == Lift(SpoilActs(P, u, len, k))
    ensures forall i :: 0 <= i < |acts| && acts[i].StartRead? ==> P.size * P.cap <= |acts[i].buf|
  {
  }

  /** Every delivered packet of that length is the packet that was accepted, as far as the read buffer reaches. */
  ghost predicate IntactIn(s: C.State, len: nat) {
    forall i :: 0 <= i < |s.delivered| && i < |s.accepted| && |s.accepted[i].pkt| == len ==>
      OutRel(s.delivered[i].n, s.delivered[i].buf, s.accepted[i].pkt)
  }

  lemma NotBoth(n: nat, buf: seq<byte>, x: seq<byte>, y: seq<byte>, k: nat)
    requires OutRel(n, buf, x) && k < |x| && k < |y| && k < |buf| && x[k] != y[k]
    ensures !OutRel(n, buf, y)
  {
    if n == |y| { assert buf[..Min(n, |buf|)][k] == x[..Min(n, |buf|)][k] == x[k]; }
  }

  lemma SpoiltIsSeen(u: A.State, s: C.State, t: A.State, len: nat, k: nat, w: nat)
    requires HistoryRel(s, t) && Spoilt(u, t, len, k) && k < w && Wide(s, |u.delivered|, w)
    ensures !IntactIn(s, len)
  {
    var d := |u.delivered|;
    assert CallRel(s.accepted[d], t.accepted[d], true) && OutRel(s.delivered[d].n, s.delivered[d].buf, t.delivered[d]);
    NotBoth(s.delivered[d].n, s.delivered[d].buf, t.delivered[d], s.accepted[d].pkt, k);
  }

  /** From a state like that, the run on the bytes. */
  lemma SpoilOnBytes(G: Geometry, s: C.State, u: A.State, len: nat, k: nat, acts: seq<C.Action>)
    requires Good(G, s, u) && !G.rest && Quiet(u) && Cuts(Rooms(G.Abs(), u), len) && k == Rooms(G.Abs(), u)[0]
    requires acts == Lift(SpoilActs(G.Abs(), u, len, k))
    ensures !IntactIn(C.Run(Conf(G), s, acts), len)
  {
    var P := G.Abs();
    SpoilRun(P, u, len, k);
    GoodRun(G, s, u, acts);
    SpoilWide(P, u, len, k, acts);
    WideRun(Conf(G), s, acts, |u.delivered|, P.size * P.cap);
    SpoiltIsSeen(u, C.Run(Conf(G), s, acts), A.Run(P, u, AbsActs(acts)), len, k, P.size * P.cap);
  }

  lemma SomeRunSpoils(G: Geometry, c: C.State, len: nat) returns (acts: seq<C.Action>)
    requires Fresh(G, c) && !G.rest && Least(G.Abs()) < len && NumSlots(len, G.cap) <= G.ring.Size()
    ensures !IntactIn(C.Run(Conf(G), c, acts), len)
  {
    var P, first := G.Abs(), Lift(SetUp(G.Abs(), len));
    FreshStart(G, c);
    RunFromFresh(G, c, first);
    var u := Behind(G, c, first);
    SetUpRun(P, Start(G, c.mem), len, u);
    var k := Rooms(P, u)[0];
    var more := Lift(SpoilActs(P, u, len, k));
    SpoilOnBytes(G, C.Run(Conf(G), c, first), u, len, k, more);
    C.RunAppend(Conf(G), c, first, more);
    acts := first + more;
  }

  // ---- the theorems

  lemma NeverTaken(P: A.Params, x: A.Sent)
    requires P.Valid() && A.SentOk(P, x) && Even(P, x)
    ensures NumSlots(|x.pkt|, P.cap) <= P.size
  {
    AcceptedSlots(P, x);
  }

  lemma AlwaysIntact(G: Geometry, c: C.State, len: nat, acts: seq<C.Action>)
    requires Fresh(G, c) && !G.rest && (len <= Least(G.Abs()) || G.ring.Size() < NumSlots(len, G.cap))
    ensures IntactIn(C.Run(Conf(G), c, acts), len)
  {
    Fifo(G, c, acts);
    RunFromFresh(G, c, acts);
    var s, a := C.Run(Conf(G), c, acts), Behind(G, c, acts);
    forall i | 0 <= i < |s.delivered| && i < |s.accepted| && |s.accepted[i].pkt| == len
      ensures OutRel(s.delivered[i].n, s.delivered[i].buf, s.accepted[i].pkt)
    {
      assert InTurn(G.Abs(), s.delivered[i], s.accepted[i]);
      assert A.SentOk(G.Abs(), a.accepted[i]) && Even(G.Abs(), a.accepted[i]) && CallRel(s.accepted[i], a.accepted[i], true);
      NeverTaken(G.Abs(), a.accepted[i]);
    }
  }

  /**
   The code's copy, on every ring and for every length: all runs deliver all packets of that length intact
   exactly if no slot can cut them, or the ring has too few slots ever to take one.
   */
  lemma IntactIff(G: Geometry, c: C.State, len: nat)
    requires Fresh(G, c) && !G.rest
    ensures (forall acts :: IntactIn(C.Run(Conf(G), c, acts), len)) <==>
            len <= Least(G.Abs()) || G.ring.Size() < NumSlots(len, G.cap)
  {
    if len <= Least(G.Abs()) || G.ring.Size() < NumSlots(len, G.cap) {
      forall acts ensures IntactIn(C.Run(Conf(G), c, acts), len) { AlwaysIntact(G, c, len, acts); }
    } else {
      var acts := SomeRunSpoils(G, c, len);
    }
  }

  /** Two bytes in buffers of 65537: once both slots have been used, each takes one byte, and twice the same. */
  lemma TwoBytesSpoilt(G: Geometry, c: C.State) returns (acts: seq<C.Action>)
    requires Fresh(G, c) && !G.rest && G.dir.M2S? && G.cap == 65537 && G.ring.Size() > 1
    ensures !IntactIn(C.Run(Conf(G), c, acts), 2)
  {
    CeilUnique(2, G.cap, 1);
    acts := SomeRunSpoils(G, c, 2);
  }

  /** Every run delivers every packet of at most one buffer intact. */
  ghost predicate OneBufferIntact(G: Geometry, c: C.State)
    requires Fresh(G, c)
  {
    forall len, acts :: 0 <= len <= G.cap ==> IntactIn(C.Run(Conf(G), c, acts), len)
  }

  /** That is so exactly on S2M rings, with buffers of at most 2^16 bytes, and on rings of one slot. */
  lemma OneBufferIff(G: Geometry, c: C.State)
    requires Fresh(G, c) && !G.rest
    ensures OneBufferIntact(G, c) <==> G.dir.S2M? || G.cap <= TWO16 || G.ring.Size() == 1
  {
    if G.dir.S2M? || G.cap <= TWO16 || G.ring.Size() == 1 {
      forall len: nat, acts | len <= G.cap ensures IntactIn(C.Run(Conf(G), c, acts), len) {
        AlwaysIntact(G, c, len, acts);
      }
    } else {
      CeilUnique(G.cap, G.cap, 1);
      var acts := SomeRunSpoils(G, c, G.cap);
      assert !IntactIn(C.Run(Conf(G), c, acts), G.cap);
    }
  }
}
