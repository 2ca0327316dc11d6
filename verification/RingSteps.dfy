/**
 WritePacket and ReadPacket cut into steps over the bytes of the region, one shared access a step,
 with the uint16 indices, the int slot variables and the masks of the code.
 */
module RingSteps {
  import opened Bytes
  import opened RingMemory
  import RingProtocol

  type Packet = RingProtocol.Packet

  /**
   The direction fixes the roles: in S2M the client writes, in M2S the server does.
   The code copies with rest false; rest true is the copy that goes on where the last one ended.
   */
  datatype Config = Config(dir: RingProtocol.Direction, ring: Ring, cap: nat, rest: bool)

  datatype Writer =
    | WDone(n: nat)
    | WGet(slot: nat, nFree: nat, n: nat, pkt: Packet)
    | WCopy(slot: nat, nFree: nat, n: nat, pkt: Packet, desc: seq<byte>, room: nat)
    | WPut(slot: nat, nFree: nat, n: nat, pkt: Packet, desc: seq<byte>)
    | WPub(slot: nat, n: nat, pkt: Packet)
    | WFault
  {
    ghost predicate Valid() { WCopy? || WPut? ==> |desc| == DESC_SIZE }
    predicate Halted() { WDone? || WFault? }
  }

  /** RIncomplete is the error return; RShort is the slice panic of a read buffer that is too short. */
  datatype Reader =
    | RDone(last: nat, off: nat, buf: seq<byte>)
    | RIncomplete(last: nat, buf: seq<byte>)
    | RGet(last: nat, slot: nat, nSlots: nat, off: nat, buf: seq<byte>)
    | RCopy(last: nat, slot: nat, nSlots: nat, off: nat, buf: seq<byte>, desc: seq<byte>)
    | RRefill(last: nat, head: nat, todo: nat, off: nat, buf: seq<byte>)
    | RShort(last: nat, buf: seq<byte>)
    | RFault(buf: seq<byte>)
  {
    ghost predicate Valid() { RCopy? ==> |desc| == DESC_SIZE }
    predicate Returned() { RDone? || RIncomplete? }
    predicate Halted() { Returned() || RShort? || RFault? }
  }

  // ---- WritePacket

  /** The writer's own index. */
  function WriteIndex(q: Config, m: seq<byte>): (v: nat)
    requires q.ring.End() <= |m|
    ensures v < TWO16
  {
    if q.dir.M2S? then ReadTail(q.ring, m) else ReadHead(q.ring, m)
  }

  /** The free slots a writer counts from the two indices in memory, in uint16. */
  function NFree(q: Config, m: seq<byte>): nat
    requires q.ring.End() <= |m|
  {
    if q.dir.M2S? then (ReadHead(q.ring, m) - ReadTail(q.ring, m)) % TWO16
    else (q.ring.Size() - ReadHead(q.ring, m) + ReadTail(q.ring, m)) % TWO16
  }

  /** How many bytes the writer will put into a slot: a server reads it from the descriptor. */
  function Room(q: Config, m: seq<byte>, slot: nat): nat
    requires q.ring.End() <= |m|
  {
    if q.dir.M2S? then Get32(GetDesc(q.ring, m, q.ring.Slot(slot)), DESC_LENGTH) else q.cap
  }

  /** What n slots in a row offer. */
  function Rooms(q: Config, m: seq<byte>, slot: nat, n: nat): (rooms: seq<nat>)
    requires q.ring.End() <= |m|
    ensures |rooms| == n && forall k :: 0 <= k < n ==> rooms[k] == Room(q, m, slot + k)
  {
    if n == 0 then [] else Rooms(q, m, slot, n - 1) + [Room(q, m, slot + n - 1)]
  }

  /** What the free slots offer. */
  function FreeRooms(q: Config, m: seq<byte>): (rooms: seq<nat>)
    requires q.ring.End() <= |m|
    ensures |rooms| == NFree(q, m) && forall k :: 0 <= k < |rooms| ==> rooms[k] == Room(q, m, WriteIndex(q, m) + k)
  {
    Rooms(q, m, WriteIndex(q, m), NFree(q, m))
  }

  function BeginWrite(q: Config, m: seq<byte>, pkt: Packet): Writer
    requires q.ring.End() <= |m|
  {
    if NFree(q, m) == 0 then WDone(0) else WGet(WriteIndex(q, m), NFree(q, m), 0, pkt)
  }

  /** Whether data[offset:offset+room] of the descriptor's region is a legal slice. */
  predicate InRegion(desc: seq<byte>, room: nat, len: nat)
    requires |desc| == DESC_SIZE
  {
    Get16(desc, DESC_REGION) == 0 && Get32(desc, DESC_OFFSET) + room <= len
  }

  function WriteStep(q: Config, m: seq<byte>, w: Writer): (r: (seq<byte>, Writer))
    requires q.ring.End() <= |m| && w.Valid()
    ensures |r.0| == |m| && r.1.Valid()
  {
    match w
    case WDone(_) => (m, w)
    case WFault => (m, w)
    case WGet(slot, nFree, n, pkt) =>
      var got := GetDesc(q.ring, m, q.ring.Slot(slot));
      (m, WCopy(slot, nFree, n, pkt, Put32(Put16(got, DESC_FLAGS, 0), DESC_LENGTH, 0), Room(q, m, slot)))
    case WCopy(slot, nFree, n, pkt, desc, room) =>
      if !InRegion(desc, room, |m|) then (m, WFault)
      else
        var src := RingProtocol.Source(q.rest, pkt, n);
        var t := Min(room, |src|);
        (Splice(m, Get32(desc, DESC_OFFSET), src[..t]),
         WPut(slot, nFree, n + t, pkt, Put32(desc, DESC_LENGTH, t)))
    case WPut(slot, nFree, n, pkt, desc) =>
      if n < |pkt| then
        if nFree <= 1 then (m, WDone(0))
        else (PutDesc(q.ring, m, q.ring.Slot(slot), Put16(desc, DESC_FLAGS, FLAG_NEXT)),
              WGet(slot + 1, nFree - 1, n, pkt))
      else (PutDesc(q.ring, m, q.ring.Slot(slot), desc), WPub(slot + 1, n, pkt))
    case WPub(slot, n, pkt) =>
      (if q.dir.M2S? then WriteTail(q.ring, m, slot) else WriteHead(q.ring, m, slot), WDone(n))
  }

  type WPoint = (seq<byte>, Writer)

  ghost predicate WNext(q: Config, p: WPoint, p': WPoint) {
    q.ring.End() <= |p.0| && p.1.Valid() && p' == WriteStep(q, p.0, p.1)
  }

  /** Memory and writer through a call of WritePacket with nobody else running. */
  ghost predicate WTrace(q: Config, tr: seq<WPoint>) {
    && |tr| > 0 && q.ring.End() <= |tr[0].0| && tr[0].1.Valid()
    && forall i, j :: 0 <= i && j == i + 1 && j < |tr| ==> WNext(q, tr[i], tr[j])
  }

  // ---- ReadPacket

  function BeginRead(q: Config, m: seq<byte>, last: nat, buf: seq<byte>): Reader
    requires q.ring.End() <= |m|
  {
    var lastSlot := if q.dir.S2M? then ReadHead(q.ring, m) else ReadTail(q.ring, m);
    var nSlots := (lastSlot - last) % TWO16;
    if nSlots == 0 then EnterRefill(q, m, last, 0, buf) else RGet(last, last, nSlots, 0, buf)
  }

  function EnterRefill(q: Config, m: seq<byte>, slot: nat, off: nat, buf: seq<byte>): Reader
    requires q.ring.End() <= |m|
  {
    var last := slot % TWO16;
    var head := ReadHead(q.ring, m);
    RRefill(last, head, if q.dir.S2M? then 0 else (q.ring.Size() - head + last) % TWO16, off, buf)
  }

  function ReadStep(q: Config, m: seq<byte>, r: Reader): (s: (seq<byte>, Reader))
    requires q.ring.End() <= |m| && r.Valid()
    ensures |s.0| == |m| && s.1.Valid()
  {
    match r
    case RGet(last, slot, nSlots, off, buf) =>
      (m, RCopy(last, slot, nSlots, off, buf, GetDesc(q.ring, m, q.ring.Slot(slot))))
    case RCopy(last, slot, nSlots, off, buf, desc) =>
      var len := Get32(desc, DESC_LENGTH);
      if off > |buf| then (m, RShort(last, buf))
      else if !InRegion(desc, len, |m|) then (m, RFault(buf))
      else
        var o := Get32(desc, DESC_OFFSET);
        var buf' := Splice(buf, off, m[o..o + Min(|buf| - off, len)]);
        if Get16(desc, DESC_FLAGS) % 2 != 1 then (m, EnterRefill(q, m, slot + 1, off + len, buf'))
        else if nSlots <= 1 then (m, RIncomplete(last, buf'))
        else (m, RGet(last, slot + 1, nSlots - 1, off + len, buf'))
    case RRefill(last, head, todo, off, buf) =>
      if todo > 0 then
        (SetDescLength(q.ring, m, q.ring.Slot(head), q.cap), RRefill(last, head + 1, todo - 1, off, buf))
      else if q.dir.S2M? then (WriteTail(q.ring, m, last), RDone(last, off, buf))
      else (WriteHead(q.ring, m, head), RDone(last, off, buf))
    case _ => (m, r)
  }

  type RPoint = (seq<byte>, Reader)

  ghost predicate RNext(q: Config, p: RPoint, p': RPoint) {
    q.ring.End() <= |p.0| && p.1.Valid() && p' == ReadStep(q, p.0, p.1)
  }

  /** Memory and reader through a call of ReadPacket with nobody else running. */
  ghost predicate RTrace(q: Config, tr: seq<RPoint>) {
    && |tr| > 0 && q.ring.End() <= |tr[0].0| && tr[0].1.Valid()
    && forall i, j :: 0 <= i && j == i + 1 && j < |tr| ==> RNext(q, tr[i], tr[j])
  }

  // ---- both peers on one ring

  /** What ReadPacket handed to its caller: the length it returned and the caller's buffer. */
  datatype Output = Output(n: nat, buf: seq<byte>)

  /** A call of WritePacket: the packet, what the free slots offered at its start, and what it returned. */
  datatype Call = Call(pkt: Packet, rooms: seq<nat>, n: nat)

  /**
   Memory, the two peers, and what has happened: rooms is what the free slots offered at the start of the last
   write, consumed counts the slots of the packets delivered, returned the reads that have returned and
   refilled the descriptors whose length was restored.
   */
  datatype State = State(
    mem: seq<byte>, w: Writer, r: Reader,
    accepted: seq<Call>, rejected: seq<Call>, delivered: seq<Output>, incomplete: bool,
    rooms: seq<nat>, consumed: nat, returned: nat, refilled: nat)

  datatype Action = StartWrite(pkt: Packet) | StepWrite | StartRead(buf: seq<byte>) | StepRead

  ghost predicate Shaped(q: Config, s: State) {
    q.ring.End() <= |s.mem| && s.w.Valid() && s.r.Valid()
  }

  function Step(q: Config, s: State, a: Action): (s': State)
    requires Shaped(q, s)
    ensures Shaped(q, s') && |s'.mem| == |s.mem|
  {
    match a
    case StartWrite(pkt) =>
      if !s.w.WDone? then s
      else
        var w, rooms := BeginWrite(q, s.mem, pkt), FreeRooms(q, s.mem);
        s.(w := w, rooms := rooms, rejected := s.rejected + if w.WDone? then [Call(pkt, rooms, 0)] else [])
    case StepWrite =>
      var t := WriteStep(q, s.mem, s.w);
      s.(mem := t.0, w := t.1,
         accepted := s.accepted + (if s.w.WPub? then [Call(s.w.pkt, s.rooms, s.w.n)] else []),
         rejected := s.rejected + if s.w.WPut? && t.1.WDone? then [Call(s.w.pkt, s.rooms, 0)] else [])
    case StartRead(buf) =>
      if !s.r.Returned() then s else s.(r := BeginRead(q, s.mem, s.r.last, buf))
    case StepRead =>
      var t := ReadStep(q, s.mem, s.r);
      s.(mem := t.0, r := t.1,
         delivered := s.delivered + (if s.r.RCopy? && t.1.RRefill? then [Output(t.1.off, t.1.buf)] else []),
         incomplete := s.incomplete || (s.r.RCopy? && t.1.RIncomplete?),
         consumed := s.consumed + (if s.r.RCopy? && t.1.RRefill? && s.r.last <= s.r.slot then s.r.slot + 1 - s.r.last else 0),
         returned := s.returned + (if s.r.RRefill? && t.1.RDone? then 1 else 0),
         refilled := s.refilled + if s.r.RRefill? && t.1.RRefill? then 1 else 0)
  }

  function Run(q: Config, s: State, acts: seq<Action>): (s': State)
    requires Shaped(q, s)
    ensures Shaped(q, s')
    decreases |acts|
  {
    if acts == [] then s else Step(q, Run(q, s, acts[..|acts| - 1]), acts[|acts| - 1])
  }

  lemma RunOne(q: Config, s: State, acts: seq<Action>, a: Action)
    requires Shaped(q, s)
    ensures Run(q, s, acts + [a]) == Step(q, Run(q, s, acts), a)
  {
    assert (acts + [a])[..|acts|] == acts;
  }

  lemma RunTwo(q: Config, s: State, a: Action, b: Action)
    requires Shaped(q, s)
    ensures Run(q, s, [a, b]) == Step(q, Step(q, s, a), b)
  {
    assert Run(q, s, []) == s;
    RunOne(q, s, [], a);
    RunOne(q, s, [a], b);
    assert [] + [a] == [a] && [a] + [b] == [a, b];
  }

  lemma RunThree(q: Config, s: State, a: Action, b: Action, d: Action)
    requires Shaped(q, s)
    ensures Run(q, s, [a, b, d]) == Step(q, Step(q, Step(q, s, a), b), d)
  {
    RunTwo(q, s, a, b);
    RunOne(q, s, [a, b], d);
    assert [a, b] + [d] == [a, b, d];
  }

  lemma RunTimes(q: Config, s: State, a: Action, n: nat)
    requires Shaped(q, s) && n > 0
    ensures Run(q, s, RingProtocol.Times(a, n)) == Step(q, Run(q, s, RingProtocol.Times(a, n - 1)), a)
  {
    assert RingProtocol.Times(a, n)[..n - 1] == RingProtocol.Times(a, n - 1);
  }

  lemma {:induction false} RunAppend(q: Config, s: State, acts: seq<Action>, more: seq<Action>)
    requires Shaped(q, s)
    ensures Run(q, s, acts + more) == Run(q, Run(q, s, acts), more)
    decreases |more|
  {
    if more == [] {
      assert acts + more == acts;
    } else {
      var n := |more| - 1;
      RunAppend(q, s, acts, more[..n]);
      assert (acts + more)[..|acts + more| - 1] == acts + more[..n];
    }
  }
}
