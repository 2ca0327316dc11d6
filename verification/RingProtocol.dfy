/**
 The ring protocol between one writer and one reader, with unwrapped counters.

 One S2M or M2S ring is seen as `size` cells.  A write and a read are each a series of steps, one
 shared access a step, and a run interleaves the two series in any order.  Position t stands for cell
 t mod size.  `pub` is the writer's index (head in S2M, tail in M2S) and `lim` is where the cells that
 the writer may use end (tail + size in S2M, head in M2S).  The reader's `last` is its private copy.
 */
module RingProtocol {
  import opened Arith
  import opened Bytes

  type Packet = seq<byte>

  datatype Direction = S2M | M2S

  /**
   cap is the port's PacketBufferSize.  rest tells which part of a packet goes into the slots after the
   first: the front of the packet again, as the code has it, or the rest that is still unsent.
   */
  datatype Params = Params(dir: Direction, size: nat, cap: nat, rest: bool) {
    predicate Valid() { 0 < size && 0 < cap }

    /** Refilled descriptors carry the whole of cap: a 16-bit store is not lossy. */
    predicate Regular() { Valid() && (dir == S2M || cap < TWO16) }
  }

  /** The flags and length of a descriptor and the buffer it points to. */
  datatype Cell = Cell(next: bool, len: nat, data: seq<byte>)

  /** A packet as it went over the ring: the piece put in each slot, and what the free slots offered at the start. */
  datatype Sent = Sent(pkt: Packet, chunks: seq<seq<byte>>, rooms: seq<nat>)

  datatype Job = Job(slot: nat, left: nat, sent: Sent)

  datatype Writer =
    | WIdle
    | WGet(job: Job)
    | WCopy(job: Job, room: nat)
    | WPut(job: Job, room: nat)
    | WPub(job: Job)

  /** `space` is the length of the caller's buffer. */
  datatype Reader =
    | RIdle(last: nat)
    | RGet(last: nat, slot: nat, left: nat, acc: seq<byte>, space: nat)
    | RCopy(last: nat, slot: nat, left: nat, acc: seq<byte>, space: nat, next: bool, len: nat)
    | RRefill(last: nat, head: nat)
    | RShort(last: nat)

  /** returned counts the reads that have returned, refilled the descriptors whose length was restored. */
  datatype State = State(
    cells: seq<Cell>, pub: nat, lim: nat, w: Writer, r: Reader,
    accepted: seq<Sent>, rejected: seq<Sent>, delivered: seq<Packet>, incomplete: bool,
    returned: nat, refilled: nat)

  datatype Action = StartWrite(pkt: Packet) | StepWrite | StartRead(space: nat) | StepRead

  // ---- the steps

  function At(P: Params, t: nat): (i: nat)
    requires P.Valid()
    ensures i < P.size
  {
    Wrap(t, P.size)
  }

  function Prefix(s: seq<byte>, n: nat): seq<byte> { s[..Min(n, |s|)] }

  function Overlay(s: seq<byte>, t: seq<byte>): (r: seq<byte>)
    ensures |r| == |s|
  {
    if |t| <= |s| then t + s[|t|..] else s
  }

  function Total(chunks: seq<seq<byte>>): nat {
    if chunks == [] then 0 else Total(chunks[..|chunks| - 1]) + |chunks[|chunks| - 1]|
  }

  function Concat(chunks: seq<seq<byte>>): seq<byte> {
    if chunks == [] then [] else Concat(chunks[..|chunks| - 1]) + chunks[|chunks| - 1]
  }

  /** What the next copy starts from. */
  function Source(rest: bool, pkt: Packet, n: nat): Packet {
    if rest then pkt[Min(n, |pkt|)..] else pkt
  }

  /** The piece that goes into a slot with that much room. */
  function Piece(P: Params, x: Sent, room: nat): seq<byte> {
    Prefix(Source(P.rest, x.pkt, Total(x.chunks)), room)
  }

  /** What a store of the low 16 bits of v leaves in a 32-bit field that held old. */
  function Low16(old_: nat, v: nat): nat { old_ / TWO16 * TWO16 + v % TWO16 }

  ghost predicate Shaped(P: Params, s: State) { P.Valid() && |s.cells| == P.size }

  /** How many bytes a writer will put into the cell at t: a server goes by the descriptor, a client by its own setting. */
  function Offer(P: Params, cells: seq<Cell>, t: nat): nat
    requires P.Valid() && |cells| == P.size
  {
    if P.dir.S2M? then P.cap else cells[At(P, t)].len
  }

  function Offers(P: Params, cells: seq<Cell>, base: nat, n: nat): (rooms: seq<nat>)
    requires P.Valid() && |cells| == P.size
    ensures |rooms| == n && forall k :: 0 <= k < n ==> rooms[k] == Offer(P, cells, base + k)
  {
    if n == 0 then [] else Offers(P, cells, base, n - 1) + [Offer(P, cells, base + n - 1)]
  }

  ghost predicate AreOffers(P: Params, cells: seq<Cell>, base: nat, rooms: seq<nat>)
    requires P.Valid() && |cells| == P.size
  {
    forall k :: 0 <= k < |rooms| ==> rooms[k] == Offer(P, cells, base + k)
  }

  lemma OffersAre(P: Params, cells: seq<Cell>, base: nat, rooms: seq<nat>)
    requires P.Valid() && |cells| == P.size && AreOffers(P, cells, base, rooms)
    ensures rooms == Offers(P, cells, base, |rooms|)
  {
  }

  function BeginWrite(P: Params, s: State, pkt: Packet): (s': State)
    requires Shaped(P, s)
    ensures Shaped(P, s')
  {
    if s.lim <= s.pub then s.(rejected := s.rejected + [Sent(pkt, [], [])])
    else s.(w := WGet(Job(s.pub, s.lim - s.pub, Sent(pkt, [], Offers(P, s.cells, s.pub, s.lim - s.pub)))))
  }

  function WriteStep(P: Params, s: State): (s': State)
    requires Shaped(P, s)
    ensures Shaped(P, s')
  {
    match s.w
    case WIdle => s
    case WGet(j) =>
      s.(w := WCopy(j, Offer(P, s.cells, j.slot)))
    case WCopy(j, room) =>
      var i := At(P, j.slot);
      var c := s.cells[i];
      s.(cells := s.cells[i := c.(data := Overlay(c.data, Piece(P, j.sent, room)))], w := WPut(j, room))
    case WPut(j, room) =>
      var i := At(P, j.slot);
      var chunk := Piece(P, j.sent, room);
      var sent := j.sent.(chunks := j.sent.chunks + [chunk]);
      if Total(sent.chunks) < |sent.pkt| then
        if j.left <= 1 then s.(w := WIdle, rejected := s.rejected + [sent])
        else s.(cells := s.cells[i := s.cells[i].(next := true, len := |chunk|)],
                w := WGet(Job(j.slot + 1, j.left - 1, sent)))
      else
        s.(cells := s.cells[i := s.cells[i].(next := false, len := |chunk|)],
           w := WPub(Job(j.slot + 1, j.left, sent)))
    case WPub(j) =>
      s.(pub := j.slot, w := WIdle, accepted := s.accepted + [j.sent])
  }

  function EnterRefill(P: Params, s: State, last: nat): State {
    s.(r := RRefill(last, if P.dir.S2M? then last + P.size else s.lim))
  }

  function BeginRead(P: Params, s: State, space: nat): State {
    if s.pub <= s.r.last then EnterRefill(P, s, s.r.last)
    else s.(r := RGet(s.r.last, s.r.last, s.pub - s.r.last, [], space))
  }

  function ReadStep(P: Params, s: State): (s': State)
    requires Shaped(P, s)
    ensures Shaped(P, s')
  {
    match s.r
    case RIdle(_) => s
    case RShort(_) => s
    case RGet(last, slot, left, acc, space) =>
      var c := s.cells[At(P, slot)];
      s.(r := RCopy(last, slot, left, acc, space, c.next, c.len))
    case RCopy(last, slot, left, acc, space, next, len) =>
      if |acc| > space then s.(r := RShort(last))
      else
        var acc' := acc + Prefix(s.cells[At(P, slot)].data, len);
        if !next then EnterRefill(P, s.(delivered := s.delivered + [acc']), slot + 1)
        else if left <= 1 then s.(r := RIdle(last), incomplete := true)
        else s.(r := RGet(last, slot + 1, left - 1, acc', space))
    case RRefill(last, head) =>
      if head < last + P.size then
        var i := At(P, head);
        s.(cells := s.cells[i := s.cells[i].(len := Low16(s.cells[i].len, P.cap))], r := RRefill(last, head + 1),
           refilled := s.refilled + 1)
      else
        s.(lim := head, r := RIdle(last), returned := s.returned + 1)
  }

  /** A call can start only when the previous call of that peer has returned. */
  function Step(P: Params, s: State, a: Action): (s': State)
    requires Shaped(P, s)
    ensures Shaped(P, s')
  {
    match a
    case StartWrite(pkt) => if s.w.WIdle? then BeginWrite(P, s, pkt) else s
    case StepWrite => WriteStep(P, s)
    case StartRead(space) => if s.r.RIdle? then BeginRead(P, s, space) else s
    case StepRead => ReadStep(P, s)
  }

  /** The same action n times. */
  function Times<T>(a: T, n: nat): (acts: seq<T>)
    ensures |acts| == n && forall i :: 0 <= i < n ==> acts[i] == a
  {
    if n == 0 then [] else Times(a, n - 1) + [a]
  }

  function Run(P: Params, s: State, acts: seq<Action>): (s': State)
    requires Shaped(P, s)
    ensures Shaped(P, s')
    decreases |acts|
  {
    if acts == [] then s else Step(P, Run(P, s, acts[..|acts| - 1]), acts[|acts| - 1])
  }

  /** A freshly initialised ring: every descriptor offers cap bytes, both indices are 0. */
  ghost predicate Initial(P: Params, s: State) {
    && P.Valid() && |s.cells| == P.size
    && (forall i :: 0 <= i < P.size ==> s.cells[i].len == P.cap && |s.cells[i].data| == P.cap)
    && s.pub == 0 && s.lim == (if P.dir.S2M? then P.size else 0)
    && s.w == WIdle && s.r == RIdle(0)
    && s.accepted == [] && s.rejected == [] && s.delivered == [] && !s.incomplete
    && s.returned == 0 && s.refilled == 0
  }

  // ---- what the cells hold

  datatype Content = Content(chunk: seq<byte>, next: bool)

  ghost predicate Holds(c: Cell, x: Content) {
    && c.next == x.next && c.len == |x.chunk| <= |c.data|
    && c.data[..|x.chunk|] == x.chunk
  }

  /** The chain of a packet; `more` when its last piece is still to come. */
  ghost function Tagged(chunks: seq<seq<byte>>, more: bool): (f: seq<Content>)
    ensures |f| == |chunks|
  {
    seq(|chunks|, i requires 0 <= i < |chunks| => Content(chunks[i], i < |chunks| - 1 || more))
  }

  ghost function Flat(ps: seq<Sent>): seq<Content> {
    if ps == [] then [] else Tagged(ps[0].chunks, false) + Flat(ps[1..])
  }

  ghost predicate Match(P: Params, cells: seq<Cell>, base: nat, f: seq<Content>)
    requires P.Valid() && |cells| == P.size
  {
    forall i :: 0 <= i < |f| ==> Holds(cells[At(P, base + i)], f[i])
  }

  lemma AtDistinct(P: Params, a: nat, b: nat)
    requires P.Valid() && a < b < a + P.size
    ensures At(P, a) != At(P, b)
  {
    WrapIsMod(a, P.size);
    WrapIsMod(b, P.size);
    ModDistinct(a, b, P.size);
  }

  /** A store at position t leaves alone what a window of positions around it holds. */
  lemma MatchFrame(P: Params, cells: seq<Cell>, base: nat, f: seq<Content>, t: nat, c: Cell)
    requires P.Valid() && |cells| == P.size && Match(P, cells, base, f)
    requires base + |f| <= t < base + P.size
    ensures Match(P, cells[At(P, t) := c], base, f)
  {
    forall i | 0 <= i < |f| ensures Holds(cells[At(P, t) := c][At(P, base + i)], f[i]) {
      AtDistinct(P, base + i, t);
    }
  }

  lemma MatchConcat(P: Params, cells: seq<Cell>, base: nat, f: seq<Content>, g: seq<Content>)
    requires P.Valid() && |cells| == P.size
    requires Match(P, cells, base, f) && Match(P, cells, base + |f|, g)
    ensures Match(P, cells, base, f + g)
  {
    forall i | 0 <= i < |f + g| ensures Holds(cells[At(P, base + i)], (f + g)[i]) {
      if i >= |f| {
        assert base + i == base + |f| + (i - |f|) && (f + g)[i] == g[i - |f|];
      }
    }
  }

  lemma MatchDrop(P: Params, cells: seq<Cell>, base: nat, f: seq<Content>, g: seq<Content>)
    requires P.Valid() && |cells| == P.size && Match(P, cells, base, f + g)
    ensures Match(P, cells, base + |f|, g)
  {
    forall i | 0 <= i < |g| ensures Holds(cells[At(P, base + |f| + i)], g[i]) {
      assert g[i] == (f + g)[|f| + i] && base + |f| + i == base + (|f| + i);
    }
  }

  lemma {:induction false} FlatAppend(ps: seq<Sent>, p: Sent)
    ensures Flat(ps + [p]) == Flat(ps) + Tagged(p.chunks, false)
  {
    if ps == [] {
      assert [p][1..] == [];
    } else {
      assert (ps + [p])[1..] == ps[1..] + [p];
      FlatAppend(ps[1..], p);
    }
  }

  // ---- the invariant

  ghost predicate Window(P: Params, s: State) {
    s.r.last <= s.pub <= s.lim <= s.r.last + P.size
  }

  ghost predicate CellsOk(P: Params, s: State) {
    |s.cells| == P.size && forall i :: 0 <= i < P.size ==> |s.cells[i].data| == P.cap && s.cells[i].len <= P.cap
  }

  ghost function Undelivered(s: State): seq<Sent>
    requires |s.delivered| <= |s.accepted|
  {
    s.accepted[|s.delivered|..]
  }

  /** Between last and pub lie exactly the chains of the packets not yet delivered, in order. */
  ghost predicate QueueOk(P: Params, s: State)
    requires Shaped(P, s)
  {
    && |s.delivered| <= |s.accepted|
    && |Flat(Undelivered(s))| == s.pub - s.r.last
    && Match(P, s.cells, s.r.last, Flat(Undelivered(s)))
    && (forall i :: 0 <= i < |s.delivered| ==> s.delivered[i] == Concat(s.accepted[i].chunks))
  }

  /** The pieces sent so far: fronts of the packet, or a front of it cut up. */
  ghost predicate Pieces(P: Params, x: Sent) {
    if P.rest then Concat(x.chunks) <= x.pkt else forall i :: 0 <= i < |x.chunks| ==> x.chunks[i] <= x.pkt
  }

  /** A packet that was accepted: its pieces cover it, and the last piece was needed. */
  ghost predicate SentOk(P: Params, x: Sent) {
    && Pieces(P, x) && 1 <= |x.chunks| <= |x.rooms| && Total(x.chunks) >= |x.pkt|
    && (|x.chunks| > 1 ==> Total(x.chunks[..|x.chunks| - 1]) < |x.pkt|)
  }

  /** A packet that was turned away: every free slot was used and did not suffice. */
  ghost predicate RejectOk(P: Params, x: Sent) {
    Pieces(P, x) && |x.chunks| == |x.rooms| && (x.rooms != [] ==> Total(x.chunks) < |x.pkt|)
  }

  ghost predicate HistoryOk(P: Params, s: State) {
    && (forall i :: 0 <= i < |s.accepted| ==> SentOk(P, s.accepted[i]))
    && (forall i :: 0 <= i < |s.rejected| ==> RejectOk(P, s.rejected[i]))
  }

  /** A write under way: the cells from pub on hold the pieces sent so far, each marked NEXT. */
  ghost predicate JobOk(P: Params, s: State, j: Job)
    requires Shaped(P, s)
  {
    && j.slot == s.pub + |j.sent.chunks| && 1 <= j.left && j.slot + j.left <= s.lim
    && |j.sent.chunks| + j.left == |j.sent.rooms|
    && Pieces(P, j.sent)
    && (|j.sent.chunks| > 0 ==> Total(j.sent.chunks) < |j.sent.pkt|)
    && Match(P, s.cells, s.pub, Tagged(j.sent.chunks, true))
  }

  ghost predicate WriterOk(P: Params, s: State)
    requires Shaped(P, s)
  {
    match s.w
    case WIdle => true
    case WGet(j) => JobOk(P, s, j)
    case WCopy(j, room) =>
      JobOk(P, s, j) && room <= P.cap && (P.dir.M2S? ==> room == s.cells[At(P, j.slot)].len)
    case WPut(j, room) =>
      && JobOk(P, s, j) && room <= P.cap && (P.dir.M2S? ==> room == s.cells[At(P, j.slot)].len)
      && Piece(P, j.sent, room) <= s.cells[At(P, j.slot)].data
    case WPub(j) =>
      && j.slot == s.pub + |j.sent.chunks| <= s.lim
      && SentOk(P, j.sent)
      && Match(P, s.cells, s.pub, Tagged(j.sent.chunks, false))
  }

  /** A read under way is inside the first undelivered chain, all of which its snapshot covers. */
  ghost predicate ReadingOk(s: State, last: nat, slot: nat, left: nat, acc: seq<byte>) {
    && |s.delivered| < |s.accepted|
    && var chunks := s.accepted[|s.delivered|].chunks;
    && last <= slot < last + |chunks| <= slot + left <= s.pub
    && acc == Concat(chunks[..slot - last])
  }

  /** The reader has given back every slot it consumed (or, in M2S, has not read yet). */
  ghost predicate AllReturned(P: Params, s: State) {
    s.lim == s.r.last + P.size || (P.dir.M2S? && s.lim == 0 && s.r.last == 0 && s.returned == 0)
  }

  ghost predicate ReaderOk(P: Params, s: State)
    requires Shaped(P, s)
  {
    match s.r
    case RIdle(last) => AllReturned(P, s)
    case RShort(last) => AllReturned(P, s)
    case RGet(last, slot, left, acc, space) => AllReturned(P, s) && ReadingOk(s, last, slot, left, acc)
    case RCopy(last, slot, left, acc, space, next, len) =>
      && AllReturned(P, s) && ReadingOk(s, last, slot, left, acc)
      && next == s.cells[At(P, slot)].next && len == s.cells[At(P, slot)].len
    case RRefill(last, head) =>
      s.lim <= head <= last + P.size && (P.dir.S2M? ==> head == last + P.size)
  }

  /**
   Consumed slots are those of the delivered packets; in M2S position k is the k-th to be refilled, and
   nothing is offered before a read has returned.
   */
  ghost predicate CountsOk(P: Params, s: State) {
    && |s.delivered| <= |s.accepted| && |Flat(s.accepted[..|s.delivered|])| == s.r.last
    && s.refilled == (if P.dir.S2M? then 0 else if s.r.RRefill? then s.r.head else s.lim)
    && (P.dir.M2S? && s.returned == 0 ==> s.lim == 0)
  }

  ghost predicate Inv(P: Params, s: State) {
    && P.Valid() && CellsOk(P, s)
    && Window(P, s) && QueueOk(P, s) && HistoryOk(P, s) && WriterOk(P, s) && ReaderOk(P, s)
    && CountsOk(P, s) && !s.incomplete
  }

  lemma InitialInv(P: Params, s: State)
    requires Initial(P, s)
    ensures Inv(P, s)
  {
    assert Undelivered(s) == [];
  }

  /** Where the two peers stand: what is needed to tell which cells a step may touch. */
  ghost predicate Placed(P: Params, s: State) {
    && Shaped(P, s) && Window(P, s)
    && (s.w.WGet? || s.w.WCopy? || s.w.WPut? ==>
          var x := s.w.job.sent; s.w.job.slot == s.pub + |x.chunks| && |x.chunks| < |x.rooms| <= s.lim - s.pub)
    && (s.w.WPub? ==> s.pub <= s.w.job.slot <= s.lim)
    && (s.r.RGet? || s.r.RCopy? ==> s.r.last <= s.r.slot < s.pub)
    && (s.r.RRefill? ==> s.lim <= s.r.head <= s.r.last + P.size)
    && (forall i :: 0 <= i < P.size ==> s.cells[i].len <= P.cap)
  }

  lemma InvPlaced(P: Params, s: State)
    requires Inv(P, s)
    ensures Placed(P, s)
  {
  }

  // ---- every step keeps it

  lemma TaggedAppend(chunks: seq<seq<byte>>, c: seq<byte>, more: bool)
    ensures Tagged(chunks + [c], more) == Tagged(chunks, true) + [Content(c, more)]
  {
  }

  lemma TotalAppend(chunks: seq<seq<byte>>, c: seq<byte>)
    ensures Total(chunks + [c]) == Total(chunks) + |c|
    ensures Concat(chunks + [c]) == Concat(chunks) + c
  {
    assert (chunks + [c])[..|chunks|] == chunks;
  }

  lemma PutMoreIs(P: Params, a: State, chunk: seq<byte>)
    requires Shaped(P, a) && a.w.WPut? && 1 < a.w.job.left && chunk == Piece(P, a.w.job.sent, a.w.room)
    requires Total(a.w.job.sent.chunks) + |chunk| < |a.w.job.sent.pkt|
    ensures var j, i := a.w.job, At(P, a.w.job.slot);
            WriteStep(P, a) == a.(cells := a.cells[i := a.cells[i].(next := true, len := |chunk|)],
              w := WGet(Job(j.slot + 1, j.left - 1, j.sent.(chunks := j.sent.chunks + [chunk]))))
  {
    TotalAppend(a.w.job.sent.chunks, chunk);
  }

  lemma PutLastIs(P: Params, a: State, chunk: seq<byte>)
    requires Shaped(P, a) && a.w.WPut? && chunk == Piece(P, a.w.job.sent, a.w.room)
    requires Total(a.w.job.sent.chunks) + |chunk| >= |a.w.job.sent.pkt|
    ensures var j, i := a.w.job, At(P, a.w.job.slot);
            WriteStep(P, a) == a.(cells := a.cells[i := a.cells[i].(next := false, len := |chunk|)],
              w := WPub(Job(j.slot + 1, j.left, j.sent.(chunks := j.sent.chunks + [chunk]))))
  {
    TotalAppend(a.w.job.sent.chunks, chunk);
  }

  /** A piece that does not finish the packet fills its slot. */
  lemma PieceFills(P: Params, x: Sent, room: nat)
    requires Total(x.chunks) + |Piece(P, x, room)| < |x.pkt|
    ensures |Piece(P, x, room)| == room
  {
  }

  /** Queue and reader survive a store at a position the writer owns. */
  lemma WriterStore(P: Params, s: State, t: nat, c: Cell, s': State)
    requires Inv(P, s) && s.pub <= t < s.lim
    requires |c.data| == P.cap && c.len <= P.cap
    requires s' == s.(cells := s.cells[At(P, t) := c], w := s'.w)
    ensures CellsOk(P, s') && Window(P, s') && QueueOk(P, s') && HistoryOk(P, s') && ReaderOk(P, s')
  {
    MatchFrame(P, s.cells, s.r.last, Flat(Undelivered(s)), t, c);
    if s.r.RCopy? {
      AtDistinct(P, s.r.slot, t);
    }
  }

  lemma WriteCopyKeeps(P: Params, s: State)
    requires Inv(P, s) && s.w.WCopy?
    ensures Inv(P, WriteStep(P, s))
  {
    var j := s.w.job;
    var c := s.cells[At(P, j.slot)];
    var d := c.(data := Overlay(c.data, Piece(P, j.sent, s.w.room)));
    WriterStore(P, s, j.slot, d, WriteStep(P, s));
    MatchFrame(P, s.cells, s.pub, Tagged(j.sent.chunks, true), j.slot, d);
  }

  /** Putting the next piece extends the chain by one cell. */
  lemma PutExtends(P: Params, cells: seq<Cell>, base: nat, chunks: seq<seq<byte>>, chunk: seq<byte>, more: bool)
    requires P.Valid() && |cells| == P.size && Match(P, cells, base, Tagged(chunks, true)) && |chunks| < P.size
    requires chunk <= cells[At(P, base + |chunks|)].data
    ensures var i := At(P, base + |chunks|);
            Match(P, cells[i := cells[i].(next := more, len := |chunk|)], base, Tagged(chunks + [chunk], more))
  {
    var t := base + |chunks|;
    var d := cells[At(P, t)].(next := more, len := |chunk|);
    MatchFrame(P, cells, base, Tagged(chunks, true), t, d);
    TaggedAppend(chunks, chunk, more);
    MatchConcat(P, cells[At(P, t) := d], base, Tagged(chunks, true), [Content(chunk, more)]);
  }

  lemma {:induction false} ConcatLength(chunks: seq<seq<byte>>)
    ensures |Concat(chunks)| == Total(chunks)
    decreases |chunks|
  {
    if chunks != [] { ConcatLength(chunks[..|chunks| - 1]); }
  }

  /** One more piece of the packet. */
  lemma PieceExtends(P: Params, x: Sent, room: nat)
    requires Pieces(P, x)
    ensures Pieces(P, x.(chunks := x.chunks + [Piece(P, x, room)]))
  {
    ConcatLength(x.chunks);
    TotalAppend(x.chunks, Piece(P, x, room));
  }

  lemma PutRecord(P: Params, s: State, sent: Sent)
    requires Inv(P, s) && s.w.WPut?
    requires sent == s.w.job.sent.(chunks := s.w.job.sent.chunks + [Piece(P, s.w.job.sent, s.w.room)])
    ensures Pieces(P, sent) && sent.chunks[..|sent.chunks| - 1] == s.w.job.sent.chunks
    ensures Total(sent.chunks) >= |sent.pkt| ==> SentOk(P, sent)
  {
    PieceExtends(P, s.w.job.sent, s.w.room);
    assert sent.chunks[..|sent.chunks| - 1] == s.w.job.sent.chunks;
  }

  lemma PutMoreWriter(P: Params, s: State, sent: Sent, s': State)
    requires Shaped(P, s) && WriterOk(P, s) && s.w.WPut? && s.lim <= s.pub + P.size && Pieces(P, sent)
    requires sent == s.w.job.sent.(chunks := s.w.job.sent.chunks + [Piece(P, s.w.job.sent, s.w.room)])
    requires Total(sent.chunks) < |sent.pkt| && 1 < s.w.job.left && Shaped(P, s') && s'.pub == s.pub && s'.lim == s.lim
    requires s'.w == WGet(Job(s.w.job.slot + 1, s.w.job.left - 1, sent))
    requires Match(P, s'.cells, s.pub, Tagged(sent.chunks, true))
    ensures WriterOk(P, s')
  {
  }

  lemma PutLastWriter(P: Params, s: State, sent: Sent, s': State)
    requires Shaped(P, s) && WriterOk(P, s) && s.w.WPut? && SentOk(P, sent)
    requires sent == s.w.job.sent.(chunks := s.w.job.sent.chunks + [Piece(P, s.w.job.sent, s.w.room)])
    requires Shaped(P, s') && s'.pub == s.pub && s'.lim == s.lim
    requires s'.w == WPub(Job(s.w.job.slot + 1, s.w.job.left, sent))
    requires Match(P, s'.cells, s.pub, Tagged(sent.chunks, false))
    ensures WriterOk(P, s')
  {
  }

  /** The step that puts a descriptor, on everything but the writer. */
  lemma PutStep(P: Params, s: State, more: bool, d: Cell, s': State)
    requires Inv(P, s) && s.w.WPut?
    requires d == s.cells[At(P, s.w.job.slot)].(next := more, len := |Piece(P, s.w.job.sent, s.w.room)|)
    requires s' == s.(cells := s.cells[At(P, s.w.job.slot) := d], w := s'.w)
    requires WriterOk(P, s')
    ensures Inv(P, s')
  {
    WriterStore(P, s, s.w.job.slot, d, s');
  }

  /** The chain with the piece just put. */
  lemma PutMatch(P: Params, s: State, chunk: seq<byte>, more: bool, d: Cell, cells: seq<Cell>)
    requires Shaped(P, s) && WriterOk(P, s) && s.w.WPut? && s.lim <= s.pub + P.size
    requires chunk == Piece(P, s.w.job.sent, s.w.room)
    requires d == s.cells[At(P, s.w.job.slot)].(next := more, len := |chunk|)
    requires cells == s.cells[At(P, s.w.job.slot) := d]
    ensures Match(P, cells, s.pub, Tagged(s.w.job.sent.chunks + [chunk], more))
  {
    PutExtends(P, s.cells, s.pub, s.w.job.sent.chunks, chunk, more);
  }

  lemma PutMoreKeeps(P: Params, s: State, chunk: seq<byte>, sent: Sent, d: Cell, s': State)
    requires Inv(P, s) && s.w.WPut? && s.w.job.left > 1 && chunk == Piece(P, s.w.job.sent, s.w.room)
    requires sent == s.w.job.sent.(chunks := s.w.job.sent.chunks + [chunk]) && Total(sent.chunks) < |sent.pkt|
    requires Pieces(P, sent) && d == s.cells[At(P, s.w.job.slot)].(next := true, len := |chunk|)
    requires s' == s.(cells := s.cells[At(P, s.w.job.slot) := d], w := WGet(Job(s.w.job.slot + 1, s.w.job.left - 1, sent)))
    ensures Inv(P, s')
  {
    PutMatch(P, s, chunk, true, d, s'.cells);
    PutMoreWriter(P, s, sent, s');
    PutStep(P, s, true, d, s');
  }

  lemma PutLastKeeps(P: Params, s: State, chunk: seq<byte>, sent: Sent, d: Cell, s': State)
    requires Inv(P, s) && s.w.WPut? && chunk == Piece(P, s.w.job.sent, s.w.room)
    requires sent == s.w.job.sent.(chunks := s.w.job.sent.chunks + [chunk]) && SentOk(P, sent)
    requires d == s.cells[At(P, s.w.job.slot)].(next := false, len := |chunk|)
    requires s' == s.(cells := s.cells[At(P, s.w.job.slot) := d], w := WPub(Job(s.w.job.slot + 1, s.w.job.left, sent)))
    ensures Inv(P, s')
  {
    PutMatch(P, s, chunk, false, d, s'.cells);
    PutLastWriter(P, s, sent, s');
    PutStep(P, s, false, d, s');
  }

  lemma PutRefusedIs(P: Params, s: State, sent: Sent)
    requires Shaped(P, s) && s.w.WPut? && s.w.job.left <= 1 && Total(sent.chunks) < |sent.pkt|
    requires sent == s.w.job.sent.(chunks := s.w.job.sent.chunks + [Piece(P, s.w.job.sent, s.w.room)])
    ensures WriteStep(P, s) == s.(w := WIdle, rejected := s.rejected + [sent])
  {
  }

  lemma PutRefusedKeeps(P: Params, s: State, sent: Sent)
    requires Inv(P, s) && s.w.WPut? && s.w.job.left <= 1 && Total(sent.chunks) < |sent.pkt| && Pieces(P, sent)
    requires sent == s.w.job.sent.(chunks := s.w.job.sent.chunks + [Piece(P, s.w.job.sent, s.w.room)])
    ensures Inv(P, WriteStep(P, s))
  {
    PutRefusedIs(P, s, sent);
  }

  lemma WritePutKeeps(P: Params, s: State)
    requires Inv(P, s) && s.w.WPut?
    ensures Inv(P, WriteStep(P, s))
  {
    var chunk, c := Piece(P, s.w.job.sent, s.w.room), s.cells[At(P, s.w.job.slot)];
    var sent := s.w.job.sent.(chunks := s.w.job.sent.chunks + [chunk]);
    PutRecord(P, s, sent);
    TotalAppend(s.w.job.sent.chunks, chunk);
    if Total(sent.chunks) >= |sent.pkt| {
      PutLastIs(P, s, chunk);
      PutLastKeeps(P, s, chunk, sent, c.(next := false, len := |chunk|), WriteStep(P, s));
    } else if s.w.job.left > 1 {
      PutMoreIs(P, s, chunk);
      PutMoreKeeps(P, s, chunk, sent, c.(next := true, len := |chunk|), WriteStep(P, s));
    } else {
      PutRefusedKeeps(P, s, sent);
    }
  }

  lemma PublishKeepsQueue(P: Params, s: State, sent: Sent, s': State)
    requires Shaped(P, s) && QueueOk(P, s) && s.r.last <= s.pub && Match(P, s.cells, s.pub, Tagged(sent.chunks, false))
    requires s' == s.(pub := s.pub + |sent.chunks|, w := WIdle, accepted := s.accepted + [sent])
    ensures QueueOk(P, s') && s'.accepted[..|s.delivered|] == s.accepted[..|s.delivered|]
  {
    assert Undelivered(s') == Undelivered(s) + [sent];
    FlatAppend(Undelivered(s), sent);
    MatchConcat(P, s.cells, s.r.last, Flat(Undelivered(s)), Tagged(sent.chunks, false));
  }

  lemma WritePubKeeps(P: Params, s: State)
    requires Inv(P, s) && s.w.WPub?
    ensures Inv(P, WriteStep(P, s))
  {
    PublishKeepsQueue(P, s, s.w.job.sent, WriteStep(P, s));
  }

  lemma ConcatNext(chunks: seq<seq<byte>>, j: nat)
    requires j < |chunks|
    ensures Concat(chunks[..j + 1]) == Concat(chunks[..j]) + chunks[j]
  {
    assert chunks[..j + 1] == chunks[..j] + [chunks[j]];
    TotalAppend(chunks[..j], chunks[j]);
  }

  lemma FirstChain(P: Params, cells: seq<Cell>, base: nat, u: seq<Sent>, j: nat)
    requires P.Valid() && |cells| == P.size && u != [] && Match(P, cells, base, Flat(u)) && j < |u[0].chunks|
    ensures Holds(cells[At(P, base + j)], Content(u[0].chunks[j], j < |u[0].chunks| - 1))
  {
    assert Flat(u)[j] == Tagged(u[0].chunks, false)[j];
  }

  /** The cell being read is the next piece of the first undelivered packet. */
  lemma CellBeingRead(P: Params, s: State)
    requires Inv(P, s) && s.r.RCopy?
    ensures var chunks, j, c := s.accepted[|s.delivered|].chunks, s.r.slot - s.r.last, s.cells[At(P, s.r.slot)];
            && s.r.next == (j < |chunks| - 1) && Prefix(c.data, s.r.len) == chunks[j]
            && Concat(chunks[..j + 1]) == s.r.acc + chunks[j]
  {
    var j := s.r.slot - s.r.last;
    assert Undelivered(s)[0] == s.accepted[|s.delivered|];
    FirstChain(P, s.cells, s.r.last, Undelivered(s), j);
    ConcatNext(s.accepted[|s.delivered|].chunks, j);
  }

  lemma DeliverKeepsQueue(P: Params, s: State, s': State)
    requires Shaped(P, s) && QueueOk(P, s) && |s.delivered| < |s.accepted|
    requires s' == s.(r := s'.r, delivered := s.delivered + [Concat(s.accepted[|s.delivered|].chunks)])
    requires s'.r.last == s.r.last + |s.accepted[|s.delivered|].chunks|
    ensures QueueOk(P, s')
  {
    assert Undelivered(s') == Undelivered(s)[1..];
    MatchDrop(P, s.cells, s.r.last, Tagged(Undelivered(s)[0].chunks, false), Flat(Undelivered(s')));
  }

  lemma DeliverCounts(s: State, s': State)
    requires |s.delivered| < |s.accepted| && |Flat(s.accepted[..|s.delivered|])| == s.r.last
    requires s'.accepted == s.accepted && |s'.delivered| == |s.delivered| + 1
    requires s'.r.last == s.r.last + |s.accepted[|s.delivered|].chunks|
    ensures |Flat(s'.accepted[..|s'.delivered|])| == s'.r.last
  {
    var d := |s.delivered|;
    assert s.accepted[..d + 1] == s.accepted[..d] + [s.accepted[d]];
    FlatAppend(s.accepted[..d], s.accepted[d]);
  }

  lemma ReadCopyKeeps(P: Params, s: State)
    requires Inv(P, s) && s.r.RCopy?
    ensures Inv(P, ReadStep(P, s))
  {
    CellBeingRead(P, s);
    if |s.r.acc| <= s.r.space && !s.r.next {
      var chunks := s.accepted[|s.delivered|].chunks;
      assert chunks[..s.r.slot - s.r.last + 1] == chunks;
      DeliverKeepsQueue(P, s, ReadStep(P, s));
      DeliverCounts(s, ReadStep(P, s));
    }
  }

  /** The writer's view survives a store at a position it does not own. */
  lemma ReaderStore(P: Params, s: State, t: nat, c: Cell, s': State)
    requires Placed(P, s) && WriterOk(P, s) && s.lim <= t < s.r.last + P.size
    requires s'.cells == s.cells[At(P, t) := c] && s'.w == s.w && s'.pub == s.pub && s'.lim == s.lim
    ensures WriterOk(P, s')
  {
    if s.w.WPub? {
      MatchFrame(P, s.cells, s.pub, Tagged(s.w.job.sent.chunks, false), t, c);
    } else if !s.w.WIdle? {
      MatchFrame(P, s.cells, s.pub, Tagged(s.w.job.sent.chunks, true), t, c);
      AtDistinct(P, s.w.job.slot, t);
    }
  }

  lemma RefillBelow(len: nat, cap: nat)
    requires len <= cap
    ensures Low16(len, cap) <= cap
  {
  }

  lemma RefillStored(P: Params, s: State, d: Cell, s': State)
    requires Inv(P, s) && s.r.RRefill? && s.r.head < s.r.last + P.size && |d.data| == P.cap && d.len <= P.cap
    requires s' == s.(cells := s.cells[At(P, s.r.head) := d], r := RRefill(s.r.last, s.r.head + 1),
                      refilled := s.refilled + 1)
    ensures Inv(P, s')
  {
    MatchFrame(P, s.cells, s.r.last, Flat(Undelivered(s)), s.r.head, d);
    ReaderStore(P, s, s.r.head, d, s');
  }

  lemma RefillKeeps(P: Params, s: State)
    requires Inv(P, s) && s.r.RRefill?
    ensures Inv(P, ReadStep(P, s))
  {
    var c := s.cells[At(P, s.r.head)];
    if s.r.head < s.r.last + P.size {
      RefillBelow(c.len, P.cap);
      RefillStored(P, s, c.(len := Low16(c.len, P.cap)), ReadStep(P, s));
    }
  }

  lemma BeginReadKeeps(P: Params, s: State, space: nat)
    requires Inv(P, s) && s.r.RIdle?
    ensures Inv(P, BeginRead(P, s, space))
  {
    if s.pub > s.r.last {
      var u := Undelivered(s);
      assert u[0] == s.accepted[|s.delivered|] && SentOk(P, u[0]);
      assert |Flat(u)| == |u[0].chunks| + |Flat(u[1..])|;
      assert u[0].chunks[..0] == [];
    }
  }

  lemma BeginWriteKeeps(P: Params, s: State, pkt: Packet)
    requires Inv(P, s) && s.w.WIdle?
    ensures Inv(P, BeginWrite(P, s, pkt))
  {
  }

  lemma WriteStepKeeps(P: Params, s: State)
    requires Inv(P, s)
    ensures Inv(P, WriteStep(P, s))
  {
    match s.w {
      case WCopy(_, _) => WriteCopyKeeps(P, s);
      case WPut(_, _) => WritePutKeeps(P, s);
      case WPub(_) => WritePubKeeps(P, s);
      case _ =>
    }
  }

  lemma ReadStepKeeps(P: Params, s: State)
    requires Inv(P, s)
    ensures Inv(P, ReadStep(P, s))
  {
    match s.r {
      case RCopy(_, _, _, _, _, _, _) => ReadCopyKeeps(P, s);
      case RRefill(_, _) => RefillKeeps(P, s);
      case _ =>
    }
  }

  lemma StepKeepsInv(P: Params, s: State, a: Action)
    requires Inv(P, s)
    ensures Inv(P, Step(P, s, a))
  {
    match a
    case StartWrite(pkt) => if s.w.WIdle? { BeginWriteKeeps(P, s, pkt); }
    case StepWrite => WriteStepKeeps(P, s);
    case StartRead(space) => if s.r.RIdle? { BeginReadKeeps(P, s, space); }
    case StepRead => ReadStepKeeps(P, s);
  }

  lemma {:induction false} RunKeepsInv(P: Params, s: State, acts: seq<Action>)
    requires Inv(P, s)
    ensures Inv(P, Run(P, s, acts))
    decreases |acts|
  {
    if acts != [] {
      RunKeepsInv(P, s, acts[..|acts| - 1]);
      StepKeepsInv(P, Run(P, s, acts[..|acts| - 1]), acts[|acts| - 1]);
    }
  }

  // ---- safety: who touches which cell

  /** The position that the writer's next step reads or writes, if it is a cell access. */
  ghost predicate WriterTouches(s: State, t: nat) {
    (s.w.WGet? || s.w.WCopy? || s.w.WPut?) && t == s.w.job.slot
  }

  ghost predicate ReaderTouches(P: Params, s: State, t: nat) {
    || ((s.r.RGet? || s.r.RCopy?) && t == s.r.slot)
    || (s.r.RRefill? && s.r.head < s.r.last + P.size && t == s.r.head)
  }

  /** In every reachable state the next accesses of the two peers fall on different cells. */
  lemma NoSharedCell(P: Params, s: State, t: nat, u: nat)
    requires Inv(P, s) && WriterTouches(s, t) && ReaderTouches(P, s, u)
    ensures At(P, t) != At(P, u)
  {
    if u < t { AtDistinct(P, u, t); } else { AtDistinct(P, t, u); }
  }

  /** One step of either peer leaves every published, unconsumed cell as it is. */
  lemma StepKeepsPublished(P: Params, s: State, a: Action, t: nat)
    requires Placed(P, s) && s.r.last <= t < s.pub
    ensures Step(P, s, a).cells[At(P, t)] == s.cells[At(P, t)]
    ensures s.r.last <= Step(P, s, a).r.last && s.pub <= Step(P, s, a).pub
  {
    if a.StepWrite? && (s.w.WCopy? || s.w.WPut?) {
      AtDistinct(P, t, s.w.job.slot);
    } else if a.StepRead? && s.r.RRefill? && s.r.head < s.r.last + P.size {
      AtDistinct(P, t, s.r.head);
    }
  }

  /** Over a whole run a published cell is unchanged for as long as the reader has not consumed it. */
  lemma {:induction false} PublishedIsStable(P: Params, s: State, acts: seq<Action>, t: nat)
    requires Inv(P, s) && s.r.last <= t < s.pub && Run(P, s, acts).r.last <= t
    ensures Run(P, s, acts).cells[At(P, t)] == s.cells[At(P, t)] && t < Run(P, s, acts).pub
    decreases |acts|
  {
    if acts != [] {
      var pre := acts[..|acts| - 1];
      RunKeepsInv(P, s, pre);
      IndicesGrow(P, Run(P, s, pre), acts[|acts| - 1]);
      PublishedIsStable(P, s, pre, t);
      InvPlaced(P, Run(P, s, pre));
      StepKeepsPublished(P, Run(P, s, pre), acts[|acts| - 1], t);
    }
  }

  ghost predicate SameCells(P: Params, s: State, s': State, lo: nat, hi: nat)
    requires Shaped(P, s) && Shaped(P, s')
  {
    forall t :: lo <= t < hi ==> s'.cells[At(P, t)] == s.cells[At(P, t)]
  }

  /** What is published at the start and not consumed at the end is unchanged over the run. */
  lemma UnreadAreStable(P: Params, s: State, acts: seq<Action>, s': State)
    requires Inv(P, s) && s' == Run(P, s, acts)
    ensures Shaped(P, s) && s.r.last <= s'.r.last && SameCells(P, s, s', s'.r.last, s.pub)
  {
    RunGrows(P, s, acts);
    forall t | s'.r.last <= t < s.pub ensures s'.cells[At(P, t)] == s.cells[At(P, t)] {
      PublishedIsStable(P, s, acts, t);
    }
  }

  lemma WriteGrows(P: Params, s: State)
    requires Shaped(P, s) && (s.w.WPub? ==> s.pub <= s.w.job.slot)
    ensures var s' := WriteStep(P, s); s'.r == s.r && s.pub <= s'.pub && s.lim == s'.lim
  {
  }

  lemma ReadGrows(P: Params, s: State)
    requires Shaped(P, s) && (s.r.RCopy? ==> s.r.last <= s.r.slot) && (s.r.RRefill? ==> s.lim <= s.r.head)
    ensures var s' := ReadStep(P, s); s.r.last <= s'.r.last && s.pub == s'.pub && s.lim <= s'.lim
  {
  }

  /** The three counters only grow. */
  lemma IndicesGrow(P: Params, s: State, a: Action)
    requires Inv(P, s)
    ensures var s' := Step(P, s, a); s.r.last <= s'.r.last && s.pub <= s'.pub && s.lim <= s'.lim
  {
    match a
    case StepWrite => WriteGrows(P, s);
    case StepRead => ReadGrows(P, s);
    case _ =>
  }

  lemma {:induction false} RunGrows(P: Params, s: State, acts: seq<Action>)
    requires Inv(P, s)
    ensures s.r.last <= Run(P, s, acts).r.last && s.pub <= Run(P, s, acts).pub && s.lim <= Run(P, s, acts).lim
    decreases |acts|
  {
    if acts != [] {
      var pre := acts[..|acts| - 1];
      RunGrows(P, s, pre);
      RunKeepsInv(P, s, pre);
      IndicesGrow(P, Run(P, s, pre), acts[|acts| - 1]);
    }
  }

  lemma StepAccepts(P: Params, s: State, a: Action)
    requires Shaped(P, s)
    ensures var s' := Step(P, s, a);
            s.accepted <= s'.accepted && (|s'.accepted| == |s.accepted| ==> s'.pub == s.pub)
  {
  }

  /** Over any run the writer's index moves only when a packet is accepted. */
  lemma {:induction false} PublishesOnlyAccepted(P: Params, s: State, acts: seq<Action>)
    requires Shaped(P, s)
    ensures var s' := Run(P, s, acts);
            s.accepted <= s'.accepted && (|s'.accepted| == |s.accepted| ==> s'.pub == s.pub)
    decreases |acts|
  {
    if acts != [] {
      var pre := acts[..|acts| - 1];
      PublishesOnlyAccepted(P, s, pre);
      StepAccepts(P, Run(P, s, pre), acts[|acts| - 1]);
    }
  }

  lemma {:induction false} RunAppend(P: Params, s: State, acts: seq<Action>, more: seq<Action>)
    requires Shaped(P, s)
    ensures Run(P, s, acts + more) == Run(P, Run(P, s, acts), more)
    decreases |more|
  {
    if more == [] {
      assert acts + more == acts;
    } else {
      var n := |more| - 1;
      RunAppend(P, s, acts, more[..n]);
      assert (acts + more)[..|acts + more| - 1] == acts + more[..n];
    }
  }
}
