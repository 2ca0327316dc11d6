/** The queue object: index and descriptor accessors, WritePacket and ReadPacket, in place on the region. */
module PacketProcessing {
  import opened Bytes
  import opened RingMemory
  import RingProtocol
  import opened RingSteps

  /** What ReadPacket can do: return a length, return the error, or panic on a slice bound. */
  datatype ReadResult = Length(n: nat) | BrokenChain | Panic

  /** What WritePacket can do: return a length, or panic on a slice bound. */
  datatype WriteResult = Written(n: nat) | WritePanic

  class Queue {
    const isServer: bool
    const ring: Ring
    const bufferSize: nat
    const data: array<byte>
    var lastHead: nat
    var lastTail: nat

    ghost predicate Valid()
      reads this
    {
      ring.End() <= data.Length && lastHead < TWO16 && lastTail < TWO16
    }

    constructor (isServer: bool, ring: Ring, bufferSize: nat, data: array<byte>)
      requires ring.End() <= data.Length
      ensures Valid() && this.isServer == isServer && this.ring == ring
      ensures this.bufferSize == bufferSize && this.data == data && lastHead == 0 && lastTail == 0
    {
      this.isServer, this.ring, this.bufferSize, this.data := isServer, ring, bufferSize, data;
      lastHead, lastTail := 0, 0;
    }

    /** A server receives on S2M rings and sends on M2S rings; a client the other way round. */
    function TxConfig(): Config {
      Config(if isServer then RingProtocol.M2S else RingProtocol.S2M, ring, bufferSize, false)
    }

    function RxConfig(): Config {
      Config(if isServer then RingProtocol.S2M else RingProtocol.M2S, ring, bufferSize, false)
    }

    /** The index up to which this receiver has consumed. */
    function Last(): nat
      reads this
    {
      if isServer then lastHead else lastTail
    }

    method LoadHead() returns (v: nat)
      requires Valid()
      ensures v == ReadHead(ring, data[..])
    {
      var hi: int := data[ring.offset + HEAD_OFFSET + 1];
      v := data[ring.offset + HEAD_OFFSET] + 0x100 * hi;
    }

    method LoadTail() returns (v: nat)
      requires Valid()
      ensures v == ReadTail(ring, data[..])
    {
      var hi: int := data[ring.offset + TAIL_OFFSET + 1];
      v := data[ring.offset + TAIL_OFFSET] + 0x100 * hi;
    }

    /** getDescBuf */
    method LoadDesc(slot: nat, db: array<byte>)
      requires Valid() && slot < ring.Size() && db.Length == DESC_SIZE && db != data
      modifies db
      ensures db[..] == GetDesc(ring, data[..], slot)
    {
      var o := ring.Desc(slot);
      var n := CopyInto(db, 0, data[o..o + DESC_SIZE]);
    }

    /** putDescBuf */
    method StoreDesc(slot: nat, db: array<byte>)
      requires Valid() && slot < ring.Size() && db.Length == DESC_SIZE && db != data
      modifies data
      ensures data[..] == PutDesc(ring, old(data[..]), slot, db[..])
    {
      ghost var d := db[..];
      var n := CopyInto(data, ring.Desc(slot), db[..]);
      assert d[..n] == d;
    }

    /** Fetches the descriptor of a slot and resets its flags and length. */
    method FetchSlot(slot: nat, desc: array<byte>, ghost pkt: seq<byte>, ghost nFree: nat, ghost n: nat)
      returns (room: nat)
      requires Valid() && desc.Length == DESC_SIZE && desc != data
      modifies desc
      ensures WNext(TxConfig(), (data[..], WGet(slot, nFree, n, pkt)),
                    (data[..], WCopy(slot, nFree, n, pkt, desc[..], room)))
    {
      LoadDesc(ring.Slot(slot), desc);
      ghost var got := desc[..];
      Store16(desc, DESC_FLAGS, 0);
      room := bufferSize;
      if isServer {
        room := Get32(desc[..], DESC_LENGTH);
        KeepsLength(got);
      }
      Store32(desc, DESC_LENGTH, 0);
    }

    /** Copies the front of the packet into the buffer of a fetched descriptor. */
    method CopyIn(desc: array<byte>, room: nat, pkt: seq<byte>, ghost slot: nat, ghost nFree: nat, ghost n: nat)
      returns (ok: bool, t: nat)
      requires Valid() && desc.Length == DESC_SIZE && desc != data
      modifies data, desc
      ensures WNext(TxConfig(), (old(data[..]), WCopy(slot, nFree, n, pkt, old(desc[..]), room)),
                    (data[..], if ok then WPut(slot, nFree, n + t, pkt, desc[..]) else WFault))
    {
      var d := desc[..];
      if !InRegion(d, room, data.Length) {
        return false, 0;
      }
      var k := Min(room, |pkt|);
      t := CopyInto(data, Get32(d, DESC_OFFSET), pkt[..k]);
      assert t == k && pkt[..k][..t] == pkt[..k];
      Store32(desc, DESC_LENGTH, t);
      ok := true;
    }

    /** Takes a slot: fetches and resets its descriptor and copies the front of the packet into its buffer. */
    method FillSlot(slot: nat, desc: array<byte>, pkt: seq<byte>, ghost nFree: nat, ghost n: nat)
      returns (ok: bool, t: nat, ghost mid: WPoint)
      requires Valid() && desc.Length == DESC_SIZE && desc != data
      modifies data, desc
      ensures WNext(TxConfig(), (old(data[..]), WGet(slot, nFree, n, pkt)), mid)
      ensures WNext(TxConfig(), mid, (data[..], if ok then WPut(slot, nFree, n + t, pkt, desc[..]) else WFault))
    {
      var room := FetchSlot(slot, desc, pkt, nFree, n);
      mid := (data[..], WCopy(slot, nFree, n, pkt, desc[..], room));
      ok, t := CopyIn(desc, room, pkt, slot, nFree, n);
    }

    /** Reads both indices: where to write and how many slots are free. */
    method Snapshot(ghost pkt: seq<byte>) returns (slot: nat, nFree: nat)
      requires Valid()
      ensures BeginWrite(TxConfig(), data[..], pkt) == if nFree == 0 then WDone(0) else WGet(slot, nFree, 0, pkt)
    {
      if isServer {
        slot := LoadTail();
        var h := LoadHead();
        nFree := (h - slot) % TWO16;
      } else {
        slot := LoadHead();
        var t := LoadTail();
        nFree := (ring.Size() - slot + t) % TWO16;
      }
    }

    /** Puts the descriptor of a slot, marked NEXT when the packet goes on. */
    method PutSlot(slot: nat, desc: array<byte>, pkt: seq<byte>, ghost nFree: nat, n: nat)
      requires Valid() && desc.Length == DESC_SIZE && desc != data && (n < |pkt| ==> nFree > 1)
      modifies data, desc
      ensures WNext(TxConfig(), (old(data[..]), WPut(slot, nFree, n, pkt, old(desc[..]))),
                    (data[..], if n < |pkt| then WGet(slot + 1, nFree - 1, n, pkt) else WPub(slot + 1, n, pkt)))
    {
      if n < |pkt| {
        Store16(desc, DESC_FLAGS, FLAG_NEXT);
      }
      StoreDesc(ring.Slot(slot), desc);
    }

    /** Publishes a whole chain with one index store. */
    method Publish(slot: nat, ghost pkt: seq<byte>, ghost n: nat)
      requires Valid()
      modifies data
      ensures WNext(TxConfig(), (old(data[..]), WPub(slot, n, pkt)), (data[..], WDone(n)))
    {
      if isServer {
        Store16(data, ring.offset + TAIL_OFFSET, slot);
      } else {
        Store16(data, ring.offset + HEAD_OFFSET, slot);
      }
    }

    /** The body of the loop: puts the descriptor at hand and fills the slot after it. */
    method NextSlot(slot: nat, desc: array<byte>, pkt: seq<byte>, nFree: nat, n: nat, ghost past: seq<WPoint>)
      returns (ok: bool, t: nat, ghost tr: seq<WPoint>)
      requires Valid() && desc.Length == DESC_SIZE && desc != data && n < |pkt| && nFree > 1
      requires WTrace(TxConfig(), past) && past[|past| - 1] == (data[..], WPut(slot, nFree, n, pkt, desc[..]))
      modifies data, desc
      ensures WTrace(TxConfig(), tr) && tr[0] == past[0]
      ensures tr[|tr| - 1] == (data[..], if ok then WPut(slot + 1, nFree - 1, n + t, pkt, desc[..]) else WFault)
    {
      ghost var q := TxConfig();
      PutSlot(slot, desc, pkt, nFree, n);
      tr := Extend(q, past, (data[..], WGet(slot + 1, nFree - 1, n, pkt)));
      ghost var mid;
      ok, t, mid := FillSlot(slot + 1, desc, pkt, nFree - 1, n);
      tr := Extend2(q, tr, mid, (data[..], if ok then WPut(slot + 1, nFree - 1, n + t, pkt, desc[..]) else WFault));
    }

    /** Puts the last descriptor and publishes. */
    method LastSlot(slot: nat, desc: array<byte>, pkt: seq<byte>, ghost nFree: nat, n: nat, ghost past: seq<WPoint>)
      returns (ghost tr: seq<WPoint>)
      requires Valid() && desc.Length == DESC_SIZE && desc != data && n >= |pkt|
      requires WTrace(TxConfig(), past) && past[|past| - 1] == (data[..], WPut(slot, nFree, n, pkt, desc[..]))
      modifies data, desc
      ensures WTrace(TxConfig(), tr) && tr[0] == past[0] && tr[|tr| - 1] == (data[..], WDone(n))
    {
      PutSlot(slot, desc, pkt, nFree, n);
      tr := Extend(TxConfig(), past, (data[..], WPub(slot + 1, n, pkt)));
      Publish(slot + 1, pkt, n);
      tr := Extend(TxConfig(), tr, (data[..], WDone(n)));
    }

    /**
     Writes one packet and returns the number of bytes the code counts as written.
     The trace shows the call to be the writer's steps from its snapshot to its return.
     */
    method WritePacket(pkt: seq<byte>) returns (r: WriteResult, ghost tr: seq<WPoint>)
      requires Valid()
      modifies data
      ensures WTrace(TxConfig(), tr)
      ensures tr[0] == (old(data[..]), BeginWrite(TxConfig(), old(data[..]), pkt))
      ensures tr[|tr| - 1] == (data[..], match r case Written(n) => WDone(n) case WritePanic => WFault)
    {
      ghost var q := TxConfig();
      var slot, nFree := Snapshot(pkt);
      tr := [(data[..], BeginWrite(q, data[..], pkt))];
      if nFree == 0 {
        return Written(0), tr;
      }
      var desc := new byte[DESC_SIZE];
      var ok, n: nat, mid := FillSlot(slot, desc, pkt, nFree, 0);
      tr := Extend2(q, tr, mid, (data[..], if ok then WPut(slot, nFree, n, pkt, desc[..]) else WFault));
      r, tr := Finish(slot, desc, pkt, nFree, ok, n, tr);
    }

    /** WritePacket from its first filled slot on. */
    method Finish(slot0: nat, desc: array<byte>, pkt: seq<byte>, nFree0: nat, ok0: bool, n0: nat, ghost past: seq<WPoint>)
      returns (r: WriteResult, ghost tr: seq<WPoint>)
      requires Valid() && desc.Length == DESC_SIZE && desc != data && nFree0 >= 1
      requires WTrace(TxConfig(), past)
      requires past[|past| - 1] == (data[..], if ok0 then WPut(slot0, nFree0, n0, pkt, desc[..]) else WFault)
      modifies data, desc
      ensures WTrace(TxConfig(), tr) && tr[0] == past[0]
      ensures tr[|tr| - 1] == (data[..], match r case Written(n) => WDone(n) case WritePanic => WFault)
    {
      ghost var q := TxConfig();
      var slot, nFree, ok, n := slot0, nFree0, ok0, n0;
      tr := past;
      while ok && n < |pkt|
        invariant nFree >= 1 && 0 <= slot && 0 <= n
        invariant WTrace(q, tr) && tr[0] == past[0]
        invariant tr[|tr| - 1] == (data[..], if ok then WPut(slot, nFree, n, pkt, desc[..]) else WFault)
        decreases ok, nFree
      {
        if nFree - 1 == 0 {
          tr := Extend(q, tr, (data[..], WDone(0)));
          return Written(0), tr;
        }
        var t: nat;
        ok, t, tr := NextSlot(slot, desc, pkt, nFree, n, tr);
        slot, nFree, n := slot + 1, nFree - 1, n + t;
      }
      if !ok {
        return WritePanic, tr;
      }
      tr := LastSlot(slot, desc, pkt, nFree, n, tr);
      r := Written(n);
    }

    /** Copies the buffer of a fetched descriptor into the caller's buffer; nothing is copied on a panic. */
    method CopyOut(desc: array<byte>, pkt: array<byte>, off: nat, ghost slot: nat, ghost nSlots: nat)
      returns (ok: bool, len: nat)
      requires Valid() && desc.Length == DESC_SIZE && desc != data && pkt != data && pkt != desc
      requires off <= pkt.Length
      modifies pkt
      ensures RNext(RxConfig(), (data[..], RCopy(Last(), slot, nSlots, off, old(pkt[..]), desc[..])),
                    (data[..], AfterCopy(desc[..], ok, slot, nSlots, off + len, pkt[..])))
    {
      var d := desc[..];
      len := Get32(d, DESC_LENGTH);
      if !InRegion(d, len, data.Length) {
        return false, len;
      }
      var o := Get32(d, DESC_OFFSET);
      var src := data[o..o + len];
      var k := CopyInto(pkt, off, src);
      assert src[..k] == data[..][o..o + k];
      ok := true;
    }

    /** Where the reader is after a copy. */
    ghost function AfterCopy(desc: seq<byte>, ok: bool, slot: nat, nSlots: nat, off: nat, buf: seq<byte>): Reader
      requires Valid() && |desc| == DESC_SIZE
      reads this, data
    {
      if !ok then RFault(buf)
      else if Get16(desc, DESC_FLAGS) % 2 != 1 then EnterRefill(RxConfig(), data[..], slot + 1, off, buf)
      else if nSlots <= 1 then RIncomplete(Last(), buf)
      else RGet(Last(), slot + 1, nSlots - 1, off, buf)
    }

    /** Fetches the descriptor of a slot and copies its piece into the caller's buffer. */
    method CopySlot(slot: nat, desc: array<byte>, pkt: array<byte>, off: nat, ghost nSlots: nat)
      returns (ok: bool, len: nat, ghost mid: RPoint)
      requires Valid() && desc.Length == DESC_SIZE && desc != data && pkt != data && pkt != desc
      requires off <= pkt.Length
      modifies desc, pkt
      ensures RNext(RxConfig(), (data[..], RGet(Last(), slot, nSlots, off, old(pkt[..]))), mid)
      ensures RNext(RxConfig(), mid, (data[..], AfterCopy(desc[..], ok, slot, nSlots, off + len, pkt[..])))
    {
      LoadDesc(ring.Slot(slot), desc);
      mid := (data[..], RCopy(Last(), slot, nSlots, off, pkt[..], desc[..]));
      ok, len := CopyOut(desc, pkt, off, slot, nSlots);
    }

    /** Restores the length of a consumed descriptor (client only). */
    method OfferSlot(last: nat, head: nat, ghost todo: nat, ghost off: nat, ghost buf: seq<byte>)
      requires Valid() && todo > 0
      modifies data
      ensures RNext(RxConfig(), (old(data[..]), RRefill(last, head, todo, off, buf)),
                    (data[..], RRefill(last, head + 1, todo - 1, off, buf)))
    {
      Store16(data, ring.Desc(ring.Slot(head)) + DESC_LENGTH, bufferSize);
    }

    /** Stores the index that gives slots back: the tail for a server, the head for a client. */
    method Release(last: nat, head: nat, ghost off: nat, ghost buf: seq<byte>)
      requires Valid()
      modifies data
      ensures RNext(RxConfig(), (old(data[..]), RRefill(last, head, 0, off, buf)), (data[..], RDone(last, off, buf)))
    {
      if isServer {
        Store16(data, ring.offset + TAIL_OFFSET, last);
      } else {
        Store16(data, ring.offset + HEAD_OFFSET, head);
      }
    }

    /** Hands the consumed slots back, refilling their descriptors first when this is a client. */
    method Refill(slot: nat, ghost off: nat, ghost buf: seq<byte>, ghost past: seq<RPoint>)
      returns (ghost tr: seq<RPoint>)
      requires Valid() && RTrace(RxConfig(), past)
      requires past[|past| - 1] == (data[..], EnterRefill(RxConfig(), data[..], slot, off, buf))
      modifies data, this`lastHead, this`lastTail
      ensures Valid() && Last() == slot % TWO16
      ensures RTrace(RxConfig(), tr) && tr[0] == past[0]
      ensures tr[|tr| - 1] == (data[..], RDone(slot % TWO16, off, buf))
    {
      ghost var q := RxConfig();
      tr := past;
      var last := slot % TWO16;
      var head := LoadHead();
      if isServer {
        lastHead := last;
      } else {
        lastTail := last;
        var nSlots: nat := (ring.Size() - head + last) % TWO16;
        while nSlots > 0
          invariant RTrace(q, tr) && tr[0] == past[0]
          invariant tr[|tr| - 1] == (data[..], RRefill(last, head, nSlots, off, buf))
          modifies data
        {
          OfferSlot(last, head, nSlots, off, buf);
          head, nSlots := head + 1, nSlots - 1;
          tr := ExtendR(q, tr, (data[..], RRefill(last, head, nSlots, off, buf)));
        }
      }
      Release(last, head, off, buf);
      tr := ExtendR(q, tr, (data[..], RDone(last, off, buf)));
    }

    /** How many slots the peer has published beyond the last one consumed. */
    method Pending() returns (nSlots: nat)
      requires Valid()
      ensures nSlots == ((if isServer then ReadHead(ring, data[..]) else ReadTail(ring, data[..])) - Last()) % TWO16
    {
      var lastSlot;
      if isServer {
        lastSlot := LoadHead();
      } else {
        lastSlot := LoadTail();
      }
      nSlots := (lastSlot - Last()) % TWO16;
    }

    /** One turn of the gathering loop. */
    method Piece(slot: nat, desc: array<byte>, pkt: array<byte>, off: nat, ghost nSlots: nat, ghost past: seq<RPoint>)
      returns (ok: bool, len: nat, ghost tr: seq<RPoint>)
      requires Valid() && desc.Length == DESC_SIZE && desc != data && pkt != data && pkt != desc
      requires off <= pkt.Length && RTrace(RxConfig(), past)
      requires past[|past| - 1] == (data[..], RGet(Last(), slot, nSlots, off, pkt[..]))
      modifies desc, pkt
      ensures RTrace(RxConfig(), tr) && tr[0] == past[0]
      ensures tr[|tr| - 1] == (data[..], AfterCopy(desc[..], ok, slot, nSlots, off + len, pkt[..]))
    {
      ghost var mid;
      ok, len, mid := CopySlot(slot, desc, pkt, off, nSlots);
      tr := ExtendR(RxConfig(), past, mid);
      tr := ExtendR(RxConfig(), tr, (data[..], AfterCopy(desc[..], ok, slot, nSlots, off + len, pkt[..])));
    }

    /** Gathers the pieces of one packet, up to the slot whose descriptor has no NEXT mark. */
    method Gather(pkt: array<byte>, nSlots0: nat, ghost past: seq<RPoint>)
      returns (end: ReadResult, slot: nat, ghost tr: seq<RPoint>)
      requires Valid() && pkt != data && nSlots0 > 0 && RTrace(RxConfig(), past)
      requires past[|past| - 1] == (data[..], RGet(Last(), Last(), nSlots0, 0, pkt[..]))
      modifies pkt
      ensures RTrace(RxConfig(), tr) && tr[0] == past[0]
      ensures var f := tr[|tr| - 1];
              && f.0 == data[..]
              && match end
                 case Length(n) => f.1 == EnterRefill(RxConfig(), data[..], slot, n, pkt[..])
                 case BrokenChain => f.1 == RIncomplete(Last(), pkt[..])
                 case Panic => (f.1.RShort? || f.1.RFault?) && pkt[..] == f.1.buf
    {
      ghost var q := RxConfig();
      tr := past;
      slot := Last();
      var off: nat, nSlots: nat, more := 0, nSlots0, true;
      var desc := new byte[DESC_SIZE];
      while more
        invariant fresh(desc) && desc.Length == DESC_SIZE && (more ==> nSlots >= 1)
        invariant RTrace(q, tr) && tr[0] == past[0]
        invariant tr[|tr| - 1] ==
                  (data[..], if more then RGet(Last(), slot, nSlots, off, pkt[..])
                             else EnterRefill(q, data[..], slot, off, pkt[..]))
        decreases more, nSlots
      {
        if off > pkt.Length {
          tr := ExtendShort(q, tr);
          return Panic, slot, tr;
        }
        var ok, len;
        ok, len, tr := Piece(slot, desc, pkt, off, nSlots, tr);
        more := Get16(desc[..], DESC_FLAGS) % 2 == 1;
        if !ok {
          return Panic, slot, tr;
        }
        off, slot, nSlots := off + len, slot + 1, nSlots - 1;
        if more && nSlots == 0 {
          return BrokenChain, slot, tr;
        }
      }
      end := Length(off);
    }

    /**
     Reads one packet into pkt and returns its length.
     The trace shows the call to be the reader's steps from its snapshot to its return.
     */
    method ReadPacket(pkt: array<byte>) returns (r: ReadResult, ghost tr: seq<RPoint>)
      requires Valid() && pkt != data
      modifies data, pkt, this`lastHead, this`lastTail
      ensures Valid() && RTrace(RxConfig(), tr)
      ensures tr[0] == (old(data[..]), BeginRead(RxConfig(), old(data[..]), old(Last()), old(pkt[..])))
      ensures var f := tr[|tr| - 1];
              && data[..] == f.0
              && match r
                 case Length(n) => f.1 == RDone(Last(), n, pkt[..])
                 case BrokenChain => f.1 == RIncomplete(Last(), pkt[..]) && Last() == old(Last())
                 case Panic => (f.1.RShort? || f.1.RFault?) && pkt[..] == f.1.buf && Last() == old(Last())
    {
      ghost var q := RxConfig();
      tr := [(data[..], BeginRead(q, data[..], Last(), pkt[..]))];
      var slot := Last();
      var nSlots := Pending();
      r := Length(0);
      if nSlots != 0 {
        r, slot, tr := Gather(pkt, nSlots, tr);
      }
      if r.Length? {
        tr := Refill(slot, r.n, pkt[..], tr);
      }
    }
  }

  lemma KeepsLength(d: seq<byte>)
    requires |d| == DESC_SIZE
    ensures Get32(Put16(d, DESC_FLAGS, 0), DESC_LENGTH) == Get32(d, DESC_LENGTH)
  {
    Put16Spec(d, DESC_FLAGS, 0);
    SameFields(d, Put16(d, DESC_FLAGS, 0), DESC_FLAGS, DESC_FLAGS + 2, DESC_LENGTH);
  }

  lemma Extend(q: Config, tr: seq<WPoint>, p: WPoint) returns (r: seq<WPoint>)
    requires WTrace(q, tr) && WNext(q, tr[|tr| - 1], p)
    ensures WTrace(q, r) && r[0] == tr[0] && r[|r| - 1] == p
  {
    r := tr + [p];
  }

  lemma Extend2(q: Config, tr: seq<WPoint>, mid: WPoint, p: WPoint) returns (r: seq<WPoint>)
    requires WTrace(q, tr) && WNext(q, tr[|tr| - 1], mid) && WNext(q, mid, p)
    ensures WTrace(q, r) && r[0] == tr[0] && r[|r| - 1] == p
  {
    r := Extend(q, tr, mid);
    r := Extend(q, r, p);
  }

  lemma ExtendR(q: Config, tr: seq<RPoint>, p: RPoint) returns (r: seq<RPoint>)
    requires RTrace(q, tr) && RNext(q, tr[|tr| - 1], p)
    ensures RTrace(q, r) && r[0] == tr[0] && r[|r| - 1] == p
  {
    r := tr + [p];
  }

  lemma ExtendShort(q: Config, tr: seq<RPoint>) returns (r: seq<RPoint>)
    requires RTrace(q, tr) && tr[|tr| - 1].1.RGet? && tr[|tr| - 1].1.off > |tr[|tr| - 1].1.buf|
    requires q.ring.End() <= |tr[|tr| - 1].0|
    ensures RTrace(q, r) && r[0] == tr[0]
    ensures var p := tr[|tr| - 1]; r[|r| - 1] == (p.0, RShort(p.1.last, p.1.buf))
  {
    var p := tr[|tr| - 1];
    r := ExtendR(q, tr, ReadStep(q, p.0, p.1));
    r := ExtendR(q, r, (p.0, RShort(p.1.last, p.1.buf)));
  }
}
