/**
 What ReadPacket makes of the descriptors it finds, whatever they are: the error for a chain that its peer has
 not finished, the end of one that is, and the panic of a slice out of range.
 */
module Chains {
  import opened Bytes
  import opened RingMemory
  import opened RingSteps
  import RingProtocol

  // ---- out of range

  /** data[offset:offset+room] panics exactly in another region than the first or beyond its end; nothing is stored then. */
  lemma WriteFaultsIff(q: Config, m: seq<byte>, w: Writer)
    requires q.ring.End() <= |m| && w.Valid() && w.WCopy?
    ensures var t := WriteStep(q, m, w);
            && (t.1.WFault? <==> Get16(w.desc, 2) != 0 || Get32(w.desc, 8) + w.room > |m|)
            && (t.1.WFault? ==> t.0 == m)
  {
  }

  lemma ReadFaultsIff(q: Config, m: seq<byte>, r: Reader)
    requires q.ring.End() <= |m| && r.Valid() && r.RCopy?
    ensures var t := ReadStep(q, m, r);
            && t.0 == m && (t.1.RShort? <==> r.off > |r.buf|)
            && (t.1.RFault? <==> r.off <= |r.buf| && (Get16(r.desc, 2) != 0 || Get32(r.desc, 8) + Get32(r.desc, 4) > |m|))
  {
  }

  // ---- a call on its own

  function Solo(q: Config, m: seq<byte>, r: Reader, n: nat): (p: RPoint)
    requires q.ring.End() <= |m| && r.Valid()
    ensures |p.0| == |m| && p.1.Valid()
  {
    if n == 0 then (m, r) else var p := Solo(q, m, r, n - 1); ReadStep(q, p.0, p.1)
  }

  lemma {:induction false} TraceIsSolo(q: Config, tr: seq<RPoint>, n: nat)
    requires RTrace(q, tr) && n < |tr|
    ensures tr[n] == Solo(q, tr[0].0, tr[0].1, n)
    decreases n
  {
    if n > 0 {
      TraceIsSolo(q, tr, n - 1);
      var i := n - 1;
      assert RNext(q, tr[i], tr[n]);
    }
  }

  function TwoSteps(q: Config, p: RPoint): (p': RPoint)
    requires q.ring.End() <= |p.0| && p.1.Valid()
    ensures |p'.0| == |p.0| && p'.1.Valid()
  {
    var mid := ReadStep(q, p.0, p.1);
    ReadStep(q, mid.0, mid.1)
  }

  lemma SoloTwo(q: Config, m: seq<byte>, r: Reader, n: nat)
    requires q.ring.End() <= |m| && r.Valid()
    ensures Solo(q, m, r, n + 2) == TwoSteps(q, Solo(q, m, r, n))
  {
    assert Solo(q, m, r, n + 1) == ReadStep(q, Solo(q, m, r, n).0, Solo(q, m, r, n).1);
  }

  lemma HaltedStays(q: Config, m: seq<byte>, r: Reader)
    requires q.ring.End() <= |m| && r.Valid() && r.Halted()
    ensures ReadStep(q, m, r) == (m, r)
  {
  }

  lemma {:induction false} SoloStays(q: Config, m: seq<byte>, r: Reader, i: nat, j: nat)
    requires q.ring.End() <= |m| && r.Valid() && Solo(q, m, r, i).1.Halted() && i <= j
    ensures Solo(q, m, r, j) == Solo(q, m, r, i)
    decreases j
  {
    if i < j {
      SoloStays(q, m, r, i, j - 1);
      HaltedStays(q, Solo(q, m, r, i).0, Solo(q, m, r, i).1);
    }
  }

  /** Past the last descriptor: only the refill and the return are left. */
  lemma {:induction false} SoloReturns(q: Config, m: seq<byte>, r: Reader, i: nat, j: nat)
    requires q.ring.End() <= |m| && r.Valid() && (Solo(q, m, r, i).1.RRefill? || Solo(q, m, r, i).1.RDone?) && i <= j
    ensures Solo(q, m, r, j).1.RRefill? || Solo(q, m, r, j).1.RDone?
    decreases j
  {
    if i < j { SoloReturns(q, m, r, i, j - 1); }
  }

  // ---- the descriptors at hand

  function DescAt(q: Config, m: seq<byte>, slot: nat): (d: seq<byte>)
    requires q.ring.End() <= |m|
    ensures |d| == DESC_SIZE
  {
    GetDesc(q.ring, m, q.ring.Slot(slot))
  }

  /** Bit 0 of the flags of slot k of a chain that begins at last: the chain goes on. */
  predicate GoesOn(q: Config, m: seq<byte>, last: nat, k: nat)
    requires q.ring.End() <= |m|
  {
    Get16(DescAt(q, m, last + k), 0) % 2 == 1
  }

  /** The bytes before slot k of a chain that begins at last. */
  function Before(q: Config, m: seq<byte>, last: nat, k: nat): nat
    requires q.ring.End() <= |m|
  {
    if k == 0 then 0 else Before(q, m, last, k - 1) + Get32(DescAt(q, m, last + k - 1), 4)
  }

  /** Slot k can be copied: its slice is in range, and it begins within a buffer of that length. */
  predicate Legal(q: Config, m: seq<byte>, last: nat, len: nat, k: nat)
    requires q.ring.End() <= |m|
  {
    && Get16(DescAt(q, m, last + k), 2) == 0 && Get32(DescAt(q, m, last + k), 8) + Get32(DescAt(q, m, last + k), 4) <= |m|
    && Before(q, m, last, k) <= len
  }

  /** After k copies of a chain that goes on so far. */
  ghost predicate AfterCopies(q: Config, m: seq<byte>, last: nat, len: nat, n: nat, k: nat, p: RPoint)
    requires q.ring.End() <= |m|
  {
    k <= n && p.0 == m && p.1.RGet? && p.1 == RGet(last, last + k, n - k, Before(q, m, last, k), p.1.buf) && |p.1.buf| == len
  }

  lemma OneCopy(q: Config, m: seq<byte>, last: nat, len: nat, n: nat, k: nat, p: RPoint, p': RPoint)
    requires q.ring.End() <= |m| && k < n && AfterCopies(q, m, last, len, n, k, p) && Legal(q, m, last, len, k)
    requires p.1.Valid() && p' == TwoSteps(q, p)
    ensures GoesOn(q, m, last, k) && k + 1 < n ==> AfterCopies(q, m, last, len, n, k + 1, p')
    ensures GoesOn(q, m, last, k) && k + 1 == n ==> p'.0 == m && p'.1.RIncomplete? && p'.1.last == last
    ensures !GoesOn(q, m, last, k) ==> p'.0 == m && p'.1.RRefill? && p'.1.last == (last + k + 1) % TWO16
                                        && p'.1.off == Before(q, m, last, k + 1)
  {
  }

  function Pairs(q: Config, m: seq<byte>, r: Reader, k: nat): (p: RPoint)
    requires q.ring.End() <= |m| && r.Valid()
    ensures |p.0| == |m| && p.1.Valid()
  {
    if k == 0 then (m, r) else TwoSteps(q, Pairs(q, m, r, k - 1))
  }

  lemma {:induction false} PairsAre(q: Config, m: seq<byte>, r: Reader, k: nat)
    requires q.ring.End() <= |m| && r.Valid()
    ensures Pairs(q, m, r, k) == Solo(q, m, r, k + k)
    decreases k
  {
    if k > 0 {
      PairsAre(q, m, r, k - 1);
      NextTwo(q, m, r, k - 1, Pairs(q, m, r, k - 1), Solo(q, m, r, k + k));
    }
  }

  lemma NextTwo(q: Config, m: seq<byte>, r: Reader, h: nat, o: RPoint, p: RPoint)
    requires q.ring.End() <= |m| && r.Valid() && o == Solo(q, m, r, h + h) && p == Solo(q, m, r, (h + 1) + (h + 1))
    ensures p == TwoSteps(q, o)
  {
    assert (h + 1) + (h + 1) == h + h + 2;
    SoloTwo(q, m, r, h + h);
  }

  lemma GoOn(q: Config, m: seq<byte>, last: nat, len: nat, n: nat, k: nat, k': nat, p: RPoint, p': RPoint)
    requires q.ring.End() <= |m| && k' == k + 1 < n && AfterCopies(q, m, last, len, n, k, p) && Legal(q, m, last, len, k)
    requires GoesOn(q, m, last, k) && p' == TwoSteps(q, p)
    ensures AfterCopies(q, m, last, len, n, k', p')
  {
    OneCopy(q, m, last, len, n, k, p, p');
  }

  /** The first k slots can be copied, and the chain goes on after each. */
  ghost predicate Chain(q: Config, m: seq<byte>, last: nat, len: nat, k: nat)
    requires q.ring.End() <= |m|
  {
    forall i :: 0 <= i < k ==> GoesOn(q, m, last, i) && Legal(q, m, last, len, i)
  }

  lemma ChainShorter(q: Config, m: seq<byte>, last: nat, len: nat, k: nat)
    requires q.ring.End() <= |m| && Chain(q, m, last, len, k + 1)
    ensures Chain(q, m, last, len, k) && GoesOn(q, m, last, k) && Legal(q, m, last, len, k)
  {
  }

  ghost predicate Reached(q: Config, m: seq<byte>, r: Reader, last: nat, len: nat, n: nat, k: nat)
    requires q.ring.End() <= |m| && r.Valid()
  {
    AfterCopies(q, m, last, len, n, k, Pairs(q, m, r, k))
  }

  lemma NextCopy(q: Config, m: seq<byte>, r: Reader, last: nat, len: nat, n: nat, h: nat, k: nat)
    requires q.ring.End() <= |m| && r.Valid() && k == h + 1 < n && Reached(q, m, r, last, len, n, h)
    requires GoesOn(q, m, last, h) && Legal(q, m, last, len, h)
    ensures Reached(q, m, r, last, len, n, k)
  {
    GoOn(q, m, last, len, n, h, k, Pairs(q, m, r, h), Pairs(q, m, r, k));
  }

  lemma NoCopy(q: Config, m: seq<byte>, r: Reader, last: nat, len: nat, n: nat)
    requires q.ring.End() <= |m| && r.Valid() && AfterCopies(q, m, last, len, n, 0, (m, r))
    ensures Reached(q, m, r, last, len, n, 0)
  {
  }

  lemma {:induction false} Copies(q: Config, m: seq<byte>, r: Reader, last: nat, len: nat, n: nat, k: nat)
    requires q.ring.End() <= |m| && r.Valid() && k < n && AfterCopies(q, m, last, len, n, 0, (m, r))
    requires Chain(q, m, last, len, k)
    ensures Reached(q, m, r, last, len, n, k)
    decreases k
  {
    if k == 0 {
      NoCopy(q, m, r, last, len, n);
    } else {
      ChainShorter(q, m, last, len, k - 1);
      Copies(q, m, r, last, len, n, k - 1);
      NextCopy(q, m, r, last, len, n, k - 1, k);
    }
  }

  lemma AfterLast(q: Config, m: seq<byte>, r: Reader, last: nat, len: nat, n: nat, k: nat)
    requires q.ring.End() <= |m| && r.Valid() && k < n && AfterCopies(q, m, last, len, n, 0, (m, r))
    requires Chain(q, m, last, len, k) && Legal(q, m, last, len, k) && (GoesOn(q, m, last, k) ==> k + 1 == n)
    ensures var p := Solo(q, m, r, k + k + 2);
            if GoesOn(q, m, last, k) then p.0 == m && p.1.RIncomplete? && p.1.last == last
            else p.1.RRefill? && p.1.last == (last + k + 1) % TWO16 && p.1.off == Before(q, m, last, k + 1)
  {
    var p := Solo(q, m, r, k + k);
    Copies(q, m, r, last, len, n, k);
    PairsAre(q, m, r, k);
    SoloTwo(q, m, r, k + k);
    OneCopy(q, m, last, len, n, k, p, TwoSteps(q, p));
  }

  /** The call as ReadPacket's contract has it, from its snapshot to its return. */
  ghost predicate CallOf(q: Config, tr: seq<RPoint>, m: seq<byte>, last: nat, buf: seq<byte>, n: nat) {
    && RTrace(q, tr) && q.ring.End() <= |m| && tr[0] == (m, RGet(last, last, n, 0, buf)) && n > 0
    && tr[|tr| - 1].1.Halted()
  }

  /** When the calls come to their end: the trace's last point is where the steps lead for good. */
  lemma EndOf(q: Config, tr: seq<RPoint>, m: seq<byte>, last: nat, buf: seq<byte>, n: nat, j: nat)
    requires CallOf(q, tr, m, last, buf, n)
    ensures var p, e := Solo(q, m, tr[0].1, j), tr[|tr| - 1];
            && (p.1.Halted() ==> e == p) && (p.1.RRefill? ==> e.1.RDone?)
  {
    var r, i := tr[0].1, |tr| - 1;
    TraceIsSolo(q, tr, i);
    if Solo(q, m, r, j).1.Halted() {
      if i <= j { SoloStays(q, m, r, i, j); } else { SoloStays(q, m, r, j, i); }
    } else if Solo(q, m, r, j).1.RRefill? {
      if i <= j { SoloStays(q, m, r, i, j); } else { SoloReturns(q, m, r, j, i); }
    }
  }

  /**
   A call of ReadPacket that finds n slots it can copy: it returns the error of an incomplete chain exactly if
   all n say that the chain goes on, and then has changed neither the memory nor its own index.
   */
  lemma BrokenChainIff(q: Config, tr: seq<RPoint>, m: seq<byte>, last: nat, buf: seq<byte>, n: nat)
    requires CallOf(q, tr, m, last, buf, n) && forall i :: 0 <= i < n ==> Legal(q, m, last, |buf|, i)
    ensures var e := tr[|tr| - 1];
            && (e.1.RIncomplete? <==> forall i :: 0 <= i < n ==> GoesOn(q, m, last, i))
            && (e.1.RIncomplete? ==> e.0 == m && e.1.last == last)
  {
    var k := 0;
    while k + 1 < n && GoesOn(q, m, last, k)
      invariant k < n && Chain(q, m, last, |buf|, k)
    {
      k := k + 1;
    }
    AfterLast(q, m, tr[0].1, last, |buf|, n, k);
    EndOf(q, tr, m, last, buf, n, k + k + 2);
  }
}
