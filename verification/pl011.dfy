/** The receive ring of the PL011 UART driver: filled by the interrupt handler,
    emptied by a reading task, with no lock between the two.

    The handler runs to completion, but it may run between any two steps of the
    reader, including between two bytes it copies. */
module Pl011Ring {
  import opened RingIndex

  const BUF_SIZE: nat := 0x4000
  const FIFO_SIZE: nat := 128
  const HDF_ERR_INVALID_PARAM := -3

  type byte = x: int | 0 <= x < 256

  function Min(a: int, b: int): int {
    if a < b then a else b
  }

  /** From slot `rp` to slot `wp` it is as far as from count `r` to count `w`. */
  lemma Distance(r: nat, w: nat, size: int)
    requires size > 0 && r <= w < r + size
    ensures var rp, wp := Slot(r, size), Slot(w, size);
            w - r == if rp <= wp then wp - rp else size - rp + wp
  {
    SlotAdd(r, w - r, size);
  }

  /** The bytes in a ring from `rp` up to `wp`. */
  function RingContents(data: seq<byte>, rp: int, wp: int): seq<byte>
    requires 0 <= rp < |data| && 0 <= wp < |data|
  {
    if rp <= wp then data[rp..wp] else data[rp..] + data[..wp]
  }

  lemma ContentsAre(data: seq<byte>, hist: seq<byte>, from: nat)
    requires |data| > 0 && from <= |hist| < from + |data| && Holds(data, |data|, hist, from)
    ensures RingContents(data, Slot(from, |data|), Slot(|hist|, |data|)) == hist[from..]
  {
    hide Slot, Holds;
    var n := |data|;
    var rp, wp := Slot(from, n), Slot(|hist|, n);
    Distance(from, |hist|, n);
    var c := RingContents(data, rp, wp);
    assert |c| == |hist| - from;
    forall i | 0 <= i < |c| ensures c[i] == hist[from..][i] {
      SlotAdd(from, i, n);
      HoldsAt(data, n, hist, from, from + i);
      if rp > wp && i >= n - rp {
        assert c[i] == data[..wp][i - (n - rp)];
      }
    }
  }

  lemma Prefixes(before: seq<byte>, buf: seq<byte>, u: nat, l: nat)
    requires u + l <= |buf|
    ensures before + buf[..u] + buf[u..u + l] == before + buf[..u + l]
  {
  }

  lemma SamePart(a: seq<byte>, a': seq<byte>, k: nat, n: nat)
    requires a <= a' && k + n <= |a|
    ensures a'[k..k + n] == a[k..k + n]
  {
  }

  class UartTransfer {
    const data: array<byte>
    var rp: int
    var wp: int
    ghost var delivered: seq<byte> // bytes returned by reads so far
    ghost var accepted: seq<byte>  // bytes taken in by the handler so far

    ghost predicate Valid()
      reads this, data
    {
      && data.Length == BUF_SIZE
      && |delivered| <= |accepted| < |delivered| + BUF_SIZE
      && delivered == accepted[..|delivered|]
      && rp == Slot(|delivered|, BUF_SIZE) && wp == Slot(|accepted|, BUF_SIZE)
      && Holds(data[..], BUF_SIZE, accepted, |delivered|)
    }

    /** Bytes accepted and not yet read. */
    ghost function Held(): int
      reads this
    {
      |accepted| - |delivered|
    }

    constructor ()
      ensures Valid() && fresh(data) && accepted == [] && delivered == []
    {
      data := new byte[BUF_SIZE](i => 0);
      rp, wp, delivered, accepted := 0, 0, [], [];
    }

    /** First in, first out: what has been read, followed by what is in the ring,
        is what was accepted; and the ring is never completely full. */
    lemma Fifo()
      requires Valid()
      ensures delivered + RingContents(data[..], rp, wp) == accepted
      ensures |RingContents(data[..], rp, wp)| <= 0x4000 - 1 && data.Length == 0x4000
    {
      ContentsAre(data[..], accepted, |delivered|);
      assert accepted == accepted[..|delivered|] + accepted[|delivered|..];
    }

    /** `PL011UartRxBufEmpty`. */
    method RxBufEmpty() returns (empty: bool)
      requires Valid()
      ensures empty <==> Held() == 0
    {
      Distance(|delivered|, |accepted|, BUF_SIZE);
      empty := wp == rp;
    }

    /** `memcpy_s` into the ring, at the slots of the next counts. */
    method CopyIn(at: int, src: seq<byte>, ghost before: seq<byte>)
      requires data.Length == BUF_SIZE && 0 <= at && at + |src| <= BUF_SIZE
      requires Holds(data[..], BUF_SIZE, before, |delivered|)
      requires |before| + |src| <= |delivered| + BUF_SIZE
      requires src != [] ==> at == Slot(|before|, BUF_SIZE)
      modifies data
      ensures Holds(data[..], BUF_SIZE, before + src, |delivered|)
    {
      hide Slot, Holds;
      var i := 0;
      assert before + src[..0] == before;
      while i < |src|
        invariant 0 <= i <= |src|
        invariant Holds(data[..], BUF_SIZE, before + src[..i], |delivered|)
      {
        SlotAdd(|before|, i, BUF_SIZE);
        HoldsAppend(data[..], BUF_SIZE, before + src[..i], |delivered|, src[i]);
        ghost var d := data[..];
        data[at + i] := src[i];
        assert data[..] == d[at + i := src[i]];
        assert before + src[..i] + [src[i]] == before + src[..i + 1];
        i := i + 1;
      }
      assert src[..i] == src;
    }

    /** `PL011UartRecvNotify`: take in the longest prefix that fits. */
    method RecvNotify(buf: seq<byte>) returns (ret: int)
      requires Valid()
      modifies data, `wp, `accepted
      ensures Valid()
      ensures |buf| == 0 ==> ret == HDF_ERR_INVALID_PARAM && accepted == old(accepted)
      ensures |buf| > 0 ==> ret == Min(|buf|, 0x4000 - 1 - old(Held())) && accepted == old(accepted) + buf[..ret]
    {
      hide Slot, Holds;
      if |buf| == 0 {
        return HDF_ERR_INVALID_PARAM;
      }
      ghost var n := |accepted|;
      Distance(|delivered|, n, BUF_SIZE);
      SlotOfCount(n);
      SlotOfCount(|delivered|);
      var w, r := wp, rp;
      var count, upperHalf, lowerHalf := |buf|, 0, 0;
      if w < r {
        upperHalf := if count > r - w - 1 then r - w - 1 else count;
        CopyIn(w, buf[..upperHalf], accepted);
        SlotAdd(n, upperHalf, BUF_SIZE);
        w := w + upperHalf;
      } else {
        count := if count > (BUF_SIZE - w) + r - 1 then (BUF_SIZE - w) + r - 1 else count;
        upperHalf := if count > BUF_SIZE - w then BUF_SIZE - w else count;
        lowerHalf := if count > BUF_SIZE - w then count - (BUF_SIZE - w) else 0;
        CopyIn(w, buf[..upperHalf], accepted);
        SlotAdd(n, upperHalf, BUF_SIZE);
        CopyIn(0, buf[upperHalf..upperHalf + lowerHalf], accepted + buf[..upperHalf]);
        Prefixes(accepted, buf, upperHalf, lowerHalf);
        SlotAdd(n, upperHalf + lowerHalf, BUF_SIZE);
        w := w + upperHalf;
        if w >= BUF_SIZE {
          w := lowerHalf;
        }
      }
      ret := upperHalf + lowerHalf;
      accepted := accepted + buf[..ret];
      wp := w;
    }

    lemma SlotOfCount(n: nat)
      ensures 0 <= Slot(n, BUF_SIZE) < BUF_SIZE
    {
    }

    /** `Pl011Irq`: drain the hardware FIFO, at most 128 bytes at a time, into
        the ring.  On the console a magic key makes the handler drop what it has
        drained.  `rest` is what stays in the FIFO. */
    method Pl011Irq(fifo: seq<byte>, console: bool, magic: byte -> bool) returns (rest: seq<byte>, ghost taken: nat)
      requires Valid()
      modifies data, `wp, `accepted
      ensures Valid() && old(accepted) <= accepted
      ensures taken <= Min(|fifo|, 128) && rest == fifo[taken..]
      ensures taken > 0 && console && magic(fifo[taken - 1]) ==> accepted == old(accepted)
      ensures !(taken > 0 && console && magic(fifo[taken - 1])) ==>
                && taken == Min(|fifo|, 128)
                && accepted == old(accepted) + fifo[..Min(taken, 0x4000 - 1 - old(Held()))]
      ensures console ==> forall i :: 0 <= i < taken - 1 ==> !magic(fifo[i])
    {
      hide Valid, Holds, Slot;
      var count := 0;
      while count < FIFO_SIZE && count < |fifo|
        invariant 0 <= count <= Min(|fifo|, FIFO_SIZE)
        invariant console ==> forall i :: 0 <= i < count ==> !magic(fifo[i])
      {
        count := count + 1;
        if console && magic(fifo[count - 1]) {
          return fifo[count..], count;
        }
      }
      HeldFits();
      var ret := RecvNotify(fifo[..count]);
      if count > 0 {
        assert fifo[..count][..ret] == fifo[..ret];
      } else {
        assert accepted + fifo[..0] == accepted;
      }
      return fifo[count..], count;
    }

    lemma HeldFits()
      requires Valid()
      ensures 0 <= Held() < BUF_SIZE
    {
    }

    /** Any number of interrupts, with any bytes in the FIFO. */
    method Interrupts()
      requires Valid()
      modifies data, `wp, `accepted
      ensures Valid() && old(accepted) <= accepted
    {
      hide Valid;
      var times: nat := *;
      while times > 0
        invariant Valid() && old(accepted) <= accepted
      {
        var fifo: seq<byte> := *;
        var console: bool := *;
        var magic: byte -> bool := *;
        var rest, taken := Pl011Irq(fifo, console, magic);
        times := times - 1;
      }
    }

    /** `memcpy_s` out of the ring, interruptible after every byte, from the slots
        of the counts from `k` on. */
    method CopyOut(from: int, n: nat, ghost k: nat) returns (out: seq<byte>)
      requires Valid() && |delivered| <= k && k + n <= |accepted| && 0 <= from && from + n <= BUF_SIZE
      requires n > 0 ==> from == Slot(k, BUF_SIZE)
      modifies data, `wp, `accepted
      ensures Valid() && old(accepted) <= accepted && out == old(accepted)[k..k + n]
    {
      hide Valid, Slot, Holds;
      out := [];
      var i := 0;
      while i < n
        invariant 0 <= i <= n && Valid() && old(accepted) <= accepted
        invariant out == old(accepted)[k..k + i]
      {
        SlotAdd(k, i, BUF_SIZE);
        StillThere(k + i);
        out := out + [data[from + i]];
        i := i + 1;
        Interrupts();
      }
    }

    /** The two copies of a read that goes round the end of the ring. */
    method CopyAround(from: int, upper: nat, lower: nat, ghost k: nat) returns (out: seq<byte>)
      requires Valid() && |delivered| <= k && k + upper + lower <= |accepted|
      requires 0 <= from < BUF_SIZE && from + upper <= BUF_SIZE && from == Slot(k, BUF_SIZE)
      requires 0 <= lower <= from && (lower > 0 ==> from + upper == BUF_SIZE)
      modifies data, `wp, `accepted
      ensures Valid() && old(accepted) <= accepted && out == old(accepted)[k..k + upper + lower]
    {
      hide Valid, Slot, Holds;
      var u := CopyOut(from, upper, k);
      SlotAdd(k, upper, BUF_SIZE);
      SamePart(old(accepted), accepted, k + upper, lower);
      var l := CopyOut(0, lower, k + upper);
      out := u + l;
    }

    /** A byte not yet read is in its slot whatever has been accepted since. */
    lemma StillThere(k: nat)
      requires Valid() && |delivered| <= k < |accepted|
      ensures data.Length == BUF_SIZE && 0 <= Slot(k, BUF_SIZE) < BUF_SIZE
      ensures data[Slot(k, BUF_SIZE)] == accepted[k]
    {
      hide Slot;
      HoldsAt(data[..], BUF_SIZE, accepted, |delivered|, k);
    }

    /** `Pl011Read`: at most `count` of the bytes that were there when `wp` was
        read, in order.  `rp` is stored only after all of them have been copied. */
    method Pl011Read(count: nat) returns (ret: int, out: seq<byte>)
      requires Valid()
      modifies data, `wp, `rp, `accepted, `delivered
      ensures Valid() && old(accepted) <= accepted
      ensures count == 0 ==> ret == HDF_ERR_INVALID_PARAM && delivered == old(delivered)
      ensures count > 0 ==> ret == Min(count, old(Held())) && delivered == old(delivered) + out
      ensures count > 0 ==> out == old(accepted)[old(|delivered|)..old(|delivered|) + ret]
    {
      hide Valid, Slot, Holds;
      out := [];
      if count == 0 {
        return HDF_ERR_INVALID_PARAM, out;
      }
      ghost var n, k := |accepted|, |delivered|;
      Indices();
      HeldFits();
      var w := wp;
      Interrupts();
      Indices();
      var r := rp;
      Interrupts();
      if r == w {
        return 0, out;
      }
      ghost var a := accepted;
      ret, r, out := CopyHalves(r, w, count, k, n);
      SamePart(old(accepted), a, k, ret);
      ghost var a' := accepted;
      SamePart(a, a', k, ret);
      Interrupts();
      SamePart(a', accepted, k, ret);
      StoreRp(r, out, k);
    }

    /** The copying part of a read from slot `rp`, given the `wp` it has loaded,
        which was the slot of count `n`. */
    method CopyHalves(rp0: int, w: int, count: nat, ghost k: nat, ghost n: nat)
      returns (ret: nat, r: int, out: seq<byte>)
      requires Valid() && k == |delivered| < n <= |accepted|
      requires rp0 == Slot(k, BUF_SIZE) && w == Slot(n, BUF_SIZE) && rp0 != w && n < k + BUF_SIZE
      modifies data, `wp, `accepted
      ensures Valid() && old(accepted) <= accepted
      ensures ret == Min(count, n - k) && out == old(accepted)[k..k + ret] && r == Slot(k + ret, BUF_SIZE)
    {
      Distance(k, n, BUF_SIZE);
      SlotOfCount(k);
      SlotOfCount(n);
      hide Valid, Slot, Holds;
      var upperHalf, lowerHalf := 0, 0;
      r := rp0;
      if r < w {
        upperHalf := if count > w - r then w - r else count;
        SlotAdd(k, upperHalf, BUF_SIZE);
        out := CopyOut(r, upperHalf, k);
        r := r + upperHalf;
      } else {
        var c := if count > BUF_SIZE - r + w then BUF_SIZE - r + w else count;
        upperHalf := if c > BUF_SIZE - r then BUF_SIZE - r else c;
        lowerHalf := if c > BUF_SIZE - r then c - (BUF_SIZE - r) else 0;
        SlotAdd(k, upperHalf + lowerHalf, BUF_SIZE);
        out := CopyAround(r, upperHalf, lowerHalf, k);
        r := r + upperHalf;
        if r >= BUF_SIZE {
          r := lowerHalf;
        }
      }
      ret := upperHalf + lowerHalf;
    }

    /** `rxTransfer->rp = rp`. */
    method StoreRp(r: int, ghost out: seq<byte>, ghost k: nat)
      requires Valid() && k == |delivered| && k + |out| <= |accepted|
      requires out == accepted[k..k + |out|] && r == Slot(k + |out|, BUF_SIZE)
      modifies `rp, `delivered
      ensures Valid() && delivered == old(delivered) + out
    {
      hide Slot;
      rp := r;
      delivered := delivered + out;
    }

    /** What the two indices say about the counts behind them. */
    lemma Indices()
      requires Valid()
      ensures rp == Slot(|delivered|, BUF_SIZE) && wp == Slot(|accepted|, BUF_SIZE)
      ensures 0 <= rp < BUF_SIZE && 0 <= wp < BUF_SIZE
      ensures Held() == |accepted| - |delivered| == if rp <= wp then wp - rp else BUF_SIZE - rp + wp
    {
      Distance(|delivered|, |accepted|, BUF_SIZE);
    }
  }
}
