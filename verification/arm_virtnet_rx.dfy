/** The receive handler of the ARM virtio network driver: copy each received
    frame to a NetBuf, and make all buffers available again at the end. */
module ArmVirtnetRx {
  import opened VirtqRing
  import opened RxModel
  import opened BatchedRx

  const PER_RXBUF_SIZE: nat := 12 + 1514   // a VirtnetHdr and a frame

  /** What became of a received frame. */
  datatype Frame<T> = Copied(data: T) | NoNetBuf

  /** Frame `i` was copied as it arrived if `got[i]`, and dropped otherwise. */
  ghost predicate CopiesOf<T>(log: seq<Frame<T>>, got: seq<bool>, arrived: seq<T>, to: int) {
    && 0 <= to == |log| == |got| <= |arrived|
    && forall i :: 0 <= i < to ==> log[i] == if got[i] then Copied(arrived[i]) else NoNetBuf
  }

  lemma CopiesAppend<T>(log: seq<Frame<T>>, got: seq<bool>, arrived: seq<T>, g: bool)
    requires CopiesOf(log, got, arrived, |log|) && |log| < |arrived|
    ensures CopiesOf(log + [if g then Copied(arrived[|log|]) else NoNetBuf], got + [g], arrived, |log| + 1)
  {
  }

  lemma CopiesLater<T>(log: seq<Frame<T>>, got: seq<bool>, arrived: seq<T>, arrived': seq<T>, to: int)
    requires CopiesOf(log, got, arrived, to) && arrived <= arrived'
    ensures CopiesOf(log, got, arrived', to)
  {
  }

  lemma CopiesLength<T>(log: seq<Frame<T>>, got: seq<bool>, arrived: seq<T>, to: int)
    requires CopiesOf(log, got, arrived, to)
    ensures to == |log| == |got| <= |arrived|
  {
  }

  class VirtNetifRx<T(0)> {
    const b: BatchedQueue<T>
    var got: seq<bool>      // answers of NetBufDevAlloc: was there a NetBuf?
    var log: seq<Frame<T>>  // what was done with each frame
    ghost var ahead: nat    // 1 once the frame in hand has been copied

    ghost predicate Valid()
      reads `log, `got, `ahead, b`trace, b`m, b`arrived, b.buf
      reads b.q`published, b.q`staged, b.q`nSeen, b.q`availIndex, b.q`seen
      reads b.q`held, b.q.ring, b.q`completed, b.q`raised, b.q`nLast, b.q`cur, b.q`usedIndex, b.q`last, b.q.elems
      reads b.q`flag, b.q`stored, b.q.desc
    {
      b.Valid() && CopiesOf(log, got, b.arrived, b.Processed() + ahead)
    }

    constructor (queue: Virtq, rbuf: int)
      requires queue.Valid() && queue.Untouched()
      modifies queue.desc, queue.ring, queue`staged, queue`published, queue`availIndex
      ensures Valid() && fresh(b) && fresh(b.buf) && b.q == queue && b.base == rbuf && b.size == 1526
      ensures ahead == 0 && log == [] && got == [] && b.m == Init(queue.qsz)
      ensures |queue.staged| == |queue.completed| == queue.cur == queue.nLast == 0
    {
      hide BatchedQueue.Valid;
      b := new BatchedQueue(queue, rbuf, PER_RXBUF_SIZE);
      log, got, ahead := [], [], 0;
    }

    method Device()
      requires Valid()
      modifies b, b.q, b.q.elems, b.buf
      ensures Valid() && b.Processed() == old(b.Processed())
      ensures b.q.flag == old(b.q.flag) && b.q.cur == old(b.q.cur) && b.q.nLast == old(b.q.nLast)
      ensures b.q.staged == old(b.q.staged) && b.q.published == old(b.q.published) && b.m.hand == old(b.m.hand)
      ensures |b.q.Used()| >= old(|b.q.Used()|) && old(b.arrived) <= b.arrived && old(b.q.completed) <= b.q.completed
      ensures old(b.q.raised) <= b.q.raised && b.q.stored == old(b.q.stored) && log == old(log) && got == old(got)
      ensures b.q.flags == old(b.q.flags)
    {
      hide BatchedQueue.Valid, CopiesOf;
      b.DeviceSteps();
      CopiesLater(log, got, old(b.arrived), b.arrived, b.Processed() + ahead);
    }

    /** `NetBufDevAlloc`. */
    method NetBufDevAlloc() returns (ok: bool)
      modifies `got
      ensures got == old(got) + [ok]
    {
      ok := *;
      got := got + [ok];
    }

    /** `LowLevelInput`: copy the frame out, if a NetBuf can be had. */
    method Input(e: UsedElem)
      requires Valid() && ahead == 0 && 0 <= e.id < b.buf.Length
      requires 0 <= b.Processed() < |b.arrived| && b.buf[e.id] == b.arrived[b.Processed()]
      modifies `log, `got, `ahead
      ensures Valid() && ahead == 1 && |got| == |old(got)| + 1 && old(got) <= got
      ensures log == old(log) + [if got[|old(got)|] then Copied(b.arrived[b.Processed()]) else NoNetBuf]
    {
      hide BatchedQueue.Valid, CopiesOf;
      CopiesLength(log, got, b.arrived, b.Processed());
      var ok := NetBufDevAlloc();
      CopiesAppend(log, old(got), b.arrived, ok);
      log := log + [if ok then Copied(b.buf[e.id]) else NoNetBuf];
      ahead := 1;
    }

    /** `avail->ring[(avail->index + add++) % qsz] = e->id`. */
    method Recycle(add: nat)
      requires Valid() && ahead == 1 && b.q.cur == 1 && |b.m.hand| == 1 && add == |b.q.staged|
      modifies b`m, b`trace, b.q.ring, b.q`staged, `ahead
      ensures Valid() && ahead == 0 && b.m.hand == [] && |b.q.staged| == add + 1 <= b.q.qsz
    {
      hide BatchedQueue.Valid, CopiesOf;
      var id := b.RereadId();
      b.Recycle(add, id);
      b.BatchFits();
      ahead := 0;
    }

    method Finish()
      requires Valid() && b.q.cur == 1 && b.m.hand == []
      modifies b.q`last, b.q`nLast, b.q`cur
      ensures Valid() && b.q.cur == 0 && b.q.nLast == old(b.q.nLast) + 1
    {
      hide BatchedQueue.Valid, CopiesOf;
      b.Finish();
    }

    method PickUp() returns (e: UsedElem)
      requires Valid() && ahead == 0 && b.q.cur == 0 && b.q.Used() != []
      modifies b`m, b`trace, b.q`cur
      ensures Valid() && b.q.cur == 1 && |b.m.hand| == 1
      ensures 0 <= e.id < b.buf.Length && 0 <= b.Processed() < |b.arrived| && b.buf[e.id] == b.arrived[b.Processed()]
    {
      hide BatchedQueue.Valid, CopiesOf;
      e := b.PickUp();
    }

    /** `avail->flag = v`. */
    method SetFlag(v: int)
      requires Valid()
      modifies b.q`flag, b.q`stored, b.q`flags
      ensures Valid() && b.q.flag == v && b.q.stored == |b.q.completed| && b.q.flags == old(b.q.flags) + [v]
    {
      hide BatchedQueue.Valid, CopiesOf;
      b.SetFlag(v);
    }

    /** `last == used->index`. */
    method Pending() returns (some: bool)
      requires Valid() && b.q.cur == 0
      ensures some <==> b.q.Used() != []
      ensures !some ==> b.q.nLast == |b.q.completed|
    {
      hide CopiesOf;
      some := b.Pending();
    }

    /** The handler.  It ends within `qsz` rounds whatever the device does,
        because no buffer becomes available to the device before the end.  What
        had been completed before is handled, in order; what is left behind was
        completed after interrupts were enabled for the last time. */
    method VirtnetRxHandle() returns (ghost n: nat)
      requires Valid() && b.q.cur == 0 && b.m.hand == [] && b.q.staged == [] && ahead == 0
      modifies this, b, b.q, b.q.ring, b.q.elems, b.buf
      ensures Valid() && b.q.cur == 0 && b.m.hand == [] && b.q.staged == [] && ahead == 0
      ensures n <= b.q.qsz && b.q.nLast == old(b.q.nLast) + n
      ensures Republished(b.q.published, old(|b.q.published|), b.q.completed, old(b.q.nLast), n)
      ensures old(b.q.published) <= b.q.published && old(b.q.completed) <= b.q.completed
      ensures old(|b.q.completed|) <= b.q.stored <= b.q.nLast && b.q.AllRaised()
      ensures old(b.q.flags) <= b.q.flags && LeftEnabled(b.q.flags, |old(b.q.flags)|)
      ensures old(log) <= log && old(got) <= got && |log| == b.q.nLast
      ensures old(b.arrived) <= b.arrived && CopiesOf(log, got, b.arrived, |log|)
    {
      hide *;
      SetFlag(NO_INTERRUPT);
      SuppressNow(old(b.q.flags));
      var add := 0;
      ghost var last := b.q.nLast;
      while true
        invariant old(b.q.flags) <= b.q.flags && Suppressed(b.q.flags, |old(b.q.flags)|)
        invariant Valid() && b.q.cur == 0 && b.m.hand == [] && ahead == 0
        invariant |b.q.staged| == add <= b.q.qsz && b.q.nLast == last + add
        invariant b.q.published == old(b.q.published) && old(b.q.completed) <= b.q.completed
        invariant old(log) <= log && old(got) <= got && old(b.arrived) <= b.arrived
        decreases b.q.qsz - add
      {
        var some := NextOrEnable(|old(b.q.flags)|);
        if !some {
          break;
        }
        HandleOne(add);
        add := add + 1;
      }
      MakeAvailable(add, last);
      n := add;
      Left();
    }

    /** Check the ring; if it is empty enable interrupts and check once more. */
    method NextOrEnable(ghost from: nat) returns (some: bool)
      requires Valid() && b.q.cur == 0 && b.m.hand == [] && ahead == 0 && Suppressed(b.q.flags, from)
      modifies this, b, b.q, b.q.elems, b.buf
      ensures Valid() && b.q.cur == 0 && b.m.hand == [] && ahead == 0
      ensures b.q.staged == old(b.q.staged) && b.q.published == old(b.q.published) && b.q.nLast == old(b.q.nLast)
      ensures old(b.q.completed) <= b.q.completed && log == old(log) && got == old(got) && old(b.arrived) <= b.arrived
      ensures if some then b.q.Used() != [] else b.q.flag == 0 && old(|b.q.completed|) <= b.q.stored <= b.q.nLast
      ensures old(b.q.flags) <= b.q.flags
      ensures if some then Suppressed(b.q.flags, from) else LeftEnabled(b.q.flags, from)
    {
      hide Valid, Virtq.Used;
      Device();
      some := Pending();
      Device();
      if !some {
        EnableNow(b.q.flags, from);
        SetFlag(0);
        Device();
        some := Pending();
        Device();
        if some {
          SetFlag(NO_INTERRUPT);
          Device();
        }
      }
    }

    /** One round of the loop. */
    method HandleOne(add: nat)
      requires Valid() && b.q.cur == 0 && b.m.hand == [] && ahead == 0
      requires b.q.Used() != [] && add == |b.q.staged|
      modifies this, b, b.q, b.q.ring, b.q.elems, b.buf
      ensures Valid() && b.q.cur == 0 && b.m.hand == [] && ahead == 0
      ensures |b.q.staged| == add + 1 <= b.q.qsz
      ensures b.q.published == old(b.q.published) && b.q.nLast == old(b.q.nLast) + 1
      ensures old(b.q.completed) <= b.q.completed && old(log) <= log && old(got) <= got && old(b.arrived) <= b.arrived
      ensures b.q.flags == old(b.q.flags)
    {
      hide *;
      Device();
      var e := PickUp();
      Input(e);
      Device();
      Recycle(add);
      Device();
      Finish();
    }

    /** What the handler leaves behind when it has found the ring empty since
        interrupts were enabled. */
    lemma Left()
      requires Valid() && b.q.cur == 0 && b.m.hand == [] && ahead == 0
      requires b.q.flag == 0 && b.q.stored <= b.q.nLast
      ensures b.q.AllRaised() && |log| == b.q.nLast && CopiesOf(log, got, b.arrived, |log|)
    {
      b.q.Signalled();
      hide Virtq.AllRaised, Intact, BatchIs, Run, Inv;
    }

    /** After the loop: the batch becomes available in one step. */
    method MakeAvailable(add: nat, ghost last: nat)
      requires Valid() && b.q.cur == 0 && b.m.hand == [] && add == |b.q.staged| && b.q.nLast == last + add
      modifies this, b, b.q, b.q.elems, b.buf
      ensures Valid() && b.q.cur == 0 && b.m.hand == [] && b.q.staged == [] && b.q.nLast == last + add
      ensures Republished(b.q.published, old(|b.q.published|), b.q.completed, last, add)
      ensures old(b.q.published) <= b.q.published && ahead == old(ahead)
      ensures b.q.flag == old(b.q.flag) && b.q.stored == old(b.q.stored) && log == old(log) && got == old(got)
      ensures b.q.flags == old(b.q.flags)
      ensures old(b.q.completed) <= b.q.completed && old(b.arrived) <= b.arrived
    {
      hide BatchedQueue.Valid, CopiesOf, Republished;
      Device();
      ghost var from := |b.q.published|;
      b.CommitBatch(add, last);
      ghost var done := b.q.completed;
      Device();
      RepublishedLater(b.q.published, from, done, b.q.completed, last, add);
    }
  }
}
