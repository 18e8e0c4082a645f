/** The transmit half of the two virtio network drivers.

    The RISC-V driver cuts variable-length descriptor chains off one free list
    and splices them back in whatever order the device finishes them.  The ARM
    driver (`fixedPair`) does the same with two descriptors a packet, and needs
    no record of a chain's length and tail: the tail is the head's `next`.

    The device runs between any two of the steps below (`DeviceSteps`), and the
    interrupt handler between any two steps of the sending task (`Interrupt`). */
module VirtnetTxDriver {
  import opened RingIndex
  import opened VirtqRing
  import opened Counting
  import opened Traces
  import opened TxModel
  import opened DescTable

  const HDR_BYTES := 12   // sizeof(struct VirtnetHdr)

  datatype SendResult = Sent | TooLong

  /** The length check on the 16-bit count refuses exactly the packets too long for
      the queue if and only if the count does not wrap to one that fits. */
  lemma LengthCheckExact(n: nat, qsz: nat)
    requires qsz < U16
    ensures (n % U16 + 1) % U16 == (n + 1) % U16
    ensures ((n + 1) % U16 > qsz <==> n + 1 > qsz) <==> n + 1 < U16 || (n + 1) % U16 > qsz
  {
  }

  /** Where the check fails, the chain asked for is shorter than the packet needs.
      At 65535 segments it has no entry at all, whatever the queue, so the walk
      that finds the chain's tail takes no step. */
  lemma LengthCheckFails(n: nat, qsz: nat)
    requires n + 1 >= U16 && (n + 1) % U16 <= qsz < U16
    ensures qsz < n + 1 && (n % U16 + 1) % U16 <= qsz
    ensures n == 65535 ==> (n % U16 + 1) % U16 == 0
  {
    LengthCheckExact(n, qsz);
  }

  /** From `from` on, all numbers are below `n`. */
  ghost predicate AllBelow(s: seq<uint16>, from: nat, n: nat) {
    forall k :: from <= k < |s| ==> s[k] < n
  }

  /** The chains' heads are the ids `ids`. */
  ghost predicate Heads(cs: seq<Chain>, ids: seq<int>) {
    |cs| == |ids| && forall i :: 0 <= i < |cs| ==> |cs[i].ids| > 0 && cs[i].ids[0] == ids[i]
  }

  ghost predicate UsedHeads(cs: seq<Chain>, es: seq<UsedElem>) {
    |cs| == |es| && forall i :: 0 <= i < |cs| ==> |cs[i].ids| > 0 && cs[i].ids[0] == es[i].id
  }

  /** Between two states of an interrupt the sending task's own descriptors are
      untouched, nothing is sent, no completion is forgotten, and each packet
      released is work done. */
  ghost predicate Moved(m: Tx, d: seq<Desc>, m': Tx, d': seq<Desc>) {
    && m'.pend == m.pend && m'.sent == m.sent && SameOn(d, d', m.pend)
    && |m'.freed| + |m'.used| >= |m.freed| + |m.used|
    && |m'.freed| >= |m.freed| && Work(m') + |m'.freed| <= Work(m) + |m.freed|
  }

  lemma MovedTrans(m: Tx, d: seq<Desc>, m': Tx, d': seq<Desc>, m'': Tx, d'': seq<Desc>)
    requires Moved(m, d, m', d') && Moved(m', d', m'', d'')
    ensures Moved(m, d, m'', d'')
  {
    SameOnTrans(d, d', d'', m.pend);
  }

  lemma MovedByDevice(m: Tx, m': Tx, d: seq<Desc>)
    requires m' == m.(avail := m'.avail, held := m'.held, used := m'.used, returned := m'.returned)
    requires m.used <= m'.used && Work(m') <= Work(m)
    ensures Moved(m, d, m', d)
  {
  }

  lemma MovedCount(m: Tx, d: seq<Desc>, m': Tx, d': seq<Desc>)
    requires Moved(m, d, m', d')
    ensures |m'.freed| + |m'.used| >= |m.freed| + |m.used|
    ensures |m'.freed| >= |m.freed| && Work(m') + |m'.freed| <= Work(m) + |m.freed|
  {
  }

  lemma MovedPend(m: Tx, d: seq<Desc>, m': Tx, d': seq<Desc>)
    requires Moved(m, d, m', d')
    ensures m'.pend == m.pend && m'.sent == m.sent && SameOn(d, d', m.pend)
  {
  }

  lemma SameAt(d: seq<Desc>, d': seq<Desc>, ids: seq<int>, k: nat)
    requires SameOn(d, d', ids) && k < |ids| && 0 <= ids[k] < |d|
    ensures |d'| == |d| && d'[ids[k]] == d[ids[k]]
  {
  }

  lemma MovedByReclaim(m: Tx, d: seq<Desc>, d': seq<Desc>)
    requires m.used != [] && SameOn(d, d', m.pend)
    ensures Moved(m, d, Step(m, Reclaim), d')
  {
  }

  lemma HeadsLength(cs: seq<Chain>, ids: seq<int>)
    requires Heads(cs, ids)
    ensures |cs| == |ids|
  {
  }

  lemma UsedHeadsLength(cs: seq<Chain>, es: seq<UsedElem>)
    requires UsedHeads(cs, es)
    ensures |cs| == |es|
  {
  }

  lemma HeadsFetch(m: Tx, avail: seq<int>, held: seq<int>)
    requires Heads(m.avail, avail) && Heads(m.held, held) && m.avail != []
    ensures var t := Step(m, Event.Fetch); Heads(t.avail, avail[1..]) && Heads(t.held, held + [avail[0]])
  {
  }

  lemma HeadsComplete(m: Tx, held: seq<int>, used: seq<UsedElem>, k: nat, e: UsedElem)
    requires Heads(m.held, held) && UsedHeads(m.used, used) && k < |held| && e.id == held[k]
    ensures var t := Step(m, Event.Complete(k));
            Heads(t.held, held[..k] + held[k + 1..]) && UsedHeads(t.used, used + [e])
  {
  }

  lemma HeadsReclaim(m: Tx, used: seq<UsedElem>)
    requires UsedHeads(m.used, used) && used != []
    ensures m.used != [] && UsedHeads(Step(m, Reclaim).used, used[1..]) && m.used[0].ids != []
    ensures m.used[0].ids[0] == used[0].id
  {
  }

  lemma HeadsPublish(m: Tx, avail: seq<int>, p: Packet)
    requires Heads(m.avail, avail) && m.pend != []
    ensures Heads(m.avail + [Chain(m.pend, p)], avail + [m.pend[0]])
  {
  }

  lemma InitIs(qsz: nat)
    ensures var s := Init(qsz);
            && Run(qsz, []) == Reached(s) && |s.free| == qsz
            && s.avail == [] && s.held == [] && s.used == [] && s.pend == [] && s.sent == [] && s.freed == []
    ensures Heads([], []) && UsedHeads([], []) && Logged([], [])
  {
  }

  /** The log `ptrs` holds the addresses of the packets `ps`. */
  ghost predicate Logged(ps: seq<Packet>, ptrs: seq<int>) {
    |ps| == |ptrs| && forall i :: 0 <= i < |ps| ==> ps[i].ptr == ptrs[i]
  }

  lemma LoggedAppend(ps: seq<Packet>, ptrs: seq<int>, p: Packet)
    requires Logged(ps, ptrs)
    ensures Logged(ps + [p], ptrs + [p.ptr])
  {
  }

  class VirtNetif {
    const q: Virtq                    // dev.vq[1]
    const vnHdr: Seg
    const tbufRec: array<TbufRecord>  // the ARM driver stores and reads only `head`
    const fixedPair: bool
    var tFreeHdr: uint16
    var tFreeNum: uint16
    var referenced: seq<int>          // packets taken over: calls of pbuf_ref, or NetBufs handed in
    var released: seq<int>            // packets released: calls of pbuf_free_callback or NetBufFree
    var yielded: seq<uint16>          // calls of LOS_TaskYield: how many entries were free then

    ghost var trace: seq<Event>
    ghost var m: Tx
    ghost var reclaiming: nat         // 1 between reading a used element and freeing its chain

    /** The rings hold the heads of the chains of `t`; `r` is 1 while the chain
        of the element being handled has not been freed. */
    ghost predicate RingsAre(t: Tx, r: nat)
      reads q`published, q`staged, q`nSeen, q`held, q`completed, q`nLast, q`cur
    {
      && r <= q.cur <= 1 && q.nSeen <= |q.published|
      && q.nLast + q.cur <= |q.completed|
      && Heads(t.avail, q.Avail()) && Heads(t.held, q.held)
      && UsedHeads(t.used, q.completed[q.nLast + q.cur - r..])
      && (|q.staged| == 0 || (|t.pend| > 0 && |q.staged| == 1 && q.staged[0] == t.pend[0]))
    }

    /** The table and the free-list fields agree with `t`. */
    ghost predicate TableIs(t: Tx)
      reads `tFreeHdr, `tFreeNum, q.desc, tbufRec
    {
      Table(q.qsz, q.desc[..], tbufRec[..], vnHdr, tFreeHdr, tFreeNum, t)
    }

    /** The ARM driver is the general one restricted to requests for two. */
    ghost predicate Paired()
      reads `trace
    {
      fixedPair ==> PairTrace(trace)
    }

    /** Number of chains in flight. */
    ghost function Flying(): nat
      reads `m
    {
      |m.avail| + |m.held| + |m.used|
    }

    ghost predicate Valid()
      reads `tFreeHdr, `tFreeNum, `referenced, `released, `trace, `m, `reclaiming, tbufRec, q.desc
      reads q`published, q`staged, q`nSeen, q`availIndex, q`seen, q`held, q.ring
      reads q`completed, q`raised, q`nLast, q`cur, q`usedIndex, q`last, q.elems, q`flag, q`stored
    {
      && q.Valid() && 0 < q.qsz <= 0x8000
      && tbufRec as object != q.ring && tbufRec as object != q.elems && tbufRec as object != q.desc
      && Run(q.qsz, trace) == Reached(m) && Paired()
      && TableIs(m)
      && RingsAre(m, reclaiming)
      && Logged(m.freed, released)
      && |m.sent| <= |referenced| && Logged(m.sent, referenced[..|m.sent|])
    }

    /** `InitTxFreelist` on a fresh queue. */
    constructor (queue: Virtq, hdr: int, pair: bool)
      requires queue.Valid() && queue.Untouched()
      requires forall i :: 0 <= i < queue.desc.Length ==> queue.desc[i] == Desc(0, 0, 0, 0)
      modifies queue.desc
      ensures Valid() && Idle() && q == queue && vnHdr == Seg(hdr, 12) && fixedPair == pair && fresh(tbufRec)
      ensures trace == [] && m == Init(queue.qsz) && referenced == [] && released == [] && yielded == []
    {
      hide TableIs, RingsAre, Init, Run, Heads, UsedHeads, Logged;
      assert queue.desc as object != queue.ring && queue.desc as object != queue.elems;
      assert 0 < queue.desc.Length == queue.qsz <= 0x8000;
      hide Virtq.Valid;
      q, vnHdr, fixedPair := queue, Seg(hdr, HDR_BYTES), pair;
      tbufRec := new TbufRecord[queue.qsz](i => TbufRecord(0, 0, 0));
      tFreeHdr, tFreeNum := 0, queue.qsz;
      referenced, released, yielded := [], [], [];
      trace, m, reclaiming := [], Init(queue.qsz), 0;
      new;
      InitTxFreelist(q.desc);
      TableFresh();
      InitIs(q.qsz);
      FreshRings();
      assert referenced[..0] == [];
    }

    lemma FreshRings()
      requires q.Untouched()
      ensures RingsAre(Init(q.qsz), 0)
    {
      InitIs(q.qsz);
      hide Init, Heads, UsedHeads;
      assert q.Avail() == [] && q.completed[0..] == [];
    }

    lemma TableFresh()
      requires q.desc.Length == q.qsz == tbufRec.Length > 0 && tFreeHdr == 0 && tFreeNum == q.qsz
      requires forall k :: 0 <= k < q.qsz - 1 ==> q.desc[k].flag == F_NEXT && q.desc[k].next == k + 1
      requires q.desc[q.qsz - 1].flag == 0
      ensures TableIs(Init(q.qsz))
    {
      TableInit(q.qsz, q.desc[..], tbufRec[..], vnHdr);
    }

    /** Thread the free list through the descriptors. */
    static method InitTxFreelist(desc: array<Desc>)
      requires 0 < desc.Length <= U16
      modifies desc
      ensures forall k :: 0 <= k < desc.Length - 1 ==> desc[k].flag == F_NEXT && desc[k].next == k + 1
      ensures desc[desc.Length - 1] == old(desc[desc.Length - 1])
    {
      var i := 0;
      while i < desc.Length - 1
        invariant 0 <= i <= desc.Length - 1
        invariant forall k :: 0 <= k < i ==> desc[k].flag == F_NEXT && desc[k].next == k + 1
        invariant desc[desc.Length - 1] == old(desc[desc.Length - 1])
      {
        desc[i] := desc[i].(flag := F_NEXT, next := i + 1);
        i := i + 1;
      }
    }

    /** Fetch or complete: the ghost state follows the device. */
    ghost method Follow(e: Event)
      requires Run(q.qsz, trace) == Reached(m) && Enabled(m, e)
      requires Paired() && (fixedPair && e.Alloc? ==> e.n == 2)
      modifies `m, `trace
      ensures m == Step(old(m), e) && trace == old(trace) + [e] && Run(q.qsz, trace) == Reached(m) && Paired()
    {
      RunExtend(q.qsz, trace, m, e);
      m, trace := Step(m, e), trace + [e];
    }

    method DeviceFetch()
      requires Valid() && q.Avail() != []
      modifies q`seen, q`held, q`nSeen, `m, `trace
      ensures Valid() && m == Step(old(m), Event.Fetch) && DeviceMoved() && q.held != []
      ensures q.completed == old(q.completed) && q.raised == old(q.raised) && m.used == old(m.used)
    {
      hide Table, Run, Virtq.Valid, Heads, UsedHeads, Logged;
      HeadsLength(m.avail, q.Avail());
      HeadsFetch(m, q.Avail(), q.held);
      q.Fetch();
      TableDevice(q.qsz, q.desc[..], tbufRec[..], vnHdr, tFreeHdr, tFreeNum, m, Event.Fetch);
      Follow(Event.Fetch);
    }

    method DeviceComplete(k: nat, len: int)
      requires Valid() && k < |q.held| && q.credit > 0
      modifies q`usedIndex, q`held, q`completed, q`raised, q`credit, q.elems, `m, `trace
      ensures Valid() && m == Step(old(m), Event.Complete(k)) && DeviceMoved()
      ensures |q.completed| == old(|q.completed|) + 1 && q.raised == old(q.raised) + [q.flag == 0]
      ensures |m.used| == old(|m.used|) + 1
    {
      hide Table, Run, Virtq.Valid, Virtq.Avail, Virtq.Used, Heads, UsedHeads, Logged;
      HeadsLength(m.held, q.held);
      ghost var from := q.nLast + q.cur - reclaiming;
      HeadsComplete(m, q.held, q.completed[from..], k, UsedElem(q.held[k], len));
      q.Complete(k, len);
      assert q.completed[from..] == old(q.completed)[from..] + [UsedElem(old(q.held)[k], len)];
      TableDevice(q.qsz, q.desc[..], tbufRec[..], vnHdr, tFreeHdr, tFreeNum, m, Event.Complete(k));
      Follow(Event.Complete(k));
    }

    /** The histories only grow. */
    twostate predicate Grew()
      reads `trace, `released, `yielded, q`completed, q`raised
    {
      && old(trace) <= trace && old(released) <= released && old(yielded) <= yielded
      && old(q.completed) <= q.completed && old(q.raised) <= q.raised
    }

    /** The sending task has yielded only while fewer than `n` entries were free,
        and no more often than there was work in flight, `stalls` apart. */
    twostate predicate Waited(n: nat, stalls: nat)
      reads `yielded, `m
    {
      |yielded| <= |old(yielded)| + Work(old(m)) + stalls && AllBelow(yielded, |old(yielded)|, n)
    }

    /** The device may have fetched and completed chains, nothing else. */
    twostate predicate DeviceMoved()
      reads this, q
    {
      && m == old(m).(avail := m.avail, held := m.held, used := m.used, returned := m.returned)
      && Flying() == old(Flying()) && Work(m) <= Work(old(m)) && old(m.used) <= m.used && Grew()
      && (old(q.cur) == 1 ==> q.Current() == old(q.Current()))
    }

    /** At most one device step: fetch the next head or complete any held one. */
    method DeviceStep()
      requires Valid()
      modifies q`seen, q`held, q`nSeen, q`usedIndex, q`completed, q`raised, q`credit, q.elems, `m, `trace
      ensures Valid() && DeviceMoved()
    {
      hide Table, Run, QueueSize, AvailSide, UsedSide, Heads, UsedHeads, Logged;
      if * {
        var some := q.HasAvail();
        if some {
          DeviceFetch();
        }
      } else if q.held != [] && q.credit > 0 {
        var k: nat :| k < |q.held|;
        var len: int := *;
        DeviceComplete(k, len);
      }
    }

    /** Any number of device steps, in any order. */
    method DeviceSteps()
      requires Valid()
      modifies q`seen, q`held, q`nSeen, q`usedIndex, q`completed, q`raised, q`credit, q.elems, `m, `trace
      ensures Valid() && DeviceMoved()
    {
      hide Valid;
      var steps: nat := *;
      while steps > 0
        invariant Valid() && DeviceMoved()
      {
        DeviceStep();
        steps := steps - 1;
      }
    }

    /** The reads and the locked stores of `FreeTxEntry`. */
    method SpliceBack(head: int) returns (phead: int)
      requires q.qsz <= 0x8000 && q.desc != tbufRec as object
      requires TableIs(m) && m.used != [] && m.used[0].ids != [] && head == m.used[0].ids[0]
      modifies q.desc, `tFreeHdr, `tFreeNum
      ensures TableIs(Step(m, Reclaim)) && phead == m.used[0].pkt.ptr
      ensures SameOn(old(q.desc[..]), q.desc[..], m.pend)
    {
      ghost var d, c := q.desc[..], m.used[0];
      ReclaimReads(q.qsz, d, tbufRec[..], vnHdr, tFreeHdr, tFreeNum, m);
      TableReclaim(q.qsz, d, tbufRec[..], vnHdr, tFreeHdr, tFreeNum, m);
      assert |d| == q.qsz == |tbufRec[..]|;
      hide Table, Inv, ChainOk, RecOk, SameOn, Spliced, Step;
      var idx := q.desc[head].next;
      var count, tail := tbufRec[idx].count, tbufRec[idx].tail;
      phead := tbufRec[idx].head;
      SplicedIs(d, tail, tFreeHdr, tFreeNum);
      if tFreeNum > 0 {
        q.desc[tail] := q.desc[tail].(next := tFreeHdr, flag := F_NEXT);
      }
      tFreeNum := tFreeNum + count;
      tFreeHdr := head;
    }

    lemma OnlyPairs()
      requires Run(q.qsz, trace) == Reached(m) && Paired() && fixedPair
      ensures Pairs(m) && (m.used != [] ==> |m.used[0].ids| == 2) && |m.free| % 2 == q.qsz % 2
    {
      PairRun(q.qsz, trace);
      if m.used != [] {
        assert m.used[0] == InFlight(m)[|m.avail| + |m.held|];
      }
    }

    /** The same in the ARM driver, which finds the tail as the head's `next`. */
    method SplicePair(head: int) returns (nb: int)
      requires q.qsz <= 0x8000 && q.desc != tbufRec as object
      requires TableIs(m) && m.used != [] && |m.used[0].ids| == 2 && head == m.used[0].ids[0]
      modifies q.desc, `tFreeHdr, `tFreeNum
      ensures TableIs(Step(m, Reclaim)) && nb == m.used[0].pkt.ptr
      ensures SameOn(old(q.desc[..]), q.desc[..], m.pend)
    {
      ghost var d, c := q.desc[..], m.used[0];
      ReclaimReads(q.qsz, d, tbufRec[..], vnHdr, tFreeHdr, tFreeNum, m);
      PairTail(q.qsz, d, tbufRec[..], vnHdr, tFreeHdr, tFreeNum, m);
      TableReclaim(q.qsz, d, tbufRec[..], vnHdr, tFreeHdr, tFreeNum, m);
      assert |d| == q.qsz == |tbufRec[..]|;
      hide Table, Inv, ChainOk, RecOk, SameOn, Spliced, Step;
      var idx := q.desc[head].next;
      SplicedIs(d, idx, tFreeHdr, tFreeNum);
      if tFreeNum > 0 {
        q.desc[idx] := q.desc[idx].(next := tFreeHdr, flag := F_NEXT);
      }
      tFreeNum := tFreeNum + 2;
      tFreeHdr := head;
      nb := tbufRec[idx].head;
    }

    method Splice(head: int) returns (ptr: int)
      requires q.qsz <= 0x8000 && q.desc != tbufRec as object
      requires TableIs(m) && m.used != [] && m.used[0].ids != [] && head == m.used[0].ids[0]
      requires fixedPair ==> |m.used[0].ids| == 2
      modifies q.desc, `tFreeHdr, `tFreeNum
      ensures TableIs(Step(m, Reclaim)) && ptr == m.used[0].pkt.ptr
      ensures SameOn(old(q.desc[..]), q.desc[..], m.pend)
    {
      hide *;
      if fixedPair {
        ptr := SplicePair(head);
      } else {
        ptr := SpliceBack(head);
      }
    }

    /** Put the chain of a returned head back and release its packet. */
    method FreeTxEntry(head: int)
      requires Valid() && reclaiming == 1 && head == q.Current().id
      modifies q.desc, `tFreeHdr, `tFreeNum, `released, `reclaiming, `m, `trace
      ensures Valid() && reclaiming == 0 && m == Step(old(m), Reclaim) && Flying() + 1 == old(Flying())
      ensures SameOn(old(q.desc[..]), q.desc[..], m.pend) && Grew()
    {
      hide TableIs, Run, RingsAre, Logged, SameOn, Step, Enabled, Pairs, PairTrace, Heads, UsedHeads, Table, Inv;
      RingsReclaim();
      DescApart();
      hide Virtq.Valid;
      StepReclaim(m);
      LoggedAppend(m.freed, released, m.used[0].pkt);
      if fixedPair {
        OnlyPairs();
      }
      var phead := Splice(head);
      released := released + [phead];
      Follow(Reclaim);
      reclaiming := 0;
    }

    lemma RingsReclaim()
      requires RingsAre(m, 1)
      ensures m.used != [] && |m.used[0].ids| > 0 && m.used[0].ids[0] == q.Current().id
      ensures RingsAre(Step(m, Reclaim), 0)
    {
      HeadsReclaim(m, q.completed[q.nLast..]);
      assert q.completed[q.nLast..][1..] == q.completed[q.nLast + 1..];
      StepReclaim(m);
      hide Step, Heads, UsedHeads;
    }

    /** `q->last != q->used->index`. */
    method Returned() returns (some: bool)
      requires Valid() && q.cur == 0
      ensures some <==> m.used != []
      ensures !some ==> q.nLast == |q.completed|
    {
      hide Heads, TableIs, Run, Logged, FlagSide;
      some := q.HasUsed();
    }

    /** `avail->flag = v`. */
    method SetFlag(v: int)
      requires Valid()
      modifies q`flag, q`stored, q`flags
      ensures Valid() && q.flag == v && q.stored == |q.completed| && q.flags == old(q.flags) + [v]
    {
      hide Heads, UsedHeads, TableIs, Run, Logged, Virtq.Valid;
      q.SetFlag(v);
    }

    lemma FlagIs()
      requires Valid()
      ensures FlagSide(q.flag, q.raised, q.stored) && |q.raised| == |q.completed|
    {
      hide FlagSide, QueueSize, AvailSide, UsedSide, Heads, UsedHeads, TableIs, Run, Logged;
    }

    method PickUp() returns (e: UsedElem)
      requires Valid() && q.cur == 0 && m.used != []
      modifies q`cur, `reclaiming
      ensures Valid() && q.cur == 1 && reclaiming == 1 && e == q.Current()
    {
      hide Heads, UsedHeads, TableIs, Run, Logged, Virtq.Valid;
      UsedHeadsLength(m.used, q.completed[q.nLast + q.cur - reclaiming..]);
      assert q.Used() == q.completed[q.nLast..];
      e := q.Take();
      reclaiming := 1;
    }

    method Finish()
      requires Valid() && q.cur == 1 && reclaiming == 0
      modifies q`last, q`nLast, q`cur
      ensures Valid() && q.cur == 0
    {
      hide Heads, UsedHeads, TableIs, Run, Logged;
      q.Advance();
    }

    /** The interrupt handler: reclaim every returned chain.  There is no second
        check after interrupts are enabled again, so the completions left behind
        without an interrupt are exactly those made before the store that enables
        them. */
    method VirtnetTxHandle()
      requires Valid() && q.cur == 0 && reclaiming == 0
      modifies q`flag, q`stored, q`flags, q`cur, q`last, q`nLast
      modifies q`seen, q`held, q`nSeen, q`usedIndex, q`completed, q`raised, q`credit, q.elems
      modifies q.desc, `tFreeHdr, `tFreeNum, `released, `reclaiming, `m, `trace
      ensures Valid() && q.cur == 0 && reclaiming == 0 && Moved(old(m), old(q.desc[..]), m, q.desc[..]) && Grew()
      ensures |m.freed| >= |old(m.freed)| + |old(m.used)|
      ensures old(|q.completed|) <= q.nLast <= q.stored && q.flag == 0 && LeftBehind(q.raised, q.nLast, q.stored)
      ensures q.flags == old(q.flags) + [1] + [0]
    {
      hide Valid, Moved, LeftBehind, FlagSide;
      ghost var m0, d0 := m, q.desc[..];
      SetFlag(NO_INTERRUPT);
      DeviceSteps();
      MovedByDevice(m0, m, d0);
      ghost var m1 := m;
      ReclaimAll();
      ghost var m2, d2 := m, q.desc[..];
      MovedTrans(m0, d0, m1, d0, m2, d2);
      MovedCount(m0, d0, m2, d2);
      EnableInterrupts();
      MovedByDevice(m2, m, d2);
      MovedTrans(m0, d0, m2, d2, m, d2);
    }

    /** One run of the handler in which the device makes a completion after the last
        look at the ring and before the store that enables interrupts: possible in
        every state in which no chain waits to be reclaimed and the device has one
        to finish.  The completion is left behind and raised no interrupt. */
    method LeavesOneBehind(len: int)
      requires Valid() && q.cur == 0 && reclaiming == 0 && m.used == []
      requires (q.held != [] || q.Avail() != []) && q.credit > 0
      modifies q`flag, q`stored, q`flags, q`seen, q`held, q`nSeen
      modifies q`usedIndex, q`completed, q`raised, q`credit, q.elems, `m, `trace
      ensures Valid() && q.cur == 0 && reclaiming == 0 && |m.used| == 1
      ensures q.flag == 0 && q.nLast < q.stored == |q.raised| && !q.raised[q.nLast]
      ensures released == old(released) && q.flags == old(q.flags) + [1] + [0]
    {
      hide Valid;
      SetFlag(NO_INTERRUPT);
      var some := Returned();
      assert !some;
      DeviceFinishes(len);
      FlagIs();
      SetFlag(0);
    }

    /** The device finishes a chain, fetching one first if it holds none. */
    method DeviceFinishes(len: int)
      requires Valid() && m.used == [] && (q.held != [] || q.Avail() != []) && q.credit > 0
      modifies q`seen, q`held, q`nSeen, q`usedIndex, q`completed, q`raised, q`credit, q.elems, `m, `trace
      ensures Valid() && |m.used| == 1
      ensures |q.completed| == old(|q.completed|) + 1 && q.raised == old(q.raised) + [q.flag == 0]
    {
      hide Valid;
      if q.held == [] {
        DeviceFetch();
      }
      DeviceComplete(0, len);
    }

    /** The handler's loop. */
    method ReclaimAll()
      requires Valid() && q.cur == 0 && reclaiming == 0
      modifies q`cur, q`last, q`nLast
      modifies q`seen, q`held, q`nSeen, q`usedIndex, q`completed, q`raised, q`credit, q.elems
      modifies q.desc, `tFreeHdr, `tFreeNum, `released, `reclaiming, `m, `trace
      ensures Valid() && q.cur == 0 && reclaiming == 0 && Moved(old(m), old(q.desc[..]), m, q.desc[..]) && Grew()
      ensures m.used == [] && q.nLast == |q.completed|
    {
      hide Valid, Moved, FlagSide;
      ghost var m0, d0 := m, q.desc[..];
      MovedByDevice(m0, m, d0);
      var some := Returned();
      while some
        invariant Valid() && q.cur == 0 && reclaiming == 0 && Grew()
        invariant Moved(m0, d0, m, q.desc[..])
        invariant some <==> m.used != []
        invariant !some ==> q.nLast == |q.completed|
        decreases Flying()
      {
        ghost var m1, d1 := m, q.desc[..];
        ReclaimOne();
        MovedTrans(m0, d0, m1, d1, m, q.desc[..]);
        some := Returned();
      }
    }

    /** `avail->flag = 0` after the loop, with the device running alongside. */
    method EnableInterrupts()
      requires Valid() && q.flag == NO_INTERRUPT && q.stored <= q.nLast && q.cur == 0
      modifies q`flag, q`stored, q`flags
      modifies q`seen, q`held, q`nSeen, q`usedIndex, q`completed, q`raised, q`credit, q.elems, `m, `trace
      ensures Valid() && DeviceMoved()
      ensures |old(q.completed)| <= q.stored && q.flag == 0 && LeftBehind(q.raised, q.nLast, q.stored)
      ensures q.flags == old(q.flags) + [0]
    {
      hide Valid, LeftBehind, FlagSide;
      DeviceSteps();
      FlagIs();
      ghost var before, stored := q.raised, q.stored;
      SetFlag(0);
      DeviceSteps();
      FlagIs();
      SplitByFlag(before, q.raised, stored, q.nLast);
    }

    /** One round of the handler's loop, with the device running alongside. */
    method ReclaimOne()
      requires Valid() && q.cur == 0 && reclaiming == 0 && m.used != []
      modifies q`cur, q`last, q`nLast
      modifies q`seen, q`held, q`nSeen, q`usedIndex, q`completed, q`raised, q`credit, q.elems
      modifies q.desc, `tFreeHdr, `tFreeNum, `released, `reclaiming, `m, `trace
      ensures Valid() && q.cur == 0 && reclaiming == 0 && Flying() < old(Flying())
      ensures Moved(old(m), old(q.desc[..]), m, q.desc[..]) && Grew()
    {
      hide Valid, SameOn, Moved;
      ghost var m0, d0 := m, q.desc[..];
      DeviceSteps();
      var e := PickUp();
      DeviceSteps();
      ghost var m1 := m;
      MovedByDevice(m0, m1, d0);
      FreeTxEntry(e.id);
      ghost var d1, m2 := q.desc[..], m;
      MovedByReclaim(m1, d0, d1);
      MovedTrans(m0, d0, m1, d0, m2, d1);
      DeviceSteps();
      Finish();
      DeviceSteps();
      MovedByDevice(m2, m, d1);
      MovedTrans(m0, d0, m2, d1, m, d1);
    }

    /** What may happen between two steps of the sending task: any device steps
        and whole runs of the interrupt handler, in any order. */
    method Interrupt()
      requires Valid() && q.cur == 0 && reclaiming == 0
      modifies q`flag, q`stored, q`flags, q`cur, q`last, q`nLast
      modifies q`seen, q`held, q`nSeen, q`usedIndex, q`completed, q`raised, q`credit, q.elems
      modifies q.desc, `tFreeHdr, `tFreeNum, `released, `reclaiming, `m, `trace
      ensures Valid() && q.cur == 0 && reclaiming == 0 && Moved(old(m), old(q.desc[..]), m, q.desc[..]) && Grew()
    {
      hide Valid, Moved, LeftBehind;
      var times: nat := *;
      ghost var m0, d0 := m, q.desc[..];
      MovedByDevice(m0, m0, d0);
      while times > 0
        invariant Valid() && q.cur == 0 && reclaiming == 0 && Grew()
        invariant Moved(m0, d0, m, q.desc[..])
      {
        ghost var m1, d1 := m, q.desc[..];
        if * {
          DeviceStep();
          MovedByDevice(m1, m, d1);
        } else {
          VirtnetTxHandle();
        }
        MovedTrans(m0, d0, m1, d1, m, q.desc[..]);
        times := times - 1;
      }
    }

    /** The locked part of `GetTxFreeEntry`: walk `count` entries along the free
        list and cut behind the last. */
    method CutChain(count: nat) returns (head: int, tail: int)
      requires TableIs(m) && Enabled(m, Alloc(count)) && q.qsz <= 0x8000
      modifies `tFreeHdr, `tFreeNum
      ensures TableIs(Step(m, Alloc(count)))
      ensures head == m.free[0] && tail == m.free[count - 1] && 0 <= tail < q.desc.Length
      ensures q.desc[tail].flag == F_NEXT || q.desc[tail].flag == 0
    {
      ghost var free := m.free;
      FreeListOf(q.qsz, q.desc[..], tbufRec[..], vnHdr, tFreeHdr, tFreeNum, m);
      TableAlloc(q.qsz, q.desc[..], tbufRec[..], vnHdr, tFreeHdr, tFreeNum, m, count);
      hide Table, Step;
      tFreeNum := tFreeNum - count;
      head := tFreeHdr;
      var idx, left := head, count;
      tail := head;
      while left > 0
        invariant 0 <= left <= count
        invariant count - left < |free| ==> idx == free[count - left]
        invariant left < count ==> tail == free[count - left - 1] && 0 <= tail < q.desc.Length
        invariant left < count ==> idx == q.desc[tail].next
      {
        tail := idx;
        idx := q.desc[idx].next;
        left := left - 1;
      }
      tFreeHdr := idx;
    }

    /** The same in the ARM driver: two entries, no loop. */
    method CutPair() returns (head: int, tail: int)
      requires TableIs(m) && Enabled(m, Alloc(2)) && q.qsz <= 0x8000
      modifies `tFreeHdr, `tFreeNum
      ensures TableIs(Step(m, Alloc(2)))
      ensures head == m.free[0] && tail == m.free[1] && 0 <= tail < q.desc.Length
      ensures q.desc[tail].flag == F_NEXT || q.desc[tail].flag == 0
    {
      FreeListOf(q.qsz, q.desc[..], tbufRec[..], vnHdr, tFreeHdr, tFreeNum, m);
      TableAlloc(q.qsz, q.desc[..], tbufRec[..], vnHdr, tFreeHdr, tFreeNum, m, 2);
      hide Table, Step;
      tFreeNum := tFreeNum - 2;
      head := tFreeHdr;
      tail := q.desc[head].next;
      tFreeHdr := q.desc[tail].next;
    }

    /** A store to descriptor `x`, which the sending task has cut off. */
    method StorePending(x: int, e: Desc)
      requires Valid() && x in m.pend && 0 <= x < q.desc.Length && Linked(q.desc[..][x := e], m.pend)
      modifies q.desc
      ensures Valid() && q.desc[..] == old(q.desc[..])[x := e]
    {
      hide Virtq.Valid, Run, Logged, RingsAre, Table, Linked;
      PendStoreReady(x, e);
      DescApart();
      q.desc[x] := e;
    }

    lemma PendStoreReady(x: int, e: Desc)
      requires TableIs(m) && x in m.pend && 0 <= x < q.desc.Length && Linked(q.desc[..][x := e], m.pend)
      ensures Table(q.qsz, q.desc[..][x := e], tbufRec[..], vnHdr, tFreeHdr, tFreeNum, m)
    {
      PendStore(q.qsz, q.desc[..], tbufRec[..], vnHdr, tFreeHdr, tFreeNum, m, x, e);
    }

    lemma DescApart()
      requires q.Valid()
      ensures q.desc as object != q.ring && q.desc as object != q.elems && q.desc.Length == q.qsz
    {
    }

    lemma PendFacts()
      requires Valid()
      ensures q.desc.Length == tbufRec.Length == q.qsz && NoDup(m.pend) && Linked(q.desc[..], m.pend)
    {
      PendApart(q.qsz, q.desc[..], tbufRec[..], vnHdr, tFreeHdr, tFreeNum, m);
    }

    /** `LOS_TaskYield` while a chain is in flight.  The device and the handler may
        do anything; in all but `stalls` of the yields they do something, as they
        can (see `WaitingEnds`). */
    method Yield(stalls: nat) returns (left: nat)
      requires Valid() && q.cur == 0 && reclaiming == 0 && m.pend == [] && InFlight(m) != []
      modifies q`flag, q`stored, q`flags, q`cur, q`last, q`nLast
      modifies q`seen, q`held, q`nSeen, q`usedIndex, q`completed, q`raised, q`credit, q.elems
      modifies q.desc, `tFreeHdr, `tFreeNum, `released, `reclaiming, `m, `trace, `yielded
      ensures Valid() && q.cur == 0 && reclaiming == 0 && m.pend == [] && m.sent == old(m.sent) && Grew()
      ensures yielded == old(yielded) + [old(tFreeNum)]
      ensures left <= stalls && Work(m) <= Work(old(m)) && (left < stalls || Work(m) < Work(old(m)))
    {
      hide Valid, Moved, SameOn, LeftBehind, Work;
      yielded := yielded + [tFreeNum];
      left := stalls;
      WorkInFlight(m);
      ghost var m0, d0 := m, q.desc[..];
      Interrupt();
      MovedCount(m0, d0, m, q.desc[..]);
      MovedPend(m0, d0, m, q.desc[..]);
      var idle := stalls > 0;
      if idle {
        idle := *;
      }
      if idle {
        left := stalls - 1;
      } else {
        MakeProgress();
      }
    }

    /** Something that can be done is done: a head is fetched, a chain finished, or
        what has been finished reclaimed. */
    method MakeProgress()
      requires Valid() && q.cur == 0 && reclaiming == 0 && m.pend == []
      modifies q`flag, q`stored, q`flags, q`cur, q`last, q`nLast
      modifies q`seen, q`held, q`nSeen, q`usedIndex, q`completed, q`raised, q`credit, q.elems
      modifies q.desc, `tFreeHdr, `tFreeNum, `released, `reclaiming, `m, `trace
      ensures Valid() && q.cur == 0 && reclaiming == 0 && m.pend == [] && m.sent == old(m.sent) && Grew()
      ensures Work(m) < Work(old(m)) || Work(m) == Work(old(m)) == 0
    {
      hide Valid, Moved, SameOn, LeftBehind, Step;
      ghost var m0, d0 := m, q.desc[..];
      WorkIs();
      if q.held != [] {
        if q.credit == 0 {
          q.credit := 1;
        }
        var len: int := *;
        DeviceComplete(0, len);
        StepWork(m0, Event.Complete(0));
      } else {
        var some := AnyAvail();
        if some {
          DeviceFetch();
          StepWork(m0, Event.Fetch);
        } else {
          VirtnetTxHandle();
          MovedCount(m0, d0, m, q.desc[..]);
          MovedPend(m0, d0, m, q.desc[..]);
        }
      }
    }

    method AnyAvail() returns (some: bool)
      requires Valid()
      ensures some <==> q.Avail() != []
    {
      hide Heads, UsedHeads, TableIs, Run, Logged;
      some := q.HasAvail();
    }

    /** Where the work in flight is. */
    lemma WorkIs()
      requires Valid()
      ensures q.held != [] ==> Enabled(m, Event.Complete(0))
      ensures q.Avail() != [] ==> Enabled(m, Event.Fetch)
      ensures q.held == [] && q.Avail() == [] && m.used == [] ==> Work(m) == 0
    {
      HeadsLength(m.held, q.held);
      HeadsLength(m.avail, q.Avail());
      hide Heads, UsedHeads, TableIs, Run, Logged, Virtq.Valid;
    }

    lemma WorkInFlight(t: Tx)
      ensures InFlight(t) != [] <==> Work(t) > 0
    {
    }

    /** `GetTxFreeEntry`: wait until `count` entries are free, cut them off and
        end them.  It waits only as long as fewer are free. */
    method GetTxFreeEntry(count: nat, stalls: nat) returns (head: int)
      requires Valid() && q.cur == 0 && reclaiming == 0 && m.pend == [] && 2 <= count <= q.qsz
      requires fixedPair ==> count == 2
      modifies q`flag, q`stored, q`flags, q`cur, q`last, q`nLast
      modifies q`seen, q`held, q`nSeen, q`usedIndex, q`completed, q`raised, q`credit, q.elems
      modifies q.desc, `tFreeHdr, `tFreeNum, `released, `reclaiming, `m, `trace, `yielded
      ensures Valid() && q.cur == 0 && reclaiming == 0 && m.sent == old(m.sent) && Grew()
      ensures |m.pend| == count && head == m.pend[0] && Ended(q.desc[..], m.pend)
      ensures Waited(count, stalls)
    {
      hide Valid, Moved, SameOn, Ended, Linked, NoDup, Work;
      var left := stalls;
      while count > tFreeNum
        invariant Valid() && q.cur == 0 && reclaiming == 0 && m.pend == [] && m.sent == old(m.sent) && Grew()
        invariant AllBelow(yielded, |old(yielded)|, count)
        invariant |yielded| + Work(m) + left <= |old(yielded)| + Work(old(m)) + stalls
        decreases Work(m) + left
      {
        SomethingInFlight(count);
        left := Yield(left);
      }
      var tail;
      head, tail := TakeChain(count);
      ghost var m1, d1 := m, q.desc[..];
      Interrupt();
      MovedPend(m1, d1, m, q.desc[..]);
      SameAt(d1, q.desc[..], m.pend, count - 1);
      PendFacts();
      EndedByClear(q.desc[..], m.pend);
      StorePending(tail, q.desc[tail].(flag := q.desc[tail].flag & !F_NEXT));
    }

    /** A request that does not fit now, but could fit the queue, always has a
        chain in flight to wait for. */
    lemma SomethingInFlight(count: nat)
      requires Valid() && m.pend == [] && tFreeNum < count <= q.qsz
      ensures InFlight(m) != []
    {
      ChainInFlight(q.qsz, m);
    }

    lemma FreeNumIs()
      requires TableIs(m)
      ensures tFreeNum == |m.free| <= q.qsz
    {
      FreeListOf(q.qsz, q.desc[..], tbufRec[..], vnHdr, tFreeHdr, tFreeNum, m);
    }

    method TakeChain(count: nat) returns (head: int, tail: int)
      requires Valid() && m.pend == [] && 2 <= count <= tFreeNum && (fixedPair ==> count == 2)
      modifies `tFreeHdr, `tFreeNum, `m, `trace
      ensures Valid() && |m.pend| == count && m.sent == old(m.sent) && Grew()
      ensures head == m.pend[0] && tail == m.pend[count - 1] && 0 <= tail < q.desc.Length
      ensures q.desc[tail].flag == F_NEXT || q.desc[tail].flag == 0
    {
      hide TableIs, Run, Heads, UsedHeads, Logged, Virtq.Valid, Step, Enabled;
      FreeNumIs();
      StepAlloc(m, count);
      if fixedPair {
        head, tail := CutPair();
      } else {
        head, tail := CutChain(count);
      }
      Follow(Alloc(count));
    }

    /** An interrupt while the packet's chain is being filled. */
    method Pause(ghost segs: seq<Seg>, ghost n: nat)
      requires Valid() && q.cur == 0 && reclaiming == 0 && Filled(q.desc[..], vnHdr, m.pend, segs, n)
      modifies q`flag, q`stored, q`flags, q`cur, q`last, q`nLast
      modifies q`seen, q`held, q`nSeen, q`usedIndex, q`completed, q`raised, q`credit, q.elems
      modifies q.desc, `tFreeHdr, `tFreeNum, `released, `reclaiming, `m, `trace
      ensures Valid() && q.cur == 0 && reclaiming == 0 && Filled(q.desc[..], vnHdr, m.pend, segs, n)
      ensures m.pend == old(m.pend) && m.sent == old(m.sent) && Grew()
    {
      hide Valid, Moved, Filled, SameOn;
      ghost var m0, d0 := m, q.desc[..];
      Interrupt();
      MovedPend(m0, d0, m, q.desc[..]);
      FilledFrame(d0, q.desc[..], vnHdr, m.pend, segs, n);
    }

    /** Point the first pending descriptor at the header. */
    method FillHeader(head: int, ghost segs: seq<Seg>)
      requires Valid() && |m.pend| == |segs| + 1 && head == m.pend[0] && Ended(q.desc[..], m.pend)
      modifies q.desc
      ensures Valid() && Filled(q.desc[..], vnHdr, m.pend, segs, 0)
    {
      PendFacts();
      assert 0 <= head < q.desc.Length && head in m.pend;
      hide Valid, Filled, NoDup;
      FilledHeader(q.desc[..], vnHdr, m.pend, segs);
      FilledLinked(q.desc[..][head := q.desc[head].(pAddr := vnHdr.addr, len := vnHdr.len)], vnHdr, m.pend, segs, 0);
      StorePending(head, q.desc[head].(pAddr := vnHdr.addr, len := vnHdr.len));
    }

    /** The loop over the packet's segments, interruptible after each. */
    method FillSegments(head: int, segs: seq<Seg>) returns (tmp: int)
      requires Valid() && q.cur == 0 && reclaiming == 0
      requires Filled(q.desc[..], vnHdr, m.pend, segs, 0) && head == m.pend[0]
      modifies q`flag, q`stored, q`flags, q`cur, q`last, q`nLast
      modifies q`seen, q`held, q`nSeen, q`usedIndex, q`completed, q`raised, q`credit, q.elems
      modifies q.desc, `tFreeHdr, `tFreeNum, `released, `reclaiming, `m, `trace
      ensures Valid() && q.cur == 0 && reclaiming == 0 && m.pend == old(m.pend) && m.sent == old(m.sent) && Grew()
      ensures Filled(q.desc[..], vnHdr, m.pend, segs, |segs|) && tmp == m.pend[|segs|]
    {
      hide Valid, Filled;
      FilledLinked(q.desc[..], vnHdr, m.pend, segs, 0);
      tmp := head;
      var i := 0;
      while i < |segs|
        invariant 0 <= i <= |segs| && Valid() && q.cur == 0 && reclaiming == 0
        invariant m.pend == old(m.pend) && m.sent == old(m.sent) && |m.pend| == |segs| + 1 && Grew()
        invariant Filled(q.desc[..], vnHdr, m.pend, segs, i) && tmp == m.pend[i]
      {
        tmp := FillOne(tmp, segs, i);
        i := i + 1;
        Pause(segs, i);
      }
    }

    method FillOne(at: int, segs: seq<Seg>, i: nat) returns (tmp: int)
      requires Valid() && i < |segs| == |m.pend| - 1 && at == m.pend[i]
      requires Filled(q.desc[..], vnHdr, m.pend, segs, i)
      modifies q.desc
      ensures Valid() && Filled(q.desc[..], vnHdr, m.pend, segs, i + 1) && tmp == m.pend[i + 1]
    {
      PendFacts();
      FilledSegment(q.desc[..], vnHdr, m.pend, segs, i);
      assert m.pend[i + 1] in m.pend;
      hide Valid, Filled, NoDup;
      tmp := q.desc[at].next;
      var e := q.desc[tmp].(pAddr := segs[i].addr, len := segs[i].len);
      FilledLinked(q.desc[..][tmp := e], vnHdr, m.pend, segs, i + 1);
      StorePending(tmp, e);
    }

    /** Store the packet's record at its second descriptor. */
    method StoreRecord(idx: int, p: Packet, add: int, tmp: int)
      requires Valid() && |m.pend| >= 2 && idx == m.pend[1] && add == |m.pend| && tmp == m.pend[add - 1]
      modifies tbufRec
      ensures Valid() && RecOk(tbufRec[..], Chain(m.pend, p))
    {
      var r := TbufRecord(p.ptr, add, tmp);
      hide Virtq.Valid, Run, Logged, RingsAre, Table;
      RecordReady(r);
      ghost var old' := tbufRec[..];
      tbufRec[idx] := r;
      assert tbufRec[..] == old'[idx := r];
    }

    lemma RecordReady(r: TbufRecord)
      requires TableIs(m) && |m.pend| >= 2
      ensures 0 <= m.pend[1] < tbufRec.Length
      ensures Table(q.qsz, q.desc[..], tbufRec[..][m.pend[1] := r], vnHdr, tFreeHdr, tFreeNum, m)
    {
      PendApart(q.qsz, q.desc[..], tbufRec[..], vnHdr, tFreeHdr, tFreeNum, m);
      TableRecord(q.qsz, q.desc[..], tbufRec[..], vnHdr, tFreeHdr, tFreeNum, m, r);
    }

    /** `avail->ring[avail->index % qsz] = head`. */
    method WriteRing(head: int)
      requires Valid() && q.staged == [] && m.pend != [] && head == m.pend[0]
      modifies q.ring, q`staged
      ensures Valid() && q.staged == [head]
    {
      hide Run, Logged, Heads, UsedHeads, TableIs, Virtq.Valid;
      RoomToPublish();
      q.Stage(0, head);
    }

    /** Half as many heads as entries: the ring always has room for one more. */
    lemma RoomToPublish()
      requires Valid() && q.staged == [] && m.pend != []
      ensures |q.Avail()| + |q.staged| + |q.held| + |q.Used()| < q.qsz
    {
      InvHalf(q.qsz, m);
      hide Linked, Ended, FreeList, ChainOk, RecOk, Inv, Run, Logged;
    }

    /** `avail->index++`: the chain now belongs to the device. */
    method RaiseIndex(p: Packet)
      requires Valid() && |q.staged| == 1 && p.segs != []
      requires Filled(q.desc[..], vnHdr, m.pend, p.segs, |p.segs|) && RecOk(tbufRec[..], Chain(m.pend, p))
      requires |referenced| == |m.sent| + 1 && referenced[|m.sent|] == p.ptr
      modifies q`availIndex, q`published, q`staged, `m, `trace
      ensures Valid() && q.staged == [] && m == Step(old(m), Publish(p)) && m.pend == [] && m.sent == old(m.sent) + [p]
      ensures old(trace) <= trace
    {
      hide Run, Logged, Heads, UsedHeads, TableIs, Virtq.Valid, Filled, RecOk, Step, Enabled;
      PublishReady(p);
      StepPublish(m, p);
      HeadsPublish(m, q.Avail(), p);
      LoggedAppend(m.sent, referenced[..|m.sent|], p);
      assert referenced[..|m.sent| + 1] == referenced[..|m.sent|] + [p.ptr];
      assert q.staged == [m.pend[0]];
      q.Commit(1);
      Follow(Publish(p));
    }

    lemma PublishReady(p: Packet)
      requires TableIs(m) && p.segs != []
      requires Filled(q.desc[..], vnHdr, m.pend, p.segs, |p.segs|) && RecOk(tbufRec[..], Chain(m.pend, p))
      ensures Enabled(m, Publish(p)) && |m.pend| >= 2
      ensures TableIs(Step(m, Publish(p)))
    {
      FilledChain(q.desc[..], vnHdr, m.pend, p);
      TablePublish(q.qsz, q.desc[..], tbufRec[..], vnHdr, tFreeHdr, tFreeNum, m, p);
    }

    /** Nothing is half done by either the sending task or the handler. */
    ghost predicate Idle()
      reads `m, `reclaiming, `referenced, q`cur, q`staged
    {
      q.cur == 0 && reclaiming == 0 && m.pend == [] && q.staged == [] && |referenced| == |m.sent|
    }

    /** Send a packet.  `pbuf_clen` is a 16-bit count, and so is `add`: see
        `LengthCheckExact` for the packets left out. */
    method LowLevelOutput(p: Packet, stalls: nat) returns (r: SendResult)
      requires Valid() && Idle() && p.segs != [] && !fixedPair
      requires |p.segs| + 1 < U16 || (|p.segs| + 1) % U16 > q.qsz
      modifies q`flag, q`stored, q`flags, q`cur, q`last, q`nLast, q.ring, q`staged, q`availIndex, q`published
      modifies q`seen, q`held, q`nSeen, q`usedIndex, q`completed, q`raised, q`credit, q.elems
      modifies q.desc, tbufRec, `tFreeHdr, `tFreeNum, `referenced, `released, `reclaiming, `m, `trace, `yielded
      ensures Valid() && Idle() && Grew()
      ensures r == TooLong <==> |p.segs| + 1 > q.qsz
      ensures r == TooLong ==> trace == old(trace) && m == old(m) && referenced == old(referenced)
      ensures r == TooLong ==> yielded == old(yielded)
      ensures r == Sent ==> m.sent == old(m.sent) + [p] && referenced == old(referenced) + [p.ptr]
      ensures Waited(|p.segs| + 1, stalls)
    {
      hide Valid, Ended, Step, Work;
      var add := (|p.segs| % U16 + 1) % U16;
      QueueBound();
      LengthCheckExact(|p.segs|, q.qsz);
      if add > q.qsz {
        return TooLong;
      }
      var head := GetTxFreeEntry(add, stalls);
      Fill(p, head, add);
      r := Sent;
    }

    /** Point the chain at the header and the packet, and publish it. */
    method Fill(p: Packet, head: int, add: nat)
      requires Valid() && q.cur == 0 && reclaiming == 0 && q.staged == [] && |referenced| == |m.sent| && p.segs != []
      requires |m.pend| == add == |p.segs| + 1 && head == m.pend[0] && Ended(q.desc[..], m.pend)
      modifies q`flag, q`stored, q`flags, q`cur, q`last, q`nLast, q.ring, q`staged, q`availIndex, q`published
      modifies q`seen, q`held, q`nSeen, q`usedIndex, q`completed, q`raised, q`credit, q.elems
      modifies q.desc, tbufRec, `tFreeHdr, `tFreeNum, `referenced, `released, `reclaiming, `m, `trace
      ensures Valid() && Idle() && m.sent == old(m.sent) + [p] && referenced == old(referenced) + [p.ptr] && Grew()
    {
      hide Valid, Filled, RecOk, Ended, Step;
      FillHeader(head, p.segs);
      Pause(p.segs, 0);
      var idx := SecondOf(head, p.segs);
      var tmp := FillSegments(head, p.segs);
      Announce(p, head, idx, add, tmp);
    }

    /** The same in the ARM driver. */
    method FillPair(p: Packet, head: int)
      requires Valid() && q.cur == 0 && reclaiming == 0 && q.staged == [] && |referenced| == |m.sent|
      requires |m.pend| == 2 == |p.segs| + 1 && head == m.pend[0] && Ended(q.desc[..], m.pend)
      modifies q`flag, q`stored, q`flags, q`cur, q`last, q`nLast, q.ring, q`staged, q`availIndex, q`published
      modifies q`seen, q`held, q`nSeen, q`usedIndex, q`completed, q`raised, q`credit, q.elems
      modifies q.desc, tbufRec, `tFreeHdr, `tFreeNum, `referenced, `released, `reclaiming, `m, `trace
      ensures Valid() && Idle() && m.sent == old(m.sent) + [p] && referenced == old(referenced) + [p.ptr] && Grew()
    {
      hide Valid, Filled, RecOk, Ended, Step;
      FillHeader(head, p.segs);
      Pause(p.segs, 0);
      var idx := SecondOf(head, p.segs);
      var tail := FillOne(head, p.segs, 0);
      Pause(p.segs, 1);
      Announce(p, head, idx, 2, idx);
    }

    lemma QueueBound()
      requires Valid()
      ensures 0 < q.qsz <= 0x8000
    {
    }

    /** Record the packet and make its chain available. */
    method Announce(p: Packet, head: int, idx: int, add: int, tmp: int)
      requires Valid() && q.cur == 0 && reclaiming == 0 && q.staged == [] && |referenced| == |m.sent|
      requires p.segs != [] && Filled(q.desc[..], vnHdr, m.pend, p.segs, |p.segs|)
      requires |m.pend| == add == |p.segs| + 1 && head == m.pend[0] && idx == m.pend[1] && tmp == m.pend[add - 1]
      modifies q`flag, q`stored, q`flags, q`cur, q`last, q`nLast, q.ring, q`staged, q`availIndex, q`published
      modifies q`seen, q`held, q`nSeen, q`usedIndex, q`completed, q`raised, q`credit, q.elems
      modifies q.desc, tbufRec, `tFreeHdr, `tFreeNum, `referenced, `released, `reclaiming, `m, `trace
      ensures Valid() && Idle() && m.sent == old(m.sent) + [p] && referenced == old(referenced) + [p.ptr] && Grew()
    {
      hide Valid, Filled, RecOk, Step;
      Hold(p, idx, add, tmp);
      WriteRing(head);
      Pause(p.segs, |p.segs|);
      RaiseIndex(p);
    }

    /** Record the packet and take a reference to it. */
    method Hold(p: Packet, idx: int, add: int, tmp: int)
      requires Valid() && q.cur == 0 && reclaiming == 0
      requires Filled(q.desc[..], vnHdr, m.pend, p.segs, |p.segs|)
      requires |m.pend| >= 2 && idx == m.pend[1] && add == |m.pend| && tmp == m.pend[add - 1]
      modifies q`flag, q`stored, q`flags, q`cur, q`last, q`nLast
      modifies q`seen, q`held, q`nSeen, q`usedIndex, q`completed, q`raised, q`credit, q.elems
      modifies q.desc, tbufRec, `tFreeHdr, `tFreeNum, `referenced, `released, `reclaiming, `m, `trace
      ensures Valid() && q.cur == 0 && reclaiming == 0 && RecOk(tbufRec[..], Chain(m.pend, p)) && Grew()
      ensures m.pend == old(m.pend) && m.sent == old(m.sent) && Filled(q.desc[..], vnHdr, m.pend, p.segs, |p.segs|)
      ensures referenced == old(referenced) + [p.ptr]
    {
      hide Valid, Filled, RecOk, Step;
      StoreRecord(idx, p, add, tmp);
      Pause(p.segs, |p.segs|);
      TakeReference(p);
      Pause(p.segs, |p.segs|);
    }

    /** Send a packet in the ARM driver: a NetBuf is one segment, and there is no
        size check. */
    method LowLevelOutputPair(p: Packet, stalls: nat)
      requires Valid() && Idle() && |p.segs| == 1 && fixedPair && q.qsz >= 2
      modifies q`flag, q`stored, q`flags, q`cur, q`last, q`nLast, q.ring, q`staged, q`availIndex, q`published
      modifies q`seen, q`held, q`nSeen, q`usedIndex, q`completed, q`raised, q`credit, q.elems
      modifies q.desc, tbufRec, `tFreeHdr, `tFreeNum, `referenced, `released, `reclaiming, `m, `trace, `yielded
      ensures Valid() && Idle() && Grew()
      ensures m.sent == old(m.sent) + [p] && referenced == old(referenced) + [p.ptr]
      ensures Waited(2, stalls)
    {
      hide Valid, Ended, Step, Work, AllBelow;
      var head := GetTxFreeEntry(2, stalls);
      FillPair(p, head);
    }

    /** `idx = desc[head].next`. */
    method SecondOf(head: int, ghost segs: seq<Seg>) returns (idx: int)
      requires Valid() && segs != [] && Filled(q.desc[..], vnHdr, m.pend, segs, 0) && head == m.pend[0]
      ensures |m.pend| == |segs| + 1 && idx == m.pend[1]
    {
      FilledLinked(q.desc[..], vnHdr, m.pend, segs, 0);
      idx := q.desc[head].next;
    }

    /** `pbuf_ref(p)`. */
    method TakeReference(p: Packet)
      requires Valid()
      modifies `referenced
      ensures Valid() && referenced == old(referenced) + [p.ptr]
    {
      hide TableIs, Run, Virtq.Valid, RingsAre, Paired;
      assert (referenced + [p.ptr])[..|m.sent|] == referenced[..|m.sent|];
      referenced := referenced + [p.ptr];
    }

    /** What the device finds behind a head it has been given, in any state
        between two steps: the header, the packet's segments, nothing else. */
    lemma DeviceSees(c: Chain)
      requires Valid() && c in InFlight(m)
      ensures Walk(q.desc[..], c.ids[0], q.qsz) == [vnHdr] + c.pkt.segs
      ensures forall k :: 0 <= k < |c.ids| ==>
                0 <= c.ids[k] < q.desc.Length && q.desc[c.ids[k]].flag == if k < |c.ids| - 1 then 1 else 0
    {
      DeviceReads(q.qsz, q.desc[..], tbufRec[..], vnHdr, tFreeHdr, tFreeNum, m, c);
      hide Virtq.Valid, Run, RingsAre, Inv, Walk, InFlight;
      forall k | 0 <= k < |c.ids|
        ensures 0 <= c.ids[k] < q.desc.Length && q.desc[c.ids[k]].flag == if k < |c.ids| - 1 then 1 else 0
      {
        ChainFlags(q.desc[..], vnHdr, c, k);
      }
    }

    /** The packets released so far are the first ones the device returned, in
        that order, and each is released once for each time it was sent. */
    lemma Releases(p: Packet)
      requires Valid()
      ensures Logged(m.freed, released) && m.freed <= m.returned
      ensures Count(m.freed, p) + Sum(InFlight(m), OfPkt(p)) == Count(m.sent, p)
    {
      ReleasedExactlyOnce(q.qsz, trace, p);
    }

    /** Every run of the ARM driver is a run of the chain allocator in which each
        request is for two entries, and its free count stays even. */
    lemma PairRefines()
      requires Valid() && fixedPair
      ensures Run(q.qsz, trace) == Reached(m) && PairTrace(trace)
      ensures tFreeNum % 2 == q.qsz % 2 && Pairs(m)
    {
      OnlyPairs();
      FreeNumIs();
    }

    /** With 16-bit indices, `last != used->index` means exactly that a chain has
        been returned and not yet reclaimed. */
    lemma LastMeansReturned()
      requires Valid() && q.cur == 0
      ensures q.last != q.usedIndex <==> m.used != []
    {
      if q.nLast < |q.completed| {
        SlotsDistinct(q.nLast, |q.completed|, U16);
      }
      hide TableIs, Run, Heads, Logged, Slot, QueueSize;
    }
  }
}
