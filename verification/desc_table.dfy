/** The Tx descriptor table: an intrusive free list and the in-flight chains,
    all threaded through `desc[].next`, next to the machine of `TxModel`. */
module DescTable {
  import opened RingIndex
  import opened VirtqRing
  import opened Counting
  import opened TxModel

  /** `struct TbufRecord`, stored at the id of the packet's second descriptor. */
  datatype TbufRecord = TbufRecord(head: int, count: int, tail: int)

  ghost predicate InTable(n: int, ids: seq<int>) {
    forall k :: 0 <= k < |ids| ==> 0 <= ids[k] < n
  }

  /** Consecutive ids are linked by `next`, with NEXT set on all but the last. */
  ghost predicate Linked(d: seq<Desc>, ids: seq<int>) {
    && InTable(|d|, ids)
    && forall k :: 0 <= k < |ids| - 1 ==> d[ids[k]].next == ids[k + 1] && d[ids[k]].flag == F_NEXT
  }

  /** ... and NEXT is clear on the last one. */
  ghost predicate Ended(d: seq<Desc>, ids: seq<int>) {
    InTable(|d|, ids) && (ids != [] ==> d[ids[|ids| - 1]].flag == 0)
  }

  ghost predicate FreeList(d: seq<Desc>, hdr: int, ids: seq<int>) {
    Linked(d, ids) && Ended(d, ids) && (ids != [] ==> hdr == ids[0])
  }

  /** The first descriptor points at the header, the others at the packet. */
  ghost predicate Carries(d: seq<Desc>, h: Seg, c: Chain) {
    && InTable(|d|, c.ids) && |c.ids| == |c.pkt.segs| + 1
    && d[c.ids[0]].pAddr == h.addr && d[c.ids[0]].len == h.len
    && forall k :: 0 <= k < |c.pkt.segs| ==>
         d[c.ids[k + 1]].pAddr == c.pkt.segs[k].addr && d[c.ids[k + 1]].len == c.pkt.segs[k].len
  }

  ghost predicate ChainOk(d: seq<Desc>, h: Seg, c: Chain) {
    Linked(d, c.ids) && Ended(d, c.ids) && Carries(d, h, c) && |c.ids| >= 2
  }

  ghost predicate RecOk(rec: seq<TbufRecord>, c: Chain) {
    && |c.ids| >= 2 && 0 <= c.ids[1] < |rec|
    && rec[c.ids[1]] == TbufRecord(c.pkt.ptr, |c.ids|, c.ids[|c.ids| - 1])
  }

  /** The whole table agrees with the machine state `m`. */
  ghost predicate Table(qsz: nat, d: seq<Desc>, rec: seq<TbufRecord>, h: Seg, freeHdr: int, freeNum: int, m: Tx) {
    && |d| == qsz == |rec| && Inv(qsz, m)
    && freeNum == |m.free| && FreeList(d, freeHdr, m.free)
    && Linked(d, m.pend)
    && (forall c :: c in InFlight(m) ==> ChainOk(d, h, c))
    && (forall c :: c in InFlight(m) ==> RecOk(rec, c))
  }

  // ----- what the device reads -----

  /** The buffers the device finds from descriptor `i` by following NEXT flags
      (VIRTIO 1.1 section 2.6.5: bit 0; bit 1 would make it write instead), reading
      at most `fuel` descriptors. */
  function Walk(d: seq<Desc>, i: int, fuel: nat): seq<Seg>
    decreases fuel
  {
    if fuel == 0 || !(0 <= i < |d|) || d[i].flag & 2 != 0 then []
    else
      [Seg(d[i].pAddr, d[i].len)]
      + if d[i].flag & 1 != 0 then Walk(d, d[i].next, fuel - 1) else []
  }

  lemma NextFlag()
    ensures F_NEXT == 1 && F_NEXT & 1 != 0 && F_NEXT & 2 == 0 && (0 as bv16) & 1 == 0 && (0 as bv16) & 2 == 0
  {
  }

  /** In a chain the flag is 1 on all descriptors but the last, and 0 there. */
  lemma ChainFlags(d: seq<Desc>, h: Seg, c: Chain, k: nat)
    requires ChainOk(d, h, c) && k < |c.ids|
    ensures 0 <= c.ids[k] < |d| && d[c.ids[k]].flag == if k < |c.ids| - 1 then 1 else 0
  {
  }

  lemma {:induction false} WalkFrom(d: seq<Desc>, h: Seg, c: Chain, k: nat, fuel: nat)
    requires ChainOk(d, h, c) && k < |c.ids| && fuel >= |c.ids| - k
    ensures Walk(d, c.ids[k], fuel) == ([h] + c.pkt.segs)[k..]
    decreases |c.ids| - k
  {
    var all := [h] + c.pkt.segs;
    assert all[k..] == [all[k]] + all[k + 1..];
    NextFlag();
    if k + 1 < |c.ids| {
      WalkFrom(d, h, c, k + 1, fuel - 1);
    }
  }

  lemma InvChainFits(qsz: nat, m: Tx, c: Chain)
    requires Inv(qsz, m) && c in InFlight(m)
    ensures |c.ids| <= qsz
  {
    var k :| 0 <= k < |InFlight(m)| && InFlight(m)[k] == c;
    SumMember(InFlight(m), k, IDS_OF);
    SumInFlight(m, IDS_OF);
  }

  /** From a published head the device reads exactly the header descriptor and
      the packet's segments, in order and nothing more, in every state in which
      the packet is in flight. */
  lemma DeviceReads(qsz: nat, d: seq<Desc>, rec: seq<TbufRecord>, h: Seg, fh: int, fn: int, m: Tx, c: Chain)
    requires Table(qsz, d, rec, h, fh, fn, m) && c in InFlight(m)
    ensures Walk(d, c.ids[0], qsz) == [h] + c.pkt.segs
  {
    InvChainFits(qsz, m, c);
    WalkFrom(d, h, c, 0, qsz);
  }

  // ----- how each event changes the table -----

  /** The two tables agree on the descriptors `ids`. */
  ghost predicate SameOn(d: seq<Desc>, d': seq<Desc>, ids: seq<int>) {
    |d| == |d'| && forall k :: 0 <= k < |ids| && 0 <= ids[k] < |d| ==> d'[ids[k]] == d[ids[k]]
  }

  lemma SameOnTrans(a: seq<Desc>, b: seq<Desc>, c: seq<Desc>, ids: seq<int>)
    requires SameOn(a, b, ids) && SameOn(b, c, ids)
    ensures SameOn(a, c, ids)
  {
  }

  lemma ChainFrame(d: seq<Desc>, d': seq<Desc>, h: Seg, c: Chain)
    requires ChainOk(d, h, c) && SameOn(d, d', c.ids)
    ensures ChainOk(d', h, c)
  {
  }

  lemma ListFrame(d: seq<Desc>, d': seq<Desc>, ids: seq<int>)
    requires Linked(d, ids) && SameOn(d, d', ids)
    ensures Linked(d', ids) && (Ended(d, ids) ==> Ended(d', ids))
  {
  }

  /** A change confined to `at` does not touch a disjoint list of ids. */
  lemma SameOff(d: seq<Desc>, d': seq<Desc>, at: seq<int>, ids: seq<int>)
    requires |d| == |d'| && InTable(|d|, ids) && Disjoint(ids, at)
    requires forall x :: 0 <= x < |d| && x !in at ==> d'[x] == d[x]
    ensures SameOn(d, d', ids)
  {
    forall k | 0 <= k < |ids| ensures d'[ids[k]] == d[ids[k]] {
      assert ids[k] in ids;
    }
  }

  lemma TableDevice(qsz: nat, d: seq<Desc>, rec: seq<TbufRecord>, h: Seg, fh: int, fn: int, m: Tx, e: Event)
    requires Table(qsz, d, rec, h, fh, fn, m) && Enabled(m, e) && (e.Fetch? || e.Complete?)
    ensures Table(qsz, d, rec, h, fh, fn, Step(m, e))
  {
    StepInv(qsz, m, e);
    forall c | c in InFlight(Step(m, e)) ensures c in InFlight(m) {
    }
  }

  lemma TableAlloc(qsz: nat, d: seq<Desc>, rec: seq<TbufRecord>, h: Seg, fh: int, fn: int, m: Tx, n: nat)
    requires Table(qsz, d, rec, h, fh, fn, m) && Enabled(m, Alloc(n))
    requires 0 <= m.free[n - 1] < |d|
    ensures Table(qsz, d, rec, h, d[m.free[n - 1]].next, fn - n, Step(m, Alloc(n)))
  {
    StepInv(qsz, m, Alloc(n));
    assert InFlight(Step(m, Alloc(n))) == InFlight(m);
    var a, b := m.free[..n], m.free[n..];
    assert forall k :: 0 <= k < n ==> a[k] == m.free[k];
    assert forall k :: 0 <= k < |b| ==> b[k] == m.free[n + k];
  }

  /** Writing to pending descriptors disturbs neither the free list nor any
      chain in flight. */
  lemma TablePend(qsz: nat, d: seq<Desc>, d': seq<Desc>, rec: seq<TbufRecord>, h: Seg, fh: int, fn: int, m: Tx)
    requires Table(qsz, d, rec, h, fh, fn, m) && |d'| == qsz && Linked(d', m.pend)
    requires forall x :: 0 <= x < qsz && x !in m.pend ==> d'[x] == d[x]
    ensures Table(qsz, d', rec, h, fh, fn, m)
  {
    FreeApart(qsz, m);
    SameOff(d, d', m.pend, m.free);
    ListFrame(d, d', m.free);
    forall c | c in InFlight(m) ensures ChainOk(d', h, c) {
      ChainApart(qsz, m, c);
      SameOff(d, d', m.pend, c.ids);
      ChainFrame(d, d', h, c);
    }
  }

  /** Storing the record of a pending packet disturbs no other record. */
  lemma TableRecord(qsz: nat, d: seq<Desc>, rec: seq<TbufRecord>, h: Seg, fh: int, fn: int, m: Tx, r: TbufRecord)
    requires Table(qsz, d, rec, h, fh, fn, m) && |m.pend| >= 2
    ensures 0 <= m.pend[1] < qsz && Table(qsz, d, rec[m.pend[1] := r], h, fh, fn, m)
  {
    FreeApart(qsz, m);
    assert m.pend[1] in m.pend;
    forall c | c in InFlight(m) ensures RecOk(rec[m.pend[1] := r], c) {
      ChainApart(qsz, m, c);
      assert c.ids[1] in c.ids;
    }
  }

  lemma TablePublish(qsz: nat, d: seq<Desc>, rec: seq<TbufRecord>, h: Seg, fh: int, fn: int, m: Tx, p: Packet)
    requires Table(qsz, d, rec, h, fh, fn, m) && Enabled(m, Publish(p))
    requires ChainOk(d, h, Chain(m.pend, p)) && RecOk(rec, Chain(m.pend, p))
    ensures Table(qsz, d, rec, h, fh, fn, Step(m, Publish(p)))
  {
    StepInv(qsz, m, Publish(p));
    forall c | c in InFlight(Step(m, Publish(p))) ensures c in InFlight(m) || c == Chain(m.pend, p) {
    }
  }

  /** Putting a chain in front of the free list: the old end of the chain gets
      NEXT and the old head of the list, unless the list was empty. */
  lemma SplicedList(d: seq<Desc>, ids: seq<int>, free: seq<int>, d': seq<Desc>, fh: int)
    requires ids != [] && NoDup(ids) && Disjoint(ids, free) && |d| <= U16
    requires Linked(d, ids) && Ended(d, ids) && FreeList(d, fh, free)
    requires d' == Spliced(d, ids[|ids| - 1], fh, |free|)
    ensures FreeList(d', ids[0], ids + free)
  {
    var all, t := ids + free, |ids| - 1;
    assert ids[t] in ids;
    forall k | 0 <= k < |free| ensures all[|ids| + k] == free[k] != ids[t] {
      assert free[k] in free;
    }
    forall k | 0 <= k < |all| - 1
      ensures 0 <= all[k] < |d| && d'[all[k]].next == all[k + 1] && d'[all[k]].flag == F_NEXT
    {
      if k < t {
        assert all[k] == ids[k] != ids[t] && all[k + 1] == ids[k + 1];
      } else if k > t {
        var j := k - |ids|;
        assert all[k] == free[j] && all[k + 1] == free[j + 1];
      }
    }
  }

  /** The two stores of `FreeTxEntry` to the descriptor table. */
  function Spliced(d: seq<Desc>, tail: int, freeHdr: int, freeNum: int): (r: seq<Desc>)
    ensures |r| == |d|
  {
    if freeNum > 0 && 0 <= tail < |d| && 0 <= freeHdr < U16 then
      d[tail := d[tail].(next := freeHdr, flag := F_NEXT)]
    else d
  }

  /** Only the reclaimed chain's own descriptors change. */
  lemma OthersAfterReclaim(qsz: nat, d: seq<Desc>, d': seq<Desc>, h: Seg, m: Tx, j: nat)
    requires Inv(qsz, m) && m.used != [] && |d| == qsz == |d'|
    requires forall c :: c in InFlight(m) ==> ChainOk(d, h, c)
    requires forall x :: 0 <= x < qsz && x !in m.used[0].ids ==> d'[x] == d[x]
    requires j < |InFlight(Step(m, Reclaim))|
    ensures InFlight(Step(m, Reclaim))[j] in InFlight(m) && ChainOk(d', h, InFlight(Step(m, Reclaim))[j])
  {
    var n := |m.avail| + |m.held|;
    var i := if j < n then j else j + 1;
    assert InFlight(m)[n] == m.used[0];
    assert InFlight(Step(m, Reclaim))[j] == InFlight(m)[i];
    if i < n {
      ChainsApart(qsz, m, i, n);
    } else {
      ChainsApart(qsz, m, n, i);
    }
    assert InFlight(m)[i] in InFlight(m);
    SameOff(d, d', m.used[0].ids, InFlight(m)[i].ids);
    ChainFrame(d, d', h, InFlight(m)[i]);
  }

  /** The free list grows by the reclaimed chain; the pending cut is untouched. */
  lemma ListsAfterReclaim(qsz: nat, d: seq<Desc>, fh: int, m: Tx)
    requires Inv(qsz, m) && m.used != [] && |d| == qsz <= U16
    requires var c := m.used[0]; c in InFlight(m) && |c.ids| >= 2 && Linked(d, c.ids) && Ended(d, c.ids)
    requires FreeList(d, fh, m.free) && Linked(d, m.pend)
    ensures var ids := m.used[0].ids;
            var d' := Spliced(d, ids[|ids| - 1], fh, |m.free|);
            && FreeList(d', ids[0], ids + m.free) && Linked(d', m.pend)
            && forall x :: 0 <= x < qsz && x !in ids ==> d'[x] == d[x]
  {
    var ids := m.used[0].ids;
    var d' := Spliced(d, ids[|ids| - 1], fh, |m.free|);
    ChainApart(qsz, m, m.used[0]);
    SplicedList(d, ids, m.free, d', fh);
    assert ids[|ids| - 1] in ids;
    SameOff(d, d', ids, m.pend);
    ListFrame(d, d', m.pend);
  }

  lemma ChainParts(d: seq<Desc>, h: Seg, c: Chain)
    requires ChainOk(d, h, c)
    ensures |c.ids| >= 2 && Linked(d, c.ids) && Ended(d, c.ids)
  {
  }

  lemma SplicedIs(d: seq<Desc>, tail: int, freeHdr: uint16, freeNum: int)
    requires 0 <= tail < |d|
    ensures Spliced(d, tail, freeHdr, freeNum)
         == if freeNum > 0 then d[tail := d[tail].(next := freeHdr, flag := F_NEXT)] else d
  {
  }

  lemma TableReclaim(qsz: nat, d: seq<Desc>, rec: seq<TbufRecord>, h: Seg, fh: int, fn: int, m: Tx)
    requires Table(qsz, d, rec, h, fh, fn, m) && m.used != [] && qsz <= U16
    ensures var c := m.used[0];
            && ChainOk(d, h, c) && RecOk(rec, c)
            && Table(qsz, Spliced(d, c.ids[|c.ids| - 1], fh, fn), rec, h, c.ids[0], fn + |c.ids|, Step(m, Reclaim))
  {
    hide Inv, Step, Enabled, ChainOk, RecOk, FreeList, Linked, Spliced;
    var c, t := m.used[0], Step(m, Reclaim);
    StepReclaim(m);
    assert c == InFlight(m)[|m.avail| + |m.held|];
    ChainParts(d, h, c);
    var d' := Spliced(d, c.ids[|c.ids| - 1], fh, fn);
    StepInv(qsz, m, Reclaim);
    ListsAfterReclaim(qsz, d, fh, m);
    forall j | 0 <= j < |InFlight(t)|
      ensures ChainOk(d', h, InFlight(t)[j]) && RecOk(rec, InFlight(t)[j])
    {
      OthersAfterReclaim(qsz, d, d', h, m, j);
    }
  }

  /** What `FreeTxEntry` reads: the record found through the head's `next` is the
      one stored for the packet being reclaimed. */
  lemma ReclaimReads(qsz: nat, d: seq<Desc>, rec: seq<TbufRecord>, h: Seg, fh: int, fn: int, m: Tx)
    requires Table(qsz, d, rec, h, fh, fn, m) && m.used != []
    ensures var c := m.used[0];
            var ids := c.ids;
            && |ids| >= 2 && 0 <= ids[0] < |d| && 0 <= ids[|ids| - 1] < |d|
            && 0 <= d[ids[0]].next < |rec|
            && rec[d[ids[0]].next] == TbufRecord(c.pkt.ptr, |ids|, ids[|ids| - 1])
            && fn == |m.free| && fn + |ids| <= qsz
            && SameOn(d, Spliced(d, ids[|ids| - 1], fh, fn), m.pend)
  {
    var c := m.used[0];
    assert c == InFlight(m)[|m.avail| + |m.held|];
    StepInv(qsz, m, Reclaim);
    ChainApart(qsz, m, c);
    assert c.ids[|c.ids| - 1] in c.ids;
    SameOff(d, Spliced(d, c.ids[|c.ids| - 1], fh, fn), c.ids, m.pend);
  }

  /** In a chain of two, the head's `next` is the tail. */
  lemma PairTail(qsz: nat, d: seq<Desc>, rec: seq<TbufRecord>, h: Seg, fh: int, fn: int, m: Tx)
    requires Table(qsz, d, rec, h, fh, fn, m) && m.used != [] && |m.used[0].ids| == 2
    ensures var ids := m.used[0].ids; 0 <= ids[0] < |d| && d[ids[0]].next == ids[1]
  {
    var c := m.used[0];
    assert c == InFlight(m)[|m.avail| + |m.held|];
    assert ChainOk(d, h, c);
    hide Inv, Table;
    assert d[c.ids[0]].next == c.ids[0 + 1];
  }

  lemma FreeListOf(qsz: nat, d: seq<Desc>, rec: seq<TbufRecord>, h: Seg, fh: int, fn: int, m: Tx)
    requires Table(qsz, d, rec, h, fh, fn, m)
    ensures |d| == qsz && fn == |m.free| <= qsz && FreeList(d, fh, m.free)
  {
    InvHalf(qsz, m);
  }

  lemma CountedList(d: seq<Desc>, ids: seq<int>)
    requires |ids| == |d| && forall k :: 0 <= k < |ids| ==> ids[k] == k
    requires forall k :: 0 <= k < |d| - 1 ==> d[k].flag == F_NEXT && d[k].next == k + 1
    requires d != [] ==> d[|d| - 1].flag == 0
    ensures FreeList(d, 0, ids)
  {
  }

  /** The table `InitTxFreelist` builds. */
  lemma TableInit(qsz: nat, d: seq<Desc>, rec: seq<TbufRecord>, h: Seg)
    requires |d| == qsz == |rec|
    requires forall k :: 0 <= k < qsz - 1 ==> d[k].flag == F_NEXT && d[k].next == k + 1
    requires qsz > 0 ==> d[qsz - 1].flag == 0
    ensures Table(qsz, d, rec, h, 0, qsz, Init(qsz))
  {
    hide *;
    CountedList(d, Range(qsz));
    TableOfFree(qsz, d, rec, h);
  }

  lemma TableOfFree(qsz: nat, d: seq<Desc>, rec: seq<TbufRecord>, h: Seg)
    requires |d| == qsz == |rec| && FreeList(d, 0, Range(qsz))
    ensures Table(qsz, d, rec, h, 0, qsz, Init(qsz))
  {
    hide Inv, Range, ChainOk, RecOk, FreeList;
    InitInv(qsz);
  }

  // ----- filling a pending chain -----

  /** A chain cut off for a packet, whose first `n + 1` descriptors are filled. */
  ghost predicate Filled(d: seq<Desc>, h: Seg, ids: seq<int>, segs: seq<Seg>, n: nat) {
    && Linked(d, ids) && Ended(d, ids) && |ids| == |segs| + 1 && n <= |segs|
    && d[ids[0]].pAddr == h.addr && d[ids[0]].len == h.len
    && forall k :: 0 <= k < n ==> d[ids[k + 1]].pAddr == segs[k].addr && d[ids[k + 1]].len == segs[k].len
  }

  lemma FilledFrame(d: seq<Desc>, d': seq<Desc>, h: Seg, ids: seq<int>, segs: seq<Seg>, n: nat)
    requires Filled(d, h, ids, segs, n) && SameOn(d, d', ids)
    ensures Filled(d', h, ids, segs, n)
  {
  }

  lemma FilledHeader(d: seq<Desc>, h: Seg, ids: seq<int>, segs: seq<Seg>)
    requires Linked(d, ids) && Ended(d, ids) && |ids| == |segs| + 1
    ensures Filled(d[ids[0] := d[ids[0]].(pAddr := h.addr, len := h.len)], h, ids, segs, 0)
  {
  }

  lemma FilledSegment(d: seq<Desc>, h: Seg, ids: seq<int>, segs: seq<Seg>, n: nat)
    requires Filled(d, h, ids, segs, n) && n < |segs| && NoDup(ids)
    ensures d[ids[n]].next == ids[n + 1]
    ensures Filled(d[ids[n + 1] := d[ids[n + 1]].(pAddr := segs[n].addr, len := segs[n].len)], h, ids, segs, n + 1)
  {
  }

  lemma FilledChain(d: seq<Desc>, h: Seg, ids: seq<int>, p: Packet)
    requires Filled(d, h, ids, p.segs, |p.segs|) && p.segs != []
    ensures ChainOk(d, h, Chain(ids, p)) && d[ids[0]].next == ids[1]
  {
  }

  /** Clearing NEXT on the last pending descriptor. */
  lemma EndedByClear(d: seq<Desc>, ids: seq<int>)
    requires Linked(d, ids) && NoDup(ids) && ids != []
    requires d[ids[|ids| - 1]].flag == F_NEXT || d[ids[|ids| - 1]].flag == 0
    ensures var t := ids[|ids| - 1];
            var d' := d[t := d[t].(flag := d[t].flag & !F_NEXT)];
            Linked(d', ids) && Ended(d', ids)
  {
  }

  /** A store to a pending descriptor that keeps the pending links. */
  lemma PendStore(qsz: nat, d: seq<Desc>, rec: seq<TbufRecord>, h: Seg, fh: int, fn: int, m: Tx, x: int, e: Desc)
    requires Table(qsz, d, rec, h, fh, fn, m) && x in m.pend && 0 <= x < |d|
    requires Linked(d[x := e], m.pend)
    ensures Table(qsz, d[x := e], rec, h, fh, fn, m)
  {
    TablePend(qsz, d, d[x := e], rec, h, fh, fn, m);
  }

  lemma PendApart(qsz: nat, d: seq<Desc>, rec: seq<TbufRecord>, h: Seg, fh: int, fn: int, m: Tx)
    requires Table(qsz, d, rec, h, fh, fn, m)
    ensures |d| == |rec| == qsz && NoDup(m.pend) && Linked(d, m.pend)
  {
    FreeApart(qsz, m);
  }

  lemma FilledLinked(d: seq<Desc>, h: Seg, ids: seq<int>, segs: seq<Seg>, n: nat)
    requires Filled(d, h, ids, segs, n)
    ensures Linked(d, ids) && Ended(d, ids) && |ids| == |segs| + 1
  {
  }
}
