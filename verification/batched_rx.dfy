/** A receive queue whose handler makes the buffers it has consumed available
    again only when it leaves its loop.  Two drivers are built on it: the ARM
    network driver and the input driver. */
module BatchedRx {
  import opened Counting
  import opened Traces
  import opened RingIndex
  import opened VirtqRing
  import opened RxModel

  /** The buffers of the completions from `from` on hold what the device wrote. */
  ghost predicate Intact<T>(buf: seq<T>, completed: seq<UsedElem>, arrived: seq<T>, from: int) {
    && |arrived| == |completed| && 0 <= from
    && forall k :: from <= k < |completed| ==>
         0 <= completed[k].id < |buf| && buf[completed[k].id] == arrived[k]
  }

  /** The batch is the ids of the last completions before `to`, in order. */
  ghost predicate BatchIs(staged: seq<int>, completed: seq<UsedElem>, to: int) {
    && 0 <= |staged| <= to <= |completed|
    && forall i :: 0 <= i < |staged| ==> staged[i] == completed[to - |staged| + i].id
  }

  /** The device writes only to a buffer it holds, which is none of those the
      driver has still to read. */
  lemma IntactComplete<T>(qsz: nat, m: Rx, buf: seq<T>, completed: seq<UsedElem>, arrived: seq<T>, from: int,
                          k: nat, len: int, x: T)
    requires Inv(qsz, m) && |buf| == qsz && k < |m.held| && Intact(buf, completed, arrived, from)
    requires forall j :: from <= j < |completed| ==> completed[j].id in m.used || completed[j].id in m.hand
    ensures 0 <= m.held[k] < qsz
    ensures Intact(buf[m.held[k] := x], completed + [UsedElem(m.held[k], len)], arrived + [x], from)
  {
    InvApart(qsz, m);
    assert m.held[k] in m.held;
    assert m.held[k] in m.avail + m.held + m.used + m.hand + m.away;
    hide Inv;
  }

  class BatchedQueue<T(0)> {
    const q: Virtq
    const base: int              // where the array of buffers is
    const size: nat              // of one buffer
    const buf: array<T>          // the buffers, one a descriptor
    ghost var arrived: seq<T>    // what the device wrote, per completion
    ghost var trace: seq<Event>
    ghost var m: Rx

    /** Completions whose contents the driver is done with. */
    ghost function Processed(): int
      reads `m, q`nLast, q`cur
    {
      q.nLast + q.cur - |m.hand|
    }

    ghost predicate PlacesAre(t: Rx)
      reads q`published, q`nSeen, q`held, q`completed, q`nLast, q`cur, q`staged
    {
      && t.avail == q.Avail() && t.held == q.held && UsedIds(t.used, q.Used()) && t.away == q.staged
      && q.cur <= 1 && |t.hand| <= q.cur && q.nLast + q.cur <= |q.completed|
      && (|t.hand| == 1 ==> t.hand[0] == q.Current().id)
    }

    ghost predicate Valid()
      reads `trace, `m, `arrived, buf, q`published, q`staged, q`nSeen, q`availIndex, q`seen, q`held, q.ring
      reads q`completed, q`raised, q`nLast, q`cur, q`usedIndex, q`last, q.elems, q`flag, q`stored, q.desc
    {
      && q.Valid() && buf.Length == q.qsz == q.desc.Length
      && q.desc as object != q.ring && q.desc as object != q.elems
      && size > 0 && Wired(q.desc[..], base, size, size)
      && buf as object != q.ring && buf as object != q.elems && buf as object != q.desc
      && Run(q.qsz, trace) == Reached(m) && Inv(q.qsz, m) && PlacesAre(m)
      && Intact(buf[..], q.completed, arrived, Processed())
      && BatchIs(q.staged, q.completed, Processed())
    }

    /** `PopulateRxBuffer` and `PopulateEventQ`. */
    constructor (queue: Virtq, at: int, each: nat)
      requires queue.Valid() && queue.Untouched() && each > 0
      modifies queue.desc, queue.ring, queue`staged, queue`published, queue`availIndex
      ensures Valid() && fresh(buf) && q == queue && base == at && size == each && m == Init(q.qsz)
      ensures |q.staged| == |arrived| == |q.completed| == q.cur == q.nLast == 0
      ensures forall i :: 0 <= i < q.desc.Length ==>
                q.desc[i].pAddr == at + i * each && q.desc[i].len == each && q.desc[i].flag == 2
    {
      hide Virtq.Valid, Range, Inv, Run, PlacesAre, Intact, BatchIs, Init, Virtq.Avail, Virtq.Used;
      q, base, size := queue, at, each;
      buf := new T[queue.qsz];
      arrived, trace, m := [], [], Init(queue.qsz);
      new;
      QueueArrays();
      q.Offer(seq(q.qsz, i requires 0 <= i < q.qsz => AddressOf(at, each, i)), each);
      QueueArrays();
      InitInv(q.qsz);
      InitRun(q.qsz);
      FreshPlaces();
    }

    lemma QueueArrays()
      requires q.Valid()
      ensures q.desc.Length == q.qsz && q.desc as object != q.ring && q.desc as object != q.elems
    {
    }

    lemma FreshPlaces()
      requires q.Avail() == Range(q.qsz)
      requires |q.held| == |q.completed| == |arrived| == |q.staged| == q.nLast == q.cur == 0
      requires m == Init(q.qsz)
      ensures PlacesAre(m)
      ensures Intact(buf[..], q.completed, arrived, Processed()) && BatchIs(q.staged, q.completed, Processed())
    {
      hide Range;
    }

    ghost method Follow(e: Event)
      requires Run(q.qsz, trace) == Reached(m) && Inv(q.qsz, m) && Enabled(m, e)
      modifies `m, `trace
      ensures m == Step(old(m), e) && Run(q.qsz, trace) == Reached(m) && Inv(q.qsz, m)
    {
      RunExtend(q.qsz, trace, m, e);
      StepInv(q.qsz, m, e);
      m, trace := Step(m, e), trace + [e];
    }

    method DeviceFetch()
      requires Valid() && q.Avail() != []
      modifies q`seen, q`held, q`nSeen, `m, `trace
      ensures Valid() && m.hand == old(m.hand) && q.held != []
    {
      hide Virtq.Valid, Run, Inv, UsedIds, Intact, BatchIs, Wired, Virtq.Avail, Virtq.Used;
      q.Fetch();
      Follow(Event.Fetch);
    }

    /** The ids of unread completions, as the machine knows them. */
    lemma UnreadIds()
      requires PlacesAre(m)
      ensures forall j :: Processed() <= j < |q.completed| ==>
                q.completed[j].id in m.used || q.completed[j].id in m.hand
    {
      forall j | Processed() <= j < |q.completed|
        ensures q.completed[j].id in m.used || q.completed[j].id in m.hand
      {
        var i := j - q.nLast - q.cur;
        if i >= 0 {
          assert q.Used()[i] == q.completed[j] && m.used[i] == q.completed[j].id;
        } else {
          assert m.hand[0] == q.completed[j].id;
        }
      }
    }

    /** The buffer at an address. */
    method BufferAt(addr: int, ghost id: nat) returns (i: nat)
      requires size > 0 && id < buf.Length && addr == AddressOf(base, size, id)
      ensures i == id
    {
      hide AddressOf;
      i := 0;
      while AddressOf(base, size, i) != addr
        invariant i <= id
        decreases id - i
      {
        i := i + 1;
      }
      if i < id {
        AddressesApart(base, size, i, id);
      }
    }

    /** The device fills the buffer that the descriptor of a head it holds points to
        with `x`, and returns it. */
    method DeviceComplete(k: nat, len: int, x: T)
      requires Valid() && k < |q.held| && q.credit > 0
      modifies q`usedIndex, q`held, q`completed, q`raised, q`credit, q.elems, buf, `m, `trace, `arrived
      ensures Valid() && m.hand == old(m.hand) && |q.Used()| > old(|q.Used()|)
      ensures old(q.cur) == 1 ==> q.Current() == old(q.Current())
      ensures arrived == old(arrived) + [x]
      ensures q.completed == old(q.completed) + [UsedElem(old(q.held)[k], len)]
      ensures q.raised == old(q.raised) + [q.flag == 0]
    {
      hide Virtq.Valid, Run, Inv, UsedIds, Intact, BatchIs, Wired, Virtq.Avail, Virtq.Used;
      var id := q.held[k];
      UnreadIds();
      IntactComplete(q.qsz, m, buf[..], q.completed, arrived, Processed(), k, len, x);
      UsedComplete(m.used, q.Used(), UsedElem(id, len));
      BatchGrows(q.staged, q.completed, Processed(), UsedElem(id, len));
      ghost var b := buf[..];
      WiredAt(q.desc[..], base, size, size, id);
      var at := BufferAt(q.desc[id].pAddr, id);
      q.Complete(k, len);
      buf[at] := x;
      assert buf[..] == b[id := x];
      arrived := arrived + [x];
      Follow(Event.Complete(k));
    }

    /** Only the device has moved. */
    twostate predicate DeviceMoved()
      reads this, q
    {
      && m.hand == old(m.hand) && |q.Used()| >= old(|q.Used()|)
      && old(q.completed) <= q.completed && old(q.raised) <= q.raised && old(arrived) <= arrived
    }

    method DeviceStep()
      requires Valid()
      modifies q`seen, q`held, q`nSeen, q`usedIndex, q`completed, q`raised, q`credit, q.elems, buf
      modifies `m, `trace, `arrived
      ensures Valid() && DeviceMoved()
    {
      hide Virtq.Valid, Run, Inv, UsedIds, Intact, BatchIs, Wired;
      if * {
        var some := AnyAvail();
        if some {
          DeviceFetch();
        }
      } else if q.held != [] && q.credit > 0 {
        var k: nat :| k < |q.held|;
        var len: int := *;
        var x: T := *;
        DeviceComplete(k, len, x);
      }
    }

    method AnyAvail() returns (some: bool)
      requires Valid()
      ensures some <==> q.Avail() != []
    {
      some := q.HasAvail();
    }

    /** Any number of device steps, in any order. */
    method DeviceSteps()
      requires Valid()
      modifies q`seen, q`held, q`nSeen, q`usedIndex, q`completed, q`raised, q`credit, q.elems, buf
      modifies `m, `trace, `arrived
      ensures Valid() && DeviceMoved()
    {
      hide Valid;
      var steps: nat := *;
      while steps > 0
        invariant Valid() && DeviceMoved()
      {
        DeviceStep();
        steps := steps - 1;
      }
    }

    method SetFlag(v: int)
      requires Valid()
      modifies q`flag, q`stored, q`flags
      ensures Valid() && q.flag == v && q.stored == |q.completed| && q.flags == old(q.flags) + [v]
    {
      hide Virtq.Valid, Run, Inv, UsedIds, Intact, BatchIs, Wired;
      q.SetFlag(v);
    }

    method Pending() returns (some: bool)
      requires Valid() && q.cur == 0
      ensures some <==> q.Used() != []
      ensures !some ==> q.nLast == |q.completed|
    {
      some := q.HasUsed();
    }

    method PickUp() returns (e: UsedElem)
      requires Valid() && q.cur == 0 && q.Used() != []
      modifies q`cur, `m, `trace
      ensures Valid() && q.cur == 1 && m.hand == [e.id] && Processed() == old(Processed())
      ensures 0 <= e.id < buf.Length && 0 <= Processed() < |arrived| && buf[e.id] == arrived[Processed()]
      ensures e == q.Current()
    {
      hide Run, Inv, Virtq.Valid, BatchIs, Virtq.Avail, Intact, Wired;
      UsedTake(m.used, q.Used());
      IntactAt(buf[..], q.completed, arrived, q.nLast);
      assert q.Used() == q.completed[q.nLast..];
      e := q.Take();
      Follow(Event.Take);
    }

    /** `avail->ring[(avail->index + add++) % qsz] = id`: not yet available. */
    method Recycle(add: nat, id: int)
      requires Valid() && q.cur == 1 && m.hand == [id] && add == |q.staged|
      modifies q.ring, q`staged, `m, `trace
      ensures Valid() && m.hand == [] && q.staged == old(q.staged) + [id] && Processed() == old(Processed()) + 1
    {
      hide Virtq.Valid, Run, Inv, UsedIds, Intact, BatchIs, Wired, Virtq.Avail, Virtq.Used;
      Room();
      BatchAppend(q.staged, q.completed, Processed());
      IntactNext(buf[..], q.completed, arrived, Processed());
      q.Stage(add, id);
      Follow(Keep);
    }

    /** The buffer being handled is the one the ring has room for. */
    lemma Room()
      requires Inv(q.qsz, m) && PlacesAre(m) && m.hand != []
      ensures |q.Avail()| + |q.staged| + |q.held| + |q.Used()| < q.qsz
    {
      UsedLength(m.used, q.Used());
    }

    lemma BatchFits()
      requires Valid()
      ensures |q.staged| + |q.Used()| + |m.hand| <= q.qsz
    {
      UsedLength(m.used, q.Used());
      hide Virtq.Valid, UsedIds, Intact, BatchIs, Wired, Run;
    }

    /** `e->id` read again at the end of the loop body is still the same. */
    method RereadId() returns (id: int)
      requires Valid() && q.cur == 1 && |m.hand| == 1
      ensures id == m.hand[0]
    {
      UsedLength(m.used, q.Used());
      var e := q.Reread();
      id := e.id;
    }

    method Finish()
      requires Valid() && q.cur == 1 && m.hand == []
      modifies q`last, q`nLast, q`cur
      ensures Valid() && q.cur == 0 && q.nLast == old(q.nLast) + 1 && q.Used() == old(q.Used())
      ensures Processed() == old(Processed())
    {
      hide Virtq.Valid, Run, Inv, UsedIds, Intact, BatchIs, Wired;
      q.Advance();
    }

    /** `avail->index += add`: the whole batch becomes available. */
    method CommitBatch(add: nat, ghost last: nat)
      requires Valid() && add == |q.staged| && m.hand == [] && q.cur == 0 && q.nLast == last + add
      modifies q`staged, q`availIndex, q`published, `m, `trace
      ensures Valid() && q.staged == [] && q.published == old(q.published) + old(q.staged) && m.hand == []
      ensures Republished(q.published, old(|q.published|), q.completed, last, add)
    {
      hide Virtq.Valid, Run, Inv, UsedIds, Intact, BatchIs, Wired;
      BatchRepublished(q.published, q.staged, q.completed, last);
      BatchEmpty(q.staged, q.completed, Processed());
      q.Commit(add);
      Follow(GiveAll);
    }
  }

  /** The ids published since `from` are those of the `n` completions since `last`. */
  ghost predicate Republished(published: seq<int>, from: nat, completed: seq<UsedElem>, last: nat, n: nat) {
    && |published| == from + n && last + n <= |completed|
    && forall k {:trigger published[k]} :: from <= k < from + n ==> published[k] == completed[last + (k - from)].id
  }

  lemma BatchRepublished(published: seq<int>, staged: seq<int>, completed: seq<UsedElem>, last: nat)
    requires BatchIs(staged, completed, last + |staged|)
    ensures Republished(published + staged, |published|, completed, last, |staged|)
  {
  }

  lemma BatchEmpty(staged: seq<int>, completed: seq<UsedElem>, to: int)
    requires BatchIs(staged, completed, to)
    ensures BatchIs([], completed, to)
  {
  }

  lemma RepublishedLater(published: seq<int>, from: nat, completed: seq<UsedElem>, completed': seq<UsedElem>,
                         last: nat, n: nat)
    requires Republished(published, from, completed, last, n) && completed <= completed'
    ensures Republished(published, from, completed', last, n)
  {
  }

  lemma BatchAppend(staged: seq<int>, completed: seq<UsedElem>, to: int)
    requires BatchIs(staged, completed, to) && to < |completed|
    ensures BatchIs(staged + [completed[to].id], completed, to + 1)
  {
  }

  lemma IntactAt<T>(buf: seq<T>, completed: seq<UsedElem>, arrived: seq<T>, from: nat)
    requires Intact(buf, completed, arrived, from) && from < |completed|
    ensures |arrived| == |completed| && 0 <= completed[from].id < |buf| && buf[completed[from].id] == arrived[from]
  {
  }

  lemma IntactNext<T>(buf: seq<T>, completed: seq<UsedElem>, arrived: seq<T>, from: int)
    requires Intact(buf, completed, arrived, from)
    ensures Intact(buf, completed, arrived, from + 1)
  {
  }

  lemma BatchGrows(staged: seq<int>, completed: seq<UsedElem>, to: int, e: UsedElem)
    requires BatchIs(staged, completed, to)
    ensures BatchIs(staged, completed + [e], to)
  {
  }
}
