/** Index arithmetic of a split virtqueue.

    The driver and the device count ring entries with free-running 16-bit
    indices and find the slot of an entry by `index % qsz`.  The proofs use the
    unbounded count `n` behind such an index; `SlotOfIndex` is what makes the
    two agree when the index wraps. */
module RingIndex {
  const U16 := 0x1_0000

  type uint16 = x: int | 0 <= x < 0x1_0000

  lemma {:induction false} MulAtLeast(e: int, q: int)
    requires e >= 1 && q > 0
    ensures e * q >= q
  {
    if e > 1 {
      MulAtLeast(e - 1, q);
      assert e * q == (e - 1) * q + q;
    }
  }

  lemma DivModUnique(x: int, q: int, d: int, r: int)
    requires q > 0 && x == d * q + r && 0 <= r < q
    ensures x / q == d && x % q == r
  {
    var d', r' := x / q, x % q;
    assert x == d' * q + r' && 0 <= r' < q;
    if d' > d {
      assert (d' - d) * q == d' * q - d * q;
      MulAtLeast(d' - d, q);
    } else if d' < d {
      assert (d - d') * q == d * q - d' * q;
      MulAtLeast(d - d', q);
    }
  }

  /** The ring slot of the `n`-th entry, by counting round the ring. */
  ghost function Slot(n: nat, qsz: int): (s: int)
    requires qsz > 0
    ensures 0 <= s < qsz
  {
    if n < qsz then n else Slot(n - qsz, qsz)
  }

  lemma {:induction false} SlotIsMod(n: nat, qsz: int)
    requires qsz > 0
    ensures Slot(n, qsz) == n % qsz
  {
    if n < qsz {
      DivModUnique(n, qsz, 0, n);
    } else {
      SlotIsMod(n - qsz, qsz);
      var d := (n - qsz) / qsz;
      assert n == (d + 1) * qsz + (n - qsz) % qsz;
      DivModUnique(n, qsz, d + 1, (n - qsz) % qsz);
    }
  }

  lemma {:induction false} SlotOfMultiple(n: nat, m: nat, qsz: int)
    requires qsz > 0
    ensures n + m * qsz >= 0 && Slot(n + m * qsz, qsz) == Slot(n, qsz)
  {
    if m > 0 {
      SlotOfMultiple(n, m - 1, qsz);
      assert n + m * qsz == n + (m - 1) * qsz + qsz;
    }
  }

  /** Going on by at most one lap wraps at most once. */
  lemma {:induction false} SlotAdd(n: nat, k: nat, qsz: int)
    requires qsz > 0 && k <= qsz
    ensures Slot(n + k, qsz) == if Slot(n, qsz) + k < qsz then Slot(n, qsz) + k else Slot(n, qsz) + k - qsz
  {
    if n >= qsz {
      SlotAdd(n - qsz, k, qsz);
    }
  }

  /** The 16-bit index of the count `n`. */
  ghost function Wrap(n: nat): (i: int)
    ensures 0 <= i < U16
  {
    Slot(n, U16)
  }

  lemma WrapAdd(n: nat, k: nat)
    ensures (Wrap(n) + k) % U16 == Wrap(n + k)
    ensures Wrap(n) == n % 65536
  {
    SlotIsMod(n, U16);
    SlotIsMod(n + k, U16);
  }

  lemma FreshIndices()
    ensures Wrap(0) == 0
  {
  }

  /** Queue sizes of VIRTIO 1.1 section 2.6: at most 32768, and powers of two,
      hence sizes that divide the range of the index. */
  ghost predicate QueueSize(qsz: int) {
    0 < qsz <= 0x8000 && Slot(U16, qsz) == 0
  }

  /** The slot computed from the wrapped index is the slot of the count, at any
      distance `k` the driver adds before reducing. */
  lemma SlotOfIndex(n: nat, k: nat, qsz: int)
    requires QueueSize(qsz)
    ensures (n % 65536 + k) % qsz == Slot(n + k, qsz)
  {
    SlotIsMod(U16, qsz);
    var m, w := U16 / qsz, n / U16;
    assert U16 == m * qsz;
    assert w * U16 == (w * m) * qsz;
    assert w * m >= 0;
    SlotIsMod(n % U16 + k, qsz);
    SlotOfMultiple(n % U16 + k, w * m, qsz);
  }

  /** Fewer than `qsz` consecutive counts occupy different slots. */
  lemma {:induction false} SlotsDistinct(i: nat, j: nat, qsz: int)
    requires qsz > 0 && i < j < i + qsz
    ensures Slot(i, qsz) != Slot(j, qsz)
  {
    if i >= qsz {
      SlotsDistinct(i - qsz, j - qsz, qsz);
    }
  }

  /** The slots of ring `a` hold the entries `hist[from..]` of a history. */
  ghost predicate Holds<T>(a: seq<T>, qsz: int, hist: seq<T>, from: nat) {
    && 0 < qsz == |a| && from <= |hist|
    && forall k {:trigger hist[k]} :: from <= k < |hist| ==> a[Slot(k, qsz)] == hist[k]
  }

  /** Writing the next slot extends the history, unless the ring is full. */
  lemma HoldsAppend<T>(a: seq<T>, qsz: int, hist: seq<T>, from: nat, x: T)
    requires Holds(a, qsz, hist, from) && |hist| - from < qsz
    ensures Holds(a[Slot(|hist|, qsz) := x], qsz, hist + [x], from)
  {
    forall k | from <= k < |hist| ensures Slot(k, qsz) != Slot(|hist|, qsz) {
      SlotsDistinct(k, |hist|, qsz);
    }
  }

  lemma HoldsAt<T>(a: seq<T>, qsz: int, hist: seq<T>, from: nat, k: nat)
    requires Holds(a, qsz, hist, from) && from <= k < |hist|
    ensures 0 <= Slot(k, qsz) < |a| && a[Slot(k, qsz)] == hist[k]
  {
  }

  /** Entries no longer wanted may be forgotten. */
  lemma HoldsFrom<T>(a: seq<T>, qsz: int, hist: seq<T>, from: nat, later: nat)
    requires Holds(a, qsz, hist, from) && from <= later <= |hist|
    ensures Holds(a, qsz, hist, later)
    ensures from < |hist| ==> 0 <= Slot(from, qsz) < |a| && a[Slot(from, qsz)] == hist[from]
  {
  }

  lemma Rest<T>(s: seq<T>, n: nat)
    requires n < |s|
    ensures s[n..][0] == s[n] && s[n..][1..] == s[n + 1..]
  {
  }

  /** A driver that reduces the wrapped index finds the slot of the count, for
      every count, exactly when the queue size divides 65536. */
  lemma WrapContinuousIff(qsz: int)
    requires 0 < qsz <= 0x8000
    ensures (forall n: nat :: Slot(n % 65536, qsz) == Slot(n, qsz)) <==> 65536 % qsz == 0
  {
    SlotIsMod(U16, qsz);
    if Slot(U16, qsz) == 0 {
      forall n: nat ensures Slot(n % U16, qsz) == Slot(n, qsz) {
        SlotOfIndex(n, 0, qsz);
        SlotIsMod(n % U16, qsz);
      }
    } else {
      assert U16 % U16 == 0 && Slot(U16 % U16, qsz) == 0;
    }
  }
}

/** `struct Virtq`: one split virtqueue shared by a driver and a device, with
    the operations either side performs on it. */
module VirtqRing {
  import opened Counting
  import opened RingIndex

  const NO_INTERRUPT := 1

  /** `struct VirtqDesc`. */
  datatype Desc = Desc(pAddr: int, len: int, flag: bv16, next: uint16)

  const F_NEXT: bv16 := 1
  const F_WRITE: bv16 := 2

  /** `struct VirtqUsedElem`. */
  datatype UsedElem = UsedElem(id: int, len: int)

  /** `ids` are the ids of the elements `es`. */
  ghost predicate UsedIds(ids: seq<int>, es: seq<UsedElem>) {
    |ids| == |es| && forall i :: 0 <= i < |ids| ==> ids[i] == es[i].id
  }

  lemma UsedComplete(ids: seq<int>, es: seq<UsedElem>, e: UsedElem)
    requires UsedIds(ids, es)
    ensures UsedIds(ids + [e.id], es + [e])
  {
  }

  lemma UsedTake(ids: seq<int>, es: seq<UsedElem>)
    requires UsedIds(ids, es) && es != []
    ensures ids != [] && ids[0] == es[0].id && UsedIds(ids[1..], es[1..])
  {
  }

  lemma UsedLength(ids: seq<int>, es: seq<UsedElem>)
    requires UsedIds(ids, es)
    ensures |ids| == |es|
  {
  }

  /** A descriptor of a buffer the device may write, outside any chain. */
  predicate ForWriting(d: Desc, addr: int, len: int) {
    d.pAddr == addr && d.len == len && d.flag == 2
  }

  /** The address of element `i` of an array at `base`. */
  function AddressOf(base: int, size: nat, i: nat): int {
    base + i * size
  }

  lemma {:induction false} AddressesApart(base: int, size: nat, i: nat, j: nat)
    requires size > 0 && i < j
    ensures AddressOf(base, size, i) + size <= AddressOf(base, size, j)
  {
    assert (j - i - 1) * size >= 0;
    assert j * size == i * size + size + (j - i - 1) * size;
  }

  /** Each descriptor gives `len` writable bytes of the buffer of the same number:
      buffer `i` of those that start every `step` bytes from `base` on. */
  ghost predicate Wired(desc: seq<Desc>, base: int, step: nat, len: nat) {
    forall i :: 0 <= i < |desc| ==> ForWriting(desc[i], AddressOf(base, step, i), len)
  }

  lemma WiredAt(desc: seq<Desc>, base: int, step: nat, len: nat, i: nat)
    requires Wired(desc, base, step, len) && i < |desc|
    ensures desc[i].pAddr == AddressOf(base, step, i)
  {
  }

  /** The available ring and the indices on either side of it. */
  ghost predicate AvailSide(ring: seq<int>, qsz: int, published: seq<int>, staged: seq<int>, nSeen: nat,
                            availIndex: int, seen: int)
  {
    && Holds(ring, qsz, published + staged, nSeen)
    && seen == Wrap(nSeen) && availIndex == Wrap(|published|)
  }

  /** The used ring and the indices on either side of it.  The slot the driver
      is working on is reused only when every buffer is back with the driver. */
  ghost predicate UsedSide(elems: seq<UsedElem>, qsz: int, completed: seq<UsedElem>, nLast: nat, cur: nat,
                           usedIndex: int, last: int)
  {
    && Holds(elems, qsz, completed, nLast + cur)
    && (|completed| - nLast <= qsz ==> Holds(elems, qsz, completed, nLast))
    && usedIndex == Wrap(|completed|) && last == Wrap(nLast)
  }

  /** The next slot has the oldest unread element; reading it moves the driver on. */
  lemma TakeFinds(elems: seq<UsedElem>, qsz: int, completed: seq<UsedElem>, nLast: nat, usedIndex: int, last: int)
    requires UsedSide(elems, qsz, completed, nLast, 0, usedIndex, last) && nLast < |completed|
    ensures UsedSide(elems, qsz, completed, nLast, 1, usedIndex, last) && last == Wrap(nLast)
    ensures 0 <= Slot(nLast, qsz) < |elems| && elems[Slot(nLast, qsz)] == completed[nLast]
  {
    hide Holds, Wrap, Slot;
    HoldsFrom(elems, qsz, completed, nLast, nLast + 1);
  }

  /** Since `avail->flag` was last stored, at completion `stored`, each completion
      has raised an interrupt exactly if the flag stored was 0. */
  ghost predicate FlagSide(flag: int, raised: seq<bool>, stored: nat) {
    stored <= |raised| && forall k :: stored <= k < |raised| ==> (raised[k] <==> flag == 0)
  }

  lemma FlagNow(flag: int, raised: seq<bool>)
    ensures FlagSide(flag, raised, |raised|)
  {
  }

  lemma FlagNext(flag: int, raised: seq<bool>, stored: nat)
    requires FlagSide(flag, raised, stored)
    ensures FlagSide(flag, raised + [flag == 0], stored)
  {
  }

  /** Of the completions from `from` on, exactly those from `stored` on raised an
      interrupt. */
  ghost predicate LeftBehind(raised: seq<bool>, from: nat, stored: nat) {
    stored <= |raised| && forall k :: from <= k < |raised| ==> (raised[k] <==> k >= stored)
  }

  /** The stores from `from` on suppress interrupts, allow them, suppress them, and
      so on. */
  ghost predicate Toggled(flags: seq<int>, from: nat) {
    && from < |flags| && flags[from] == 1
    && forall k :: from < k < |flags| ==> flags[k] == 1 - flags[k - 1]
  }

  /** ... and for now suppress them, */
  ghost predicate Suppressed(flags: seq<int>, from: nat) {
    Toggled(flags, from) && flags[|flags| - 1] == 1
  }

  /** ... or in the end allow them. */
  ghost predicate LeftEnabled(flags: seq<int>, from: nat) {
    Toggled(flags, from) && flags[|flags| - 1] == 0
  }

  lemma SuppressNow(flags: seq<int>)
    ensures Suppressed(flags + [NO_INTERRUPT], |flags|)
  {
  }

  lemma EnableNow(flags: seq<int>, from: nat)
    requires Suppressed(flags, from)
    ensures LeftEnabled(flags + [0], from) && Suppressed(flags + [0] + [NO_INTERRUPT], from)
  {
  }

  lemma SplitByFlag(before: seq<bool>, raised: seq<bool>, stored: nat, from: nat)
    requires FlagSide(NO_INTERRUPT, before, stored) && stored <= from && before <= raised
    requires FlagSide(0, raised, |before|)
    ensures LeftBehind(raised, from, |before|)
  {
    forall k | from <= k < |raised| ensures raised[k] <==> k >= |before| {
      if k < |before| {
        assert raised[k] == before[k];
      }
    }
  }

  lemma FreshSides(ring: seq<int>, elems: seq<UsedElem>, qsz: int)
    requires 0 < qsz == |ring| == |elems|
    ensures AvailSide(ring, qsz, [], [], 0, 0, 0) && UsedSide(elems, qsz, [], 0, 0, 0, 0)
  {
    FreshIndices();
  }

  class Virtq {
    const qsz: nat
    const desc: array<Desc>
    const ring: array<int>         // avail->ring
    const elems: array<UsedElem>   // used->ring
    var flag: int                  // avail->flag
    var availIndex: uint16         // avail->index
    var usedIndex: uint16          // used->index
    var last: uint16               // the driver's position in the used ring

    // The device's own memory.
    var seen: uint16               // its position in the available ring
    var held: seq<int>             // heads fetched and not yet completed
    var credit: nat                // completions the device still makes in this run

    // Histories.
    ghost var published: seq<int>        // every id made available, in order
    ghost var staged: seq<int>           // ids written beyond avail->index
    ghost var nSeen: nat                 // ids fetched by the device
    ghost var completed: seq<UsedElem>   // every completion, in order
    ghost var raised: seq<bool>          // per completion: were interrupts enabled?
    ghost var stored: nat                // completions made when the flag was last stored
    ghost var flags: seq<int>            // every store to avail->flag, in order
    ghost var nLast: nat                 // completions the driver has finished with
    ghost var cur: nat                   // 1 while the driver works on completed[nLast]

    /** A zeroed queue of `n` entries, as the drivers allocate it. */
    constructor (n: nat, completions: nat)
      requires 0 < n <= 0x8000 && U16 % n == 0
      ensures Valid() && qsz == n && fresh(desc) && fresh(ring) && fresh(elems)
      ensures desc.Length == ring.Length == elems.Length == n
      ensures forall i :: 0 <= i < n ==> desc[i] == Desc(0, 0, 0, 0)
      ensures Untouched() && flag == 0 && credit == completions
    {
      hide Slot, Wrap, AvailSide, UsedSide, Holds, FlagSide;
      SlotIsMod(U16, n);
      qsz := n;
      desc := new Desc[n](i => Desc(0, 0, 0, 0));
      ring := new int[n](i => 0);
      elems := new UsedElem[n](i => UsedElem(0, 0));
      flag, availIndex, usedIndex, last := 0, 0, 0, 0;
      seen, held, credit := 0, [], completions;
      published, staged, nSeen := [], [], 0;
      completed, raised, stored, flags, nLast, cur := [], [], 0, [], 0, 0;
      new;
      FlagNow(0, []);
      FreshSides(ring[..], elems[..], n);
    }

    /** Neither side has done anything yet. */
    ghost predicate Untouched()
      reads this
    {
      && |published| == |staged| == |held| == |completed| == |raised| == 0
      && nSeen == 0 && nLast == 0 && cur == 0 && stored == 0
    }

    /** Available and not yet fetched. */
    ghost function Avail(): seq<int>
      reads `published, `nSeen
    {
      if nSeen <= |published| then published[nSeen..] else []
    }

    /** Completed and not yet picked up by the driver. */
    ghost function Used(): seq<UsedElem>
      reads `completed, `nLast, `cur
    {
      if nLast + cur <= |completed| then completed[nLast + cur..] else []
    }

    /** The element at the driver's position. */
    ghost function Current(): UsedElem
      reads `completed, `nLast
    {
      if nLast < |completed| then completed[nLast] else UsedElem(0, 0)
    }

    ghost predicate Valid()
      reads `published, `staged, `nSeen, `availIndex, `seen, `held, ring
      reads `completed, `raised, `nLast, `cur, `usedIndex, `last, elems, `flag, `stored
    {
      && FlagSide(flag, raised, stored)
      && QueueSize(qsz) && 0 < qsz <= 0x8000
      && ring.Length == qsz && elems.Length == qsz && desc.Length == qsz
      && ring as object != elems && ring as object != desc && elems as object != desc
      && nSeen <= |published| && cur <= 1 && nLast + cur <= |completed|
      && |raised| == |completed|
      && |Avail()| + |staged| + |held| + |Used()| <= qsz
      && AvailSide(ring[..], qsz, published, staged, nSeen, availIndex, seen)
      && UsedSide(elems[..], qsz, completed, nLast, cur, usedIndex, last)
    }

    /** Every completion the driver has not picked up was made after interrupts
        were enabled, and raised one. */
    ghost predicate AllRaised()
      reads `completed, `raised, `nLast, `cur, `flag, `stored
    {
      && flag == 0 && stored <= nLast + cur && |raised| == |completed|
      && forall k :: nLast + cur <= k < |completed| ==> raised[k]
    }

    lemma Signalled()
      requires Valid() && flag == 0 && stored <= nLast + cur
      ensures AllRaised()
    {
      hide QueueSize, AvailSide, UsedSide;
    }

    /** `(index + add) % qsz`, for the wrapped `index` of a count `n`. */
    method SlotAt(index: uint16, add: nat, ghost n: nat) returns (s: int)
      requires QueueSize(qsz) && index == Wrap(n)
      ensures s == Slot(n + add, qsz)
    {
      SlotIsMod(n, U16);
      SlotOfIndex(n, add, qsz);
      s := (index + add) % qsz;
    }

    /** `index += add` on the wrapped `index` of a count `n`. */
    method Bump(index: uint16, add: nat, ghost n: nat) returns (i: uint16)
      requires index == Wrap(n)
      ensures i == Wrap(n + add)
    {
      WrapAdd(n, add);
      i := (index + add) % U16;
    }

    /** Driver: `avail->flag = v`. */
    method SetFlag(v: int)
      requires Valid()
      modifies `flag, `stored, `flags
      ensures Valid() && flag == v && stored == |completed| && flags == old(flags) + [v]
    {
      hide QueueSize, AvailSide, UsedSide, FlagSide;
      flag, stored, flags := v, |completed|, flags + [v];
      FlagNow(v, raised);
    }

    /** Driver: `avail->ring[(avail->index + add) % qsz] = id`. */
    method Stage(add: nat, id: int)
      requires Valid() && add == |staged|
      requires |Avail()| + |staged| + |held| + |Used()| < qsz
      modifies ring, `staged
      ensures Valid() && staged == old(staged) + [id]
    {
      hide FlagSide, QueueSize, Wrap, UsedSide, Slot;
      hide Holds;
      var slot := SlotAt(availIndex, add, |published|);
      HoldsAppend(ring[..], qsz, published + staged, nSeen, id);
      ring[slot] := id;
      assert ring[..] == old(ring[..])[slot := id];
      assert published + (staged + [id]) == published + staged + [id];
      staged := staged + [id];
    }

    /** Driver: `avail->index += add`, which makes the staged ids available. */
    method Commit(add: nat)
      requires Valid() && add == |staged|
      modifies `availIndex, `published, `staged
      ensures Valid() && published == old(published) + old(staged) && staged == []
      ensures Avail() == old(Avail()) + old(staged)
    {
      hide FlagSide, QueueSize, Wrap, UsedSide, Holds;
      availIndex := Bump(availIndex, add, |published|);
      ghost var all := published + staged;
      published, staged := all, [];
      assert published + staged == all;
    }

    /** Driver: point every descriptor at its own buffer for the device to write,
        and every slot of the available ring at a descriptor. */
    method Populate(addrs: seq<int>, len: int)
      requires Valid() && Untouched() && |addrs| == qsz
      modifies desc, ring, `staged
      ensures Valid() && staged == Range(qsz) && |Avail()| == |Used()| == 0
      ensures forall i :: 0 <= i < qsz ==> ForWriting(desc[i], addrs[i], len)
    {
      hide FlagSide, QueueSize, Wrap, Slot, AvailSide, UsedSide, Range;
      var i := 0;
      RangeGrows(0);
      while i < qsz
        invariant 0 <= i <= qsz && Valid() && staged == Range(i) && |Avail()| == |Used()| == 0
        invariant forall k :: 0 <= k < i ==> ForWriting(desc[k], addrs[k], len)
      {
        desc[i] := desc[i].(pAddr := addrs[i], len := len, flag := F_WRITE);
        RangeGrows(i);
        Stage(i, i);
        i := i + 1;
      }
    }

    /** Driver: all buffers, made available for the first time. */
    method Offer(addrs: seq<int>, len: int)
      requires Valid() && Untouched() && |addrs| == qsz
      modifies desc, ring, `staged, `published, `availIndex
      ensures Valid() && Avail() == Range(qsz) && |staged| == |held| == |Used()| == |completed| == 0
      ensures forall i :: 0 <= i < qsz ==> ForWriting(desc[i], addrs[i], len)
    {
      hide Valid, Range, Avail, Used, ForWriting;
      Populate(addrs, len);
      RangeGrows(qsz);
      Commit(qsz);
    }

    /** Driver: the test `last != used->index` between two elements. */
    method HasUsed() returns (some: bool)
      requires Valid() && cur == 0
      ensures some <==> Used() != []
    {
      if nLast < |completed| {
        SlotsDistinct(nLast, |completed|, U16);
      }
      some := last != usedIndex;
    }

    /** Driver: `e = &used->ring[last % qsz]`. */
    method Take() returns (e: UsedElem)
      requires Valid() && cur == 0 && Used() != []
      modifies `cur
      ensures Valid() && cur == 1
      ensures e == Current() == old(Used())[0] && Used() == old(Used())[1..]
    {
      hide FlagSide, QueueSize, Wrap, AvailSide, Slot, UsedSide;
      TakeFinds(elems[..], qsz, completed, nLast, usedIndex, last);
      Rest(completed, nLast);
      e := Oldest();
      cur := 1;
    }

    /** The element at the driver's position, which it has not picked up. */
    method Oldest() returns (e: UsedElem)
      requires Valid() && cur == 0 && nLast < |completed|
      ensures e == completed[nLast]
    {
      hide Valid, QueueSize, Wrap, Slot;
      AtPosition();
      var slot := SlotAt(last, 0, nLast);
      e := elems[slot];
    }

    lemma AtPosition()
      requires Valid() && cur == 0 && nLast < |completed|
      ensures QueueSize(qsz) && qsz > 0 && last == Wrap(nLast)
      ensures Slot(nLast, qsz) < elems.Length && elems[Slot(nLast, qsz)] == completed[nLast]
    {
      hide FlagSide, QueueSize, Wrap, AvailSide, Slot, UsedSide, Avail, Used;
      TakeFinds(elems[..], qsz, completed, nLast, usedIndex, last);
    }

    /** Driver: `e` read once more through the same pointer. */
    method Reread() returns (e: UsedElem)
      requires Valid() && cur == 1 && |Used()| < qsz
      ensures e == Current()
    {
      var slot := SlotAt(last, 0, nLast);
      e := elems[slot];
    }

    /** Driver: `last++`. */
    method Advance()
      requires Valid() && cur == 1
      modifies `last, `nLast, `cur
      ensures Valid() && cur == 0 && nLast == old(nLast) + 1 && Used() == old(Used())
    {
      hide FlagSide, QueueSize, Wrap, AvailSide, Holds;
      last := Bump(last, 1, nLast);
      nLast, cur := nLast + 1, 0;
    }

    /** Device: is there an available head? */
    method HasAvail() returns (some: bool)
      requires Valid()
      ensures some <==> Avail() != []
    {
      if nSeen < |published| {
        SlotsDistinct(nSeen, |published|, U16);
      }
      some := seen != availIndex;
    }

    /** Device: fetch the next available head. */
    method Fetch()
      requires Valid() && Avail() != []
      modifies `seen, `held, `nSeen
      ensures Valid() && nSeen == old(nSeen) + 1
      ensures held == old(held) + [old(Avail())[0]] && Avail() == old(Avail())[1..]
    {
      hide FlagSide, QueueSize, AvailSide, UsedSide;
      Rest(published, nSeen);
      var id := NextAvail();
      held := held + [id];
    }

    /** Device: the available-ring half of `Fetch`. */
    method NextAvail() returns (id: int)
      requires QueueSize(qsz) && ring.Length == qsz && nSeen < |published|
      requires AvailSide(ring[..], qsz, published, staged, nSeen, availIndex, seen)
      modifies `seen, `nSeen
      ensures id == published[old(nSeen)] && nSeen == old(nSeen) + 1
      ensures AvailSide(ring[..], qsz, published, staged, nSeen, availIndex, seen)
    {
      hide FlagSide, QueueSize, Slot, Holds, Wrap;
      HoldsFrom(ring[..], qsz, published + staged, nSeen, nSeen + 1);
      var slot := SlotAt(seen, 0, nSeen);
      id := ring[slot];
      seen := Bump(seen, 1, nSeen);
      nSeen := nSeen + 1;
    }

    /** Device: complete any head it holds. */
    method Complete(k: nat, len: int)
      requires Valid() && k < |held| && credit > 0
      modifies elems, `usedIndex, `held, `completed, `raised, `credit
      ensures Valid() && held == old(held)[..k] + old(held)[k + 1..]
      ensures completed == old(completed) + [UsedElem(old(held)[k], len)]
      ensures Used() == old(Used()) + [UsedElem(old(held)[k], len)]
      ensures raised == old(raised) + [flag == 0] && credit == old(credit) - 1
    {
      hide FlagSide, QueueSize, Wrap, AvailSide, UsedSide, Slot;
      var e := UsedElem(held[k], len);
      PutUsed(e);
      FlagNext(flag, raised, stored);
      raised := raised + [flag == 0];
      held := held[..k] + held[k + 1..];
      credit := credit - 1;
    }

    /** Device: the used-ring half of `Complete`. */
    method PutUsed(e: UsedElem)
      requires QueueSize(qsz) && elems.Length == qsz && nLast + cur <= |completed|
      requires UsedSide(elems[..], qsz, completed, nLast, cur, usedIndex, last)
      requires |completed| - nLast - cur < qsz
      modifies elems, `usedIndex, `completed
      ensures UsedSide(elems[..], qsz, completed, nLast, cur, usedIndex, last)
      ensures completed == old(completed) + [e]
      ensures completed[nLast + cur..] == old(completed)[nLast + cur..] + [e]
    {
      hide FlagSide, QueueSize, Wrap, Slot;
      var slot := SlotAt(usedIndex, 0, |completed|);
      HoldsAppend(elems[..], qsz, completed, nLast + cur, e);
      if |completed| - nLast < qsz {
        HoldsAppend(elems[..], qsz, completed, nLast, e);
      }
      elems[slot] := e;
      assert elems[..] == old(elems[..])[slot := e];
      usedIndex := Bump(usedIndex, 1, |completed|);
      completed := completed + [e];
    }
  }
}
