/** Where the parts of the virtqueues go in memory.  `VirtqSize` estimates the
    room a queue needs without knowing the address; `CalculateQueueAddr` places
    it.  Addresses are unbounded here: nothing placed lies beyond the estimate,
    so nothing wraps if the allocation itself does not. */
module QueueLayout {
  const ALIGN_DESC: nat := 16
  const ALIGN_AVAIL: nat := 2
  const ALIGN_USED: nat := 4

  type uint16 = x: int | 0 <= x < 0x1_0000

  // `ALIGN(x, a)`, the least multiple of `a` from `x` on, for the three alignments.

  function Align2(x: nat): (r: nat)
    ensures x <= r < x + 2 && r % 2 == 0
  {
    (x + 1) / 2 * 2
  }

  function Align4(x: nat): (r: nat)
    ensures x <= r < x + 4 && r % 4 == 0
  {
    (x + 3) / 4 * 4
  }

  function Align16(x: nat): (r: nat)
    ensures x <= r < x + 16 && r % 16 == 0
  {
    (x + 15) / 16 * 16
  }

  // Sizes of the parts of a queue with `qsz` entries.

  function DescBytes(qsz: nat): nat { 16 * qsz }

  function AvailBytes(qsz: nat): nat { 4 + 2 * qsz }

  function UsedBytes(qsz: nat): nat { 4 + 8 * qsz }

  function VirtqSize(qsz: nat): nat {
    ALIGN_DESC - 1 + Align2(DescBytes(qsz)) + Align4(AvailBytes(qsz)) + UsedBytes(qsz)
  }

  datatype Placed = Placed(desc: nat, avail: nat, used: nat, qsz: nat)

  function End(p: Placed): nat {
    p.used + UsedBytes(p.qsz)
  }

  /** The parts of a queue are aligned and follow each other without overlap. */
  ghost predicate WellPlaced(p: Placed, from: nat) {
    && p.desc % ALIGN_DESC == 0 && p.avail % ALIGN_AVAIL == 0 && p.used % ALIGN_USED == 0
    && from <= p.desc && p.desc + DescBytes(p.qsz) <= p.avail && p.avail + AvailBytes(p.qsz) <= p.used
  }

  /** Where every entry lies, by the widths of its fields: descriptor `i` is 8 + 4 +
      2 + 2 bytes, entry `i` of the available ring 2 bytes behind its 4 of flag and
      index, and entry `i` of the used ring 4 + 4 bytes behind its own 4. */
  lemma EntriesApart(p: Placed, from: nat, i: nat)
    requires WellPlaced(p, from) && i < p.qsz
    ensures from <= p.desc && p.desc + 16 * i + 8 + 4 + 2 + 2 <= p.avail
    ensures p.avail + 2 + 2 + 2 * i + 2 <= p.used
    ensures p.used + 2 + 2 + 8 * i + 4 + 4 <= End(p)
    ensures p.desc % 16 == 0 && p.avail % 2 == 0 && p.used % 4 == 0
  {
  }

  /** A queue of `qsz` entries is at the first place for it from `base` on. */
  ghost predicate PlacedAt(p: Placed, base: nat, qsz: nat) {
    && p.qsz == qsz && base <= p.desc < base + 16 && p.desc % 16 == 0
    && p.avail == p.desc + 16 * qsz
    && p.avail + 4 + 2 * qsz <= p.used < p.avail + 4 + 2 * qsz + 4 && p.used % 4 == 0
  }

  lemma PlacedSize(p: Placed, base: nat, qsz: nat)
    requires PlacedAt(p, base, qsz)
    ensures p.qsz == qsz
  {
  }

  /** What `VirtqSize` gives for the sizes the network drivers use. */
  lemma KnownSizes()
    ensures VirtqSize(16) == 439 && VirtqSize(32) == 855 && NetSize() == 25745
  {
  }

  /** The estimate is right for every address, and its allowance for alignment
      is used up exactly when the address is one past a boundary. */
  method CalculateQueueAddr(base: nat, qsz: uint16) returns (p: Placed, end: nat)
    ensures p.qsz == qsz && WellPlaced(p, base) && end == End(p)
    ensures end <= base + VirtqSize(qsz)
    ensures end == base + VirtqSize(qsz) <==> base % ALIGN_DESC == 1
    ensures base % ALIGN_DESC == 0 ==> end + 15 == base + VirtqSize(qsz)
    ensures PlacedAt(p, base, qsz) && end == p.used + 4 + 8 * qsz
  {
    var desc := Align16(base);
    var avail := Align2(desc + DescBytes(qsz));
    var used := Align4(avail + AvailBytes(qsz));
    p := Placed(desc, avail, used, qsz);
    end := used + UsedBytes(qsz);
    hide Align2, Align4, Align16;
    Even(desc, qsz);
    Even(0, qsz);
    Shift(avail, AvailBytes(qsz));
    Boundary(base);
  }

  lemma Even(d: nat, qsz: nat)
    requires d % 16 == 0
    ensures Align2(d + DescBytes(qsz)) == d + DescBytes(qsz) && (d + DescBytes(qsz)) % 4 == 0
  {
    Multiple(d + DescBytes(qsz), 4 * (d / 16) + 4 * qsz);
  }

  lemma Multiple(x: nat, k: nat)
    requires x == 4 * k
    ensures x % 4 == 0 && Align2(x) == x
  {
    assert x == 2 * (2 * k) && (x + 1) / 2 == 2 * k;
  }

  /** Aligning moves along with an aligned address. */
  lemma Shift(x: nat, n: nat)
    requires x % 4 == 0
    ensures Align4(x + n) == x + Align4(n)
  {
  }

  lemma Boundary(base: nat)
    ensures Align16(base) == base + 15 <==> base % 16 == 1
    ensures base % 16 == 0 ==> Align16(base) == base
  {
  }

  function Estimate(qszs: seq<uint16>): nat {
    if qszs == [] then 0 else Estimate(qszs[..|qszs| - 1]) + VirtqSize(qszs[|qszs| - 1])
  }

  /** Where the room for queue `i` starts. */
  function From(vq: seq<Placed>, base: nat, i: nat): nat
    requires i <= |vq|
  {
    if i == 0 then base else End(vq[i - 1])
  }

  /** Queue `i` starts where queue `i - 1` ends, or later. */
  ghost predicate Chained(vq: seq<Placed>, base: nat) {
    forall i :: 0 <= i < |vq| ==> WellPlaced(vq[i], From(vq, base, i))
  }

  /** The placing loop of `VirtmmioConfigQueue`, for any number of queues. */
  method PlaceQueues(base: nat, qszs: seq<uint16>) returns (vq: seq<Placed>, end: nat)
    ensures |vq| == |qszs| && Chained(vq, base)
    ensures forall i :: 0 <= i < |vq| ==> PlacedAt(vq[i], From(vq, base, i), qszs[i])
    ensures base <= end <= base + Estimate(qszs) && end == From(vq, base, |vq|)
    ensures base % ALIGN_DESC == 0 && |qszs| > 0 ==> end + 15 <= base + Estimate(qszs)
  {
    hide WellPlaced, VirtqSize, End, Chained, PlacedAt;
    vq, end := [], base;
    var i := 0;
    NoneChained(base);
    assert qszs[..0] == [];
    while i < |qszs|
      invariant 0 <= i <= |qszs| && |vq| == i
      invariant Chained(vq, base) && forall k :: 0 <= k < i ==> PlacedAt(vq[k], From(vq, base, k), qszs[k])
      invariant base <= end <= base + Estimate(qszs[..i]) && end == From(vq, base, i)
      invariant base % ALIGN_DESC == 0 && i > 0 ==> end + 15 <= base + Estimate(qszs[..i])
    {
      var p, e := CalculateQueueAddr(end, qszs[i]);
      EndsAfter(p, end);
      assert qszs[..i + 1][..i] == qszs[..i];
      ChainedNext(vq, base, p);
      assert forall k :: 0 <= k <= i ==> From(vq + [p], base, k) == From(vq, base, k);
      vq, end := vq + [p], e;
      i := i + 1;
    }
    assert qszs[..i] == qszs;
  }

  lemma NoneChained(base: nat)
    ensures Chained([], base)
  {
  }

  lemma ChainedNext(vq: seq<Placed>, base: nat, p: Placed)
    requires Chained(vq, base) && WellPlaced(p, From(vq, base, |vq|))
    ensures Chained(vq + [p], base) && From(vq + [p], base, |vq| + 1) == End(p)
  {
    hide WellPlaced, End;
    assert forall k :: 0 <= k <= |vq| ==> From(vq + [p], base, k) == From(vq, base, k);
  }

  lemma EndsAfter(p: Placed, from: nat)
    requires WellPlaced(p, from)
    ensures from <= p.desc <= p.avail <= p.used <= End(p)
  {
  }

  /** Different queues have no byte in common, and all lie between the base and
      the end of the last. */
  lemma {:induction false} QueuesApart(vq: seq<Placed>, base: nat, i: nat, j: nat)
    requires Chained(vq, base) && i <= j < |vq|
    ensures base <= vq[i].desc && End(vq[i]) <= End(vq[j])
    ensures i < j ==> End(vq[i]) <= vq[j].desc
    decreases j
  {
    hide WellPlaced, End;
    EndsAfter(vq[j], From(vq, base, j));
    if i < j {
      QueuesApart(vq, base, i, j - 1);
    } else if j > 0 {
      QueuesApart(vq, base, j - 1, j - 1);
      EndsAfter(vq[j - 1], From(vq, base, j - 1));
    }
  }

  // ----- the RISC-V network driver's one allocation -----

  const HDR_BYTES: nat := 12           // sizeof(struct VirtnetHdr)
  const ETH_FRAME_LEN: nat := 1514
  const RXBUF_ALIGN: nat := 4
  const RX_QSZ: uint16 := 16
  const TX_QSZ: uint16 := 32

  function RxBufSize(): nat {
    Align4(HDR_BYTES + ETH_FRAME_LEN)
  }

  /** `ConfigQueue`: the size allocated. */
  function NetSize(): nat {
    VirtqSize(RX_QSZ) + VirtqSize(TX_QSZ) + RXBUF_ALIGN - 1 + RX_QSZ * RxBufSize()
  }

  /** `ConfigQueue` and the address loop of `ConfigRxBuffer`: both queues and the
      receive buffers lie in the allocation without overlap, and the stack's view
      of each packet, `ethPad` bytes before it, is 4-byte aligned. */
  method PlaceNet(base: nat, ethPad: nat) returns (vq: seq<Placed>, bufs: seq<nat>)
    requires ethPad <= 12
    ensures |vq| == 2 && Chained(vq, base) && vq[0].qsz == 16 && vq[1].qsz == 32
    ensures |bufs| == 16 && forall i :: 0 <= i < 16 ==> (bufs[i] + 12 - ethPad) % 4 == 0
    ensures forall i :: 0 <= i < 16 ==> End(vq[1]) <= bufs[i] && bufs[i] + 12 + 1514 <= base + 25745
    ensures End(vq[1]) <= bufs[0] < End(vq[1]) + 4 && forall i :: 0 <= i < 16 ==> bufs[i] == bufs[0] + 1528 * i
  {
    hide Chained, PlacedAt, WellPlaced;
    KnownSizes();
    var buf;
    vq, buf := PlaceQueues(base, [RX_QSZ, TX_QSZ]);
    PlacedSize(vq[0], From(vq, base, 0), 16);
    PlacedSize(vq[1], From(vq, base, 1), 32);
    assert [RX_QSZ, TX_QSZ][..1] == [RX_QSZ] && [RX_QSZ][..0] == [];
    assert Estimate([RX_QSZ, TX_QSZ]) == Estimate([RX_QSZ]) + VirtqSize(TX_QSZ);
    assert Estimate([RX_QSZ]) == Estimate([]) + VirtqSize(RX_QSZ);
    var pad := (buf + HDR_BYTES - ethPad) % RXBUF_ALIGN;
    if pad != 0 {
      pad := RXBUF_ALIGN - pad;
    }
    buf := buf + pad;
    assert (buf + HDR_BYTES - ethPad) % 4 == 0;
    bufs := PlaceBuffers(buf);
    forall i | 0 <= i < RX_QSZ ensures (bufs[i] + HDR_BYTES - ethPad) % 4 == 0 {
      assert bufs[i] == buf + 4 * (382 * i);
      StepAligned(buf + HDR_BYTES - ethPad, 382 * i);
    }
  }

  lemma StepAligned(x: int, k: int)
    requires x % 4 == 0
    ensures (x + 4 * k) % 4 == 0
  {
    assert x + 4 * k == 4 * (x / 4 + k);
  }

  /** `ConfigQueue` of the ARM driver, which aligns the base itself: both queues
      fit behind the `header` bytes of the driver's own structure. */
  method PlaceArmNet(nic: nat, header: nat) returns (vq: seq<Placed>, base: nat)
    ensures nic + header <= base < nic + header + 16 && base % 16 == 0 && |vq| == 2 && Chained(vq, base)
    ensures vq[0].qsz == 16 && vq[1].qsz == 32 && End(vq[1]) <= nic + header + 439 + 855
  {
    hide Chained, PlacedAt, WellPlaced;
    KnownSizes();
    base := Align16(nic + header);
    var end;
    vq, end := PlaceQueues(base, [RX_QSZ, TX_QSZ]);
    PlacedSize(vq[0], From(vq, base, 0), 16);
    PlacedSize(vq[1], From(vq, base, 1), 32);
    assert [RX_QSZ, TX_QSZ][..1] == [RX_QSZ] && [RX_QSZ][..0] == [];
    assert Estimate([RX_QSZ, TX_QSZ]) == Estimate([RX_QSZ]) + VirtqSize(TX_QSZ);
    assert Estimate([RX_QSZ]) == Estimate([]) + VirtqSize(RX_QSZ);
  }

  /** The loop over `paddr`. */
  method PlaceBuffers(buf: nat) returns (bufs: seq<nat>)
    ensures |bufs| == RX_QSZ && forall i :: 0 <= i < RX_QSZ ==> bufs[i] == buf + 1528 * i
  {
    assert RxBufSize() == 1528;
    bufs := [];
    var i, paddr := 0, buf;
    while i < RX_QSZ
      invariant 0 <= i <= RX_QSZ && |bufs| == i && paddr == buf + 1528 * i
      invariant forall k :: 0 <= k < i ==> bufs[k] == buf + 1528 * k
    {
      bufs := bufs + [paddr];
      paddr := paddr + RxBufSize();
      i := i + 1;
    }
  }
}
