/** Initialising a virtio-mmio network device (VIRTIO 1.1 sections 2.1, 2.4 and
    3.1.1), against every behaviour of the device.

    The device answers each register read with the next value of a script.  The
    script is arbitrary, and when it is used up the run is cut off where it is;
    so what is proved of the accesses made holds at every moment of every run,
    including runs that poll the device for ever. */
module InitHandshake {

  import opened InitRules
  import opened ConfigWindow
  import opened InitOutcome
  import QueueLayout
  import opened QueueWords

  // ----- how a status access moves the monitor -----

  predicate MaySet(m: Monitor, f: Flag) {
    && m.ok && m.begun
    && (f == DRIVER ==> m.hello > 0) && (f == FEATURES_OK ==> m.Both())
    && (f == DRIVER_OK ==> m.accepted && m.ready0 && m.ready1 && !m.failed)
    && (f == FAILED ==> !m.driverOk)
  }

  /** Only what depends on the status has changed, and nothing was taken back;
      the flags have been set at most if `d` or `x` says so. */
  predicate StatusOnly(m: Monitor, n: Monitor, d: bool, x: bool) {
    && n == m.(hello := n.hello, statusRead := n.statusRead, status := n.status, claimed := n.claimed,
               accepted := n.accepted, driverOk := n.driverOk, failed := n.failed)
    && m.hello <= n.hello && (m.claimed ==> n.claimed) && (m.accepted ==> n.accepted)
    && (m.driverOk ==> n.driverOk) && (m.failed ==> n.failed)
    && (n.claimed ==> m.claimed || m.Both())
    && (n.accepted ==> m.accepted || m.claimed)
    && (n.driverOk ==> m.driverOk || d) && (n.failed ==> m.failed || x)
  }

  function AfterRead(m: Monitor, v: Word): Monitor {
    Note(m, Read(Status, v)).(ok := true)
  }

  function AfterAdd(m: Monitor, v: Word, f: Flag): Monitor {
    Note(AfterRead(m, v), Write(Status, With(v, f))).(ok := true)
  }

  lemma SameStatus(m: Monitor, d: bool, x: bool)
    ensures StatusOnly(m, m, d, x)
  {
  }

  lemma OrBits(v: bv32, b: bv32, c: bv32)
    ensures b != 0 ==> (v | b) & b != 0
    ensures v & !(v | b) == 0
    ensures b & c == 0 ==> (v | b) & c == v & c
  {
  }

  /** Setting one flag adds that flag and no other. */
  lemma OneBit(v: Word, f: Flag, g: Flag)
    ensures Has(With(v, f), f) && Subset(v, With(v, f))
    ensures g != f ==> !Adds(v, With(v, f), g)
  {
    hide Bit, With, Has, Subset;
    Sets(v, f);
    BitsApart(f, g);
    if g != f {
      Leaves(v, f, g);
    }
  }

  lemma Sets(v: Word, f: Flag)
    ensures Has(With(v, f), f) && Subset(v, With(v, f))
  {
    hide Bit;
    BitsApart(f, f);
    OrBits(v.bits, Bit(f), Bit(f));
  }

  lemma Leaves(v: Word, f: Flag, g: Flag)
    requires Bit(f) & Bit(g) == 0
    ensures Has(With(v, f), g) == Has(v, g)
  {
    hide Bit;
    OrBits(v.bits, Bit(f), Bit(g));
  }

  lemma BitsApart(f: Flag, g: Flag)
    ensures Bit(f) != 0 && (g != f ==> Bit(f) & Bit(g) == 0)
  {
  }

  /** Writing `w` over `v` adds `f` at most. */
  ghost predicate AddsOnly(v: Word, w: Word, f: Flag) {
    Subset(v, w) && Has(w, f) && forall g {:trigger Adds(v, w, g)} :: g != f ==> !Adds(v, w, g)
  }

  lemma OnlyOne(v: Word, f: Flag)
    ensures AddsOnly(v, With(v, f), f)
  {
    hide Has, Adds, Subset, With;
    OneBit(v, f, f);
    forall g | g != f ensures !Adds(v, With(v, f), g) {
      OneBit(v, f, g);
    }
  }

  lemma ReadStatusMoves(m: Monitor, v: Word)
    requires m.ok
    ensures StatusOnly(m, AfterRead(m, v), false, false)
    ensures AfterRead(m, v).statusRead && AfterRead(m, v).status == v
    ensures AfterRead(m, v).accepted ==> m.accepted || m.claimed
    ensures AfterRead(m, v).claimed == m.claimed
    ensures m.claimed && Has(v, FEATURES_OK) ==> AfterRead(m, v).accepted
    ensures m.hello >= 2 && Has(v, DRIVER) ==> AfterRead(m, v).hello >= 3
  {
    hide Has, NoteWrite;
  }

  lemma WriteStatusMoves(r: Monitor, w: Word, f: Flag)
    requires MaySet(r, f) && r.statusRead && AddsOnly(r.status, w, f)
    ensures Allowed(r, Write(Status, w))
    ensures StatusOnly(r, Note(r, Write(Status, w)).(ok := true), f == DRIVER_OK, f == FAILED)
    ensures r.Both() && f == FEATURES_OK ==> Note(r, Write(Status, w)).claimed
    ensures f == ACK ==> Note(r, Write(Status, w)).hello >= 1
    ensures f == DRIVER && r.hello >= 1 ==> Note(r, Write(Status, w)).hello >= 2
  {
    hide Has, Adds, Subset, With, NoteRead;
  }

  lemma StatusOnlyTwice(m: Monitor, r: Monitor, n: Monitor, d: bool, x: bool)
    requires StatusOnly(m, r, false, false) && r.claimed == m.claimed && StatusOnly(r, n, d, x)
    requires r.accepted ==> m.accepted || m.claimed
    ensures StatusOnly(m, n, d, x)
  {
  }

  lemma MaySetStill(m: Monitor, r: Monitor, f: Flag)
    requires MaySet(m, f) && StatusOnly(m, r, false, false) && r.ok
    ensures MaySet(r, f) && r.Both() == m.Both()
  {
  }

  lemma AddStatusMoves(m: Monitor, v: Word, f: Flag)
    requires MaySet(m, f)
    ensures Allowed(AfterRead(m, v), Write(Status, With(v, f))) && Has(With(v, f), f)
    ensures StatusOnly(m, AfterAdd(m, v, f), f == DRIVER_OK, f == FAILED)
    ensures f == FEATURES_OK && m.Both() ==> AfterAdd(m, v, f).claimed
    ensures f == ACK ==> AfterAdd(m, v, f).hello >= 1
    ensures f == DRIVER ==> AfterAdd(m, v, f).hello >= 2
  {
    hide Has, Adds, Subset, With, Note, Allowed, StatusOnly, AddsOnly;
    var r := AfterRead(m, v);
    OnlyOne(v, f);
    AddsHas(v, With(v, f), f);
    ReadStatusMoves(m, v);
    HelloGrows(m, r);
    MaySetStill(m, r, f);
    WriteStatusMoves(r, With(v, f), f);
    StatusOnlyTwice(m, r, AfterAdd(m, v, f), f == DRIVER_OK, f == FAILED);
  }

  lemma AddsHas(v: Word, w: Word, f: Flag)
    requires AddsOnly(v, w, f)
    ensures Has(w, f)
  {
    hide Has, Adds, Subset;
  }

  lemma HelloGrows(m: Monitor, n: Monitor)
    requires StatusOnly(m, n, false, false)
    ensures m.hello <= n.hello
  {
  }

  // ----- the phases of the initialisation -----

  /** Initialisation is under way and has not been given up. */
  predicate Quiet(m: Monitor) {
    m.ok && m.begun && !m.driverOk && !m.failed
  }

  /** Nothing has been agreed yet. */
  predicate Starting(m: Monitor) {
    Quiet(m) && !m.claimed && !m.accepted && !m.ready0 && !m.ready1
  }

  /** ... and the device knows the driver. */
  predicate Early(m: Monitor) {
    Starting(m) && m.hello >= 3
  }

  lemma ResetMoves()
    ensures Allowed(Start(), Write(Status, ZERO)) && Starting(Note(Start(), Write(Status, ZERO)).(ok := true))
    ensures Note(Start(), Write(Status, ZERO)).took0.NotYet? && Note(Start(), Write(Status, ZERO)).took1.NotYet?
  {
  }

  lemma StartingSets(m: Monitor, f: Flag)
    requires Starting(m) && f != DRIVER_OK && (f == DRIVER ==> m.hello > 0) && (f == FEATURES_OK ==> m.Both())
    ensures MaySet(m, f)
  {
  }

  /** Before both feature words are written, no status access ends the phase. */
  lemma StillStarting(m: Monitor, n: Monitor)
    requires Starting(m) && !m.Both() && StatusOnly(m, n, false, false)
    ensures Starting(n) && Quiet(n) && n.ok && n.took0 == m.took0 && n.took1 == m.took1 && m.hello <= n.hello
  {
  }

  lemma Greeted(m: Monitor)
    requires Starting(m) && m.hello >= 3
    ensures Early(m)
  {
  }

  function Rest(m: Monitor): Monitor {
    m.(statusRead := false)
  }

  /** Nothing has changed but what the last access was. */
  predicate Unmoved(m: Monitor, n: Monitor) {
    Rest(n) == Rest(m)
  }

  lemma UnmovedTwice(m: Monitor, n: Monitor, o: Monitor)
    requires Unmoved(m, n) && Unmoved(n, o)
    ensures Unmoved(m, o)
  {
    hide Rest;
  }

  lemma Stays(m: Monitor)
    ensures Unmoved(m, m)
  {
    hide Rest;
  }

  lemma ReadMoves(m: Monitor, a: Access)
    requires m.ok && (IsConfigRead(a) || (a.Read? && a.reg == Generation))
    ensures Unmoved(m, Note(m, a).(ok := true))
  {
    hide NoteWrite, Has;
  }

  function Offered(m: Monitor, nth: Word): Word {
    if nth == ZERO then m.offered0 else m.offered1
  }

  function Taking(m: Monitor, nth: Word): Taken {
    if nth == ZERO then m.took0 else m.took1
  }

  function Other(nth: Word): Word {
    if nth == ZERO then ONE else ZERO
  }

  /** What has been offered and taken so far is the same, but for what is
      offered (`o`) or taken (`x`) in word `nth`. */
  predicate SameTerms(m: Monitor, n: Monitor, nth: Word, o: bool, x: bool) {
    && Offered(n, Other(nth)) == Offered(m, Other(nth)) && Taking(n, Other(nth)) == Taking(m, Other(nth))
    && (o || Offered(n, nth) == Offered(m, nth)) && (x || Taking(n, nth) == Taking(m, nth))
  }

  /** What the driver takes in word `nth` is settled. */
  predicate Settled(m: Monitor, nth: Word) {
    Taking(m, nth).Took? && Takes(nth, Offered(m, nth), Taking(m, nth).features)
  }

  lemma SelMoves(m: Monitor, reg: Reg, nth: Word)
    requires Early(m) && (reg == DevFeatureSel || reg == DrvFeatureSel)
    ensures Allowed(m, Write(reg, nth))
    ensures var n := Note(m, Write(reg, nth)).(ok := true);
            && Early(n) && SameTerms(m, n, nth, false, false)
            && (if reg == DevFeatureSel then n.devSel else n.drvSel) == nth
  {
    hide Takes;
  }

  lemma DevFeatureMoves(m: Monitor, nth: Word, v: Word)
    requires Early(m) && m.devSel == nth && (nth == ZERO || nth == ONE)
    ensures var n := Note(m, Read(DevFeature, v)).(ok := true);
            Early(n) && SameTerms(m, n, nth, true, false) && Offered(n, nth) == v
  {
    hide NoteWrite;
  }

  lemma DrvFeatureMoves(m: Monitor, nth: Word, v: Word)
    requires Early(m) && m.drvSel == nth && (nth == ZERO || nth == ONE) && Takes(nth, Offered(m, nth), v)
    ensures Allowed(m, Write(DrvFeature, v))
    ensures var n := Note(m, Write(DrvFeature, v)).(ok := true);
            Early(n) && SameTerms(m, n, nth, false, true) && Settled(n, nth)
  {
    hide NoteRead, Takes, Subset;
    TakesOffered(nth, Offered(m, nth), v);
  }

  lemma EarlyOk(m: Monitor)
    requires Early(m)
    ensures m.ok && Quiet(m) && Starting(m)
  {
  }

  lemma SameTermsNow(m: Monitor, nth: Word)
    ensures SameTerms(m, m, nth, false, false)
  {
    hide Offered, Taking;
  }

  lemma RestKeeps(m: Monitor, nth: Word)
    ensures Rest(m).ok == m.ok && Early(Rest(m)) == Early(m)
    ensures Offered(Rest(m), nth) == Offered(m, nth) && Taking(Rest(m), nth) == Taking(m, nth)
  {
  }

  lemma UnmovedMoves(m: Monitor, n: Monitor, nth: Word)
    requires Unmoved(m, n)
    ensures n.ok == m.ok && (Early(m) ==> Early(n)) && SameTerms(m, n, nth, false, false)
  {
    hide Rest, Early, Offered, Taking, Other;
    RestKeeps(m, nth);
    RestKeeps(n, nth);
    RestKeeps(m, Other(nth));
    RestKeeps(n, Other(nth));
  }

  lemma OfferStands(m: Monitor, n: Monitor, nth: Word, x: bool)
    requires SameTerms(m, n, nth, false, x)
    ensures Offered(n, nth) == Offered(m, nth)
  {
    hide Offered, Taking;
  }

  lemma TermsTwice(m: Monitor, n: Monitor, k: Monitor, nth: Word, o: bool, x: bool, p: bool, y: bool)
    requires SameTerms(m, n, nth, o, x) && SameTerms(n, k, nth, p, y)
    ensures SameTerms(m, k, nth, o || p, x || y)
  {
    hide Offered, Taking;
  }

  /** What the driver takes is settled in both words. */
  predicate Bargain(m: Monitor) {
    Settled(m, ZERO) && Settled(m, ONE)
  }

  lemma BargainMade(m: Monitor, n: Monitor)
    requires Settled(m, ZERO) && SameTerms(m, n, ONE, true, true) && Settled(n, ONE)
    ensures Bargain(n) && n.Both() && Offered(n, ZERO) == Offered(m, ZERO)
  {
    hide Takes;
  }

  lemma StatusKeeps(m: Monitor, n: Monitor, d: bool, x: bool)
    requires StatusOnly(m, n, d, x)
    ensures n.ok == m.ok && n.begun == m.begun && n.Both() == m.Both() && n.ready0 == m.ready0 && n.ready1 == m.ready1
    ensures m.accepted ==> n.accepted
    ensures !d ==> n.driverOk == m.driverOk
    ensures !x ==> n.failed == m.failed
    ensures Quiet(m) && !d && !x ==> Quiet(n)
    ensures Bargain(n) == Bargain(m) && Offered(n, ZERO) == Offered(m, ZERO)
  {
    hide Takes;
  }

  /** The features have been accepted. */
  predicate Agreed(m: Monitor) {
    Quiet(m) && m.accepted
  }

  function Front(m: Monitor): Monitor {
    m.(statusRead := false, queueSel := ZERO, setup := 0, numMax := ZERO, ready0 := false, ready1 := false)
  }

  /** Queue `queue` is being set up and has come `k` steps. */
  predicate AtSetup(m0: Monitor, m: Monitor, queue: Word, k: nat) {
    && Agreed(m) && Front(m) == Front(m0) && m.queueSel == queue && m.setup == k
    && m.ready0 == m0.ready0 && m.ready1 == m0.ready1
  }

  /** From access `at` on, queue `queue` is selected, given its size, and given
      the first `parts` parts of its addresses. */
  predicate QueueWritten(log: seq<Access>, at: nat, queue: Word, qsz: Word, addr: seq<Word>, parts: nat) {
    && at + 4 + parts <= |log| && parts <= |addr|
    && log[at] == Write(QueueSel, queue) && log[at + 3] == Write(QueueNum, qsz)
    && forall p :: 0 <= p < parts ==> log[at + 4 + p] == Write(QueueAddr(p), addr[p])
  }

  lemma QueueStarts(log: seq<Access>, queue: Word, a: Access, b: Access, qsz: Word, addr: seq<Word>)
    ensures QueueWritten(log + [Write(QueueSel, queue)] + [a] + [b] + [Write(QueueNum, qsz)], |log|, queue, qsz,
                         addr, 0)
  {
  }

  lemma QueueNext(log: seq<Access>, at: nat, queue: Word, qsz: Word, addr: seq<Word>, parts: nat)
    requires QueueWritten(log, at, queue, qsz, addr, parts) && parts < |addr| && |log| == at + 4 + parts
    ensures QueueWritten(log + [Write(QueueAddr(parts), addr[parts])], at, queue, qsz, addr, parts + 1)
  {
  }

  lemma QueueStill(log: seq<Access>, log2: seq<Access>, at: nat, queue: Word, qsz: Word, addr: seq<Word>)
    requires QueueWritten(log, at, queue, qsz, addr, |addr|) && log <= log2
    ensures QueueWritten(log2, at, queue, qsz, addr, |addr|)
  {
    forall p | 0 <= p < |addr| ensures log2[at + 4 + p] == Write(QueueAddr(p), addr[p]) {
      assert log[at + 4 + p] == Write(QueueAddr(p), addr[p]);
    }
  }

  const QUEUE_ACCESSES := 5 + ADDR_PARTS

  /** Both queues have been given their sizes and addresses. */
  predicate QueuesWritten(log: seq<Access>, at: nat, qsz: seq<Word>, addr: seq<seq<Word>>)
    requires |qsz| == 2 && |addr| == 2
  {
    && QueueWritten(log, at, ZERO, qsz[0], addr[0], |addr[0]|)
    && QueueWritten(log, at + QUEUE_ACCESSES, ONE, qsz[1], addr[1], |addr[1]|)
  }

  lemma QueuesStill(log: seq<Access>, log2: seq<Access>, at: nat, qsz: seq<Word>, addr: seq<seq<Word>>)
    requires |qsz| == 2 && |addr| == 2 && QueuesWritten(log, at, qsz, addr) && log <= log2
    ensures QueuesWritten(log2, at, qsz, addr)
  {
    hide QueueWritten;
    QueueStill(log, log2, at, ZERO, qsz[0], addr[0]);
    QueueStill(log, log2, at + QUEUE_ACCESSES, ONE, qsz[1], addr[1]);
  }

  type Size = QueueLayout.uint16

  function Sizes(qsz: seq<Size>): (s: seq<Word>)
    requires |qsz| == 2
    ensures |s| == 2
  {
    [ToWord(qsz[0]), ToWord(qsz[1])]
  }

  /** Both queues are where the room from `base` on is laid out for them, and from
      access `at` on the device has been told so. */
  ghost predicate QueuesTold(log: seq<Access>, at: nat, vq: seq<QueueLayout.Placed>, base: nat, qsz: seq<Size>) {
    && |vq| == |qsz| == 2 && QueueLayout.Chained(vq, base)
    && QueueLayout.PlacedAt(vq[0], base, qsz[0])
    && QueueLayout.PlacedAt(vq[1], QueueLayout.End(vq[0]), qsz[1])
    && QueuesWritten(log, at, Sizes(qsz), [Parts(vq[0]), Parts(vq[1])])
  }

  lemma ToldStill(log: seq<Access>, log2: seq<Access>, at: nat, vq: seq<QueueLayout.Placed>, base: nat, qsz: seq<Size>)
    requires QueuesTold(log, at, vq, base, qsz) && log <= log2
    ensures QueuesTold(log2, at, vq, base, qsz)
  {
    hide QueuesWritten, Parts, Sizes, QueueLayout.Chained, QueueLayout.PlacedAt, QueueLayout.End;
    QueuesStill(log, log2, at, Sizes(qsz), [Parts(vq[0]), Parts(vq[1])]);
  }

  lemma PlacedTogether(p0: QueueLayout.Placed, p1: QueueLayout.Placed, base: nat)
    requires QueueLayout.WellPlaced(p0, base) && QueueLayout.WellPlaced(p1, QueueLayout.End(p0))
    ensures QueueLayout.Chained([p0, p1], base)
  {
    hide QueueLayout.WellPlaced, QueueLayout.End;
    var vq := [p0, p1];
    assert QueueLayout.From(vq, base, 0) == base && QueueLayout.From(vq, base, 1) == QueueLayout.End(vq[0]);
  }

  lemma QueueSelMoves(m: Monitor, queue: Word)
    requires Agreed(m)
    ensures Allowed(m, Write(QueueSel, queue)) && AtSetup(m, Note(m, Write(QueueSel, queue)).(ok := true), queue, 0)
  {
  }

  lemma QueueFree(m0: Monitor, m: Monitor, queue: Word)
    requires AtSetup(m0, m, queue, 0)
    ensures AtSetup(m0, Note(m, Read(QueueReady, ZERO)).(ok := true), queue, 1)
  {
  }

  lemma QueueInUse(m0: Monitor, m: Monitor, queue: Word, v: Word)
    requires AtSetup(m0, m, queue, 0)
    ensures Quiet(Note(m, Read(QueueReady, v)).(ok := true))
  {
    hide NoteWrite;
  }

  lemma QueueMaxMoves(m0: Monitor, m: Monitor, queue: Word, v: Word)
    requires AtSetup(m0, m, queue, 1)
    ensures var n := Note(m, Read(QueueNumMax, v)).(ok := true); AtSetup(m0, n, queue, 2) && n.numMax == v
  {
    hide NoteWrite;
  }

  lemma QueueNumMoves(m0: Monitor, m: Monitor, queue: Word, qsz: Word)
    requires AtSetup(m0, m, queue, 2) && AtMost(qsz, m.numMax)
    ensures Allowed(m, Write(QueueNum, qsz)) && AtSetup(m0, Note(m, Write(QueueNum, qsz)).(ok := true), queue, 3)
  {
    hide NoteRead, AtMost;
  }

  lemma QueueAddrMoves(m0: Monitor, m: Monitor, queue: Word, part: nat, v: Word)
    requires AtSetup(m0, m, queue, 3 + part)
    ensures Allowed(m, Write(QueueAddr(part), v))
    ensures AtSetup(m0, Note(m, Write(QueueAddr(part), v)).(ok := true), queue, 3 + part + 1)
  {
    hide NoteRead, AtMost;
  }

  lemma QueueReadyMoves(m0: Monitor, m: Monitor, queue: Word)
    requires AtSetup(m0, m, queue, 3 + ADDR_PARTS) && (queue == ZERO || queue == ONE)
    ensures Allowed(m, Write(QueueReady, ONE))
    ensures var n := Note(m, Write(QueueReady, ONE)).(ok := true);
            Agreed(n) && Front(n) == Front(m0) && Ready(n, queue) && Ready(n, Other(queue)) == Ready(m0, Other(queue))
  {
    hide NoteRead, AtMost;
  }

  lemma FrontKeeps(m: Monitor)
    ensures Bargain(Front(m)) == Bargain(m) && Offered(Front(m), ZERO) == Offered(m, ZERO)
  {
    hide Takes;
  }

  lemma SetupQuiet(m0: Monitor, m: Monitor, queue: Word, k: nat)
    requires AtSetup(m0, m, queue, k)
    ensures m.ok && Quiet(m)
  {
  }

  lemma MayFinish(m: Monitor)
    requires Agreed(m) && Ready(m, ZERO) && Ready(m, ONE)
    ensures MaySet(m, DRIVER_OK)
  {
  }

  lemma MayFail(m: Monitor)
    requires Quiet(m)
    ensures MaySet(m, FAILED)
  {
  }

  /** The driver finished as it should. */
  predicate Finished(m: Monitor) {
    m.accepted && m.ready0 && m.ready1 && !m.failed && Bargain(m)
  }

  // ----- the driver -----

  /** Why initialisation is given up because of what the device answered. */
  datatype Cause = BadMtu | NoMac | NoVersion | Refused | QueueTooSmall(queue: nat)

  /** Access `k` read that the queue `queue`, then selected, has no room for `qsz`. */
  predicate TooSmallAt(log: seq<Access>, k: int, queue: Word, qsz: Word) {
    && 0 <= k < |log| && log[k].Read? && log[k].reg == QueueNumMax && !AtMost(qsz, log[k].val)
    && Observed(log[..k]).queueSel == queue
  }

  /** Access `k` read FEATURES_OK clear after it had been written. */
  predicate RefusedAt(log: seq<Access>, k: int) {
    && 0 <= k < |log| && log[k].Read? && log[k].reg == Status && !Has(log[k].val, FEATURES_OK)
    && Observed(log[..k]).claimed
  }

  /** Access `k` read an offer that lacks feature `f`, in word 0 or another word. */
  predicate LacksAt(log: seq<Access>, k: int, f: Word, first: bool) {
    0 <= k < |log| && log[k].Read? && OfferRead(log, k, log[k].val, first) && !Offers(log[k].val, f)
  }

  /** Access `k` shows the cause. */
  predicate Evidence(log: seq<Access>, k: int, why: Cause, r: Range, qsz: seq<Word>) {
    match why
    case BadMtu => BadMtuAt(log, k, r)
    case NoMac => LacksAt(log, k, F_MAC, true)
    case NoVersion => LacksAt(log, k, F_VERSION_1, false)
    case Refused => RefusedAt(log, k)
    case QueueTooSmall(q) => q < |qsz| && TooSmallAt(log, k, if q == 0 then ZERO else ONE, qsz[q])
  }

  lemma EvidenceStill(log: seq<Access>, log2: seq<Access>, k: int, why: Cause, r: Range, qsz: seq<Word>)
    requires Evidence(log, k, why, r, qsz) && log <= log2
    ensures Evidence(log2, k, why, r, qsz)
  {
    hide Observed, Offers, Has, AtMost, InRange;
    assert log2[k] == log[k] && log2[..k] == log[..k];
  }

  lemma LacksStill(log: seq<Access>, log2: seq<Access>, k: nat, v: Word, f: Word, first: bool)
    requires OfferRead(log, k, v, first) && !Offers(v, f) && log <= log2
    ensures LacksAt(log2, k, f, first)
  {
    hide Observed, Offers;
    assert log2[k] == log[k] && log2[..k] == log[..k];
  }

  lemma OfferNow(log: seq<Access>, v: Word, nth: Word)
    requires Observed(log).devSel == nth
    ensures OfferRead(log + [Read(DevFeature, v)], |log|, v, nth == ZERO)
  {
    hide Observed;
    assert (log + [Read(DevFeature, v)])[..|log|] == log;
  }

  lemma RefusedNow(log: seq<Access>, v: Word)
    requires Observed(log).claimed && !Has(v, FEATURES_OK)
    ensures RefusedAt(log + [Read(Status, v)], |log|)
  {
    hide Observed, Has;
    assert (log + [Read(Status, v)])[..|log|] == log;
  }

  lemma TooSmallNow(m0: Monitor, m: Monitor, log: seq<Access>, queue: Word, qsz: Word, v: Word)
    requires m == Observed(log) && AtSetup(m0, m, queue, 1) && !AtMost(qsz, v)
    ensures TooSmallAt(log + [Read(QueueNumMax, v)], |log|, queue, qsz)
  {
    hide Observed, AtMost;
    assert (log + [Read(QueueNumMax, v)])[..|log|] == log;
  }

  /** The last access found a queue in use. */
  predicate InUseLast(log: seq<Access>) {
    |log| > 0 && log[|log| - 1].Read? && log[|log| - 1].reg == QueueReady && log[|log| - 1].val != ZERO
  }

  /** The callback has a reason to fail: the last access, or the offer. */
  predicate FeatureFails(log: seq<Access>, nth: Word, features: Word, r: Range) {
    if nth == ZERO then BadMtuAt(log, |log| - 1, r) || !Offers(features, F_MAC) else !Offers(features, F_VERSION_1)
  }

  lemma Blame(log: seq<Access>, log2: seq<Access>, nth: Word, features: Word, r: Range) returns (k: nat, why: Cause)
    requires |log| > 0 && OfferRead(log, |log| - 1, features, nth == ZERO) && log <= log2
    requires FeatureFails(log2, nth, features, r)
    ensures Evidence(log2, k, why, r, [])
  {
    hide Offers, OfferRead, LacksAt, BadMtuAt;
    if nth == ZERO && BadMtuAt(log2, |log2| - 1, r) {
      k, why := |log2| - 1, BadMtu;
    } else {
      k, why := |log| - 1, if nth == ZERO then NoMac else NoVersion;
      LacksStill(log, log2, |log| - 1, features, if nth == ZERO then F_MAC else F_VERSION_1, nth == ZERO);
    }
  }

  class VirtnetInit {
    var script: seq<Word>       // what the device will answer
    var log: seq<Access>
    ghost var m: Monitor
    ghost var statuses: seq<Word>      // everything written to the status

    // What the driver keeps.
    var mtu: Word
    var mac: MacAddr
    var vq: seq<QueueLayout.Placed>    // the queues placed so far

    ghost predicate Valid()
      reads `log, `m, `statuses
    {
      m == Observed(log) && m.ok && statuses == StatusWrites(log)
    }

    constructor (answers: seq<Word>)
      ensures Valid() && log == [] && m == Start() && statuses == [] && script == answers
    {
      script, log, m, statuses := answers, [], Start(), [];
      mtu, mac, vq := ZERO, [ZERO, ZERO, ZERO, ZERO, ZERO, ZERO], [];
    }

    /** `GET_UINT32`: false when the run is cut off here. */
    method Get(reg: Reg) returns (on: bool, v: Word)
      requires Valid()
      modifies `script, `log, `m
      ensures Valid() && m.ok && |script| <= old(|script|) && old(log) <= log
      ensures on ==> m == Note(old(m), Read(reg, v)).(ok := true) && log == old(log) + [Read(reg, v)]
      ensures on ==> |old(script)| > 0 && v == old(script)[0] && script == old(script)[1..]
      ensures !on ==> m == old(m) && log == old(log) && |script| == |old(script)| == 0
    {
      hide Note, Observed, StatusWrites;
      if |script| == 0 {
        return false, ZERO;
      }
      on, v := true, script[0];
      script := script[1..];
      ObservedNext(log, Read(reg, v));
      StatusWritesNext(log, Read(reg, v));
      log := log + [Read(reg, v)];
      m := Observe(m, Read(reg, v));
    }

    /** `WRITE_UINT32`. */
    method Put(reg: Reg, v: Word)
      requires Valid() && Allowed(m, Write(reg, v)) && reg != Status
      modifies `log, `m
      ensures Valid() && m.ok && m == Note(old(m), Write(reg, v)).(ok := true)
      ensures log == old(log) + [Write(reg, v)] && old(log) <= log
    {
      hide Note, Observed, Allowed, StatusWrites;
      ObservedNext(log, Write(reg, v));
      StatusWritesNext(log, Write(reg, v));
      log := log + [Write(reg, v)];
      m := Observe(m, Write(reg, v));
    }

    method PutStatus(v: Word)
      requires Valid() && Allowed(m, Write(Status, v))
      modifies `log, `m, `statuses
      ensures Valid() && m.ok && m == Note(old(m), Write(Status, v)).(ok := true)
      ensures log == old(log) + [Write(Status, v)] && old(log) <= log && statuses == old(statuses) + [v]
    {
      hide Note, Observed, Allowed, StatusWrites;
      ObservedNext(log, Write(Status, v));
      StatusWritesNext(log, Write(Status, v));
      log := log + [Write(Status, v)];
      m := Observe(m, Write(Status, v));
      statuses := statuses + [v];
    }

    lemma ObservedIs()
      requires Valid()
      ensures m == Observed(log)
    {
      hide Observed;
    }

    /** `VirtioAddStatus`. */
    method AddStatus(f: Flag) returns (on: bool)
      requires Valid() && MaySet(m, f)
      modifies `script, `log, `m, `statuses
      ensures Valid() && |script| <= old(|script|) && old(log) <= log
      ensures StatusOnly(old(m), m, on && f == DRIVER_OK, on && f == FAILED)
      ensures if on then Has(LastStatus(log), f) else |script| == 0
      ensures on && f == FEATURES_OK && old(m).Both() ==> m.claimed
      ensures on && f == ACK ==> m.hello >= 1
      ensures on && f == DRIVER ==> m.hello >= 2
      ensures script == if |old(script)| == 0 then [] else old(script)[1..]
      ensures on <==> |old(script)| > 0
      ensures statuses == if on then old(statuses) + [With(old(script)[0], f)] else old(statuses)
    {
      hide Or, Any, Note, Observed, Allowed, Has, With, Adds, Subset, LastStatus, Valid, StatusOnly;
      ghost var m0 := m;
      var v;
      on, v := Get(Status);
      if on {
        AddStatusMoves(m0, v, f);
        PutStatus(With(v, f));
        LastIs(log, Write(Status, With(v, f)));
      } else {
        SameStatus(m0, false, false);
      }
    }

    /** `VirtioGetStatus`. */
    method GetStatus() returns (on: bool, v: Word)
      requires Valid() && m.ok
      modifies `script, `log, `m
      ensures Valid() && |script| <= old(|script|) && old(log) <= log
      ensures StatusOnly(old(m), m, false, false) && m.claimed == old(m).claimed
      ensures if on then |script| < old(|script|) && log == old(log) + [Read(Status, v)] else |script| == 0
      ensures on && m.claimed && Has(v, FEATURES_OK) ==> m.accepted
      ensures on && old(m).hello >= 2 && Has(v, DRIVER) ==> m.hello >= 3
      ensures on <==> |old(script)| > 0
      ensures on ==> v == old(script)[0] && script == old(script)[1..]
    {
      hide Or, Any, Note, Observed, Allowed, Has, With, Adds, Subset, LastStatus, Valid, StatusOnly;
      ghost var m0 := m;
      on, v := Get(Status);
      if on {
        ReadStatusMoves(m0, v);
      } else {
        SameStatus(m0, false, false);
      }
    }

    /** `VirtmmioInitBegin`: reset, then ACKNOWLEDGE and DRIVER, until the device
        shows DRIVER. */
    method InitBegin() returns (on: bool)
      requires Valid() && m == Start()
      modifies `script, `log, `m, `statuses
      ensures Valid() && old(log) <= log && Quiet(m)
      ensures if on then Early(m) && m.took0.NotYet? && m.took1.NotYet? else |script| == 0
      ensures End(if on then Go else Cut, script) == Begin(old(script))
      ensures statuses == old(statuses) + BeginWords(old(script))
    {
      hide Or, Any, Note, Observed, Allowed, Has, With, Adds, Subset, LastStatus, Valid, StatusOnly;
      hide Starting, Quiet, Early;
      ResetMoves();
      PutStatus(ZERO);
      ghost var m0 := m;
      StartingSets(m, ACK);
      on := AddStatus(ACK);
      StillStarting(m0, m);
      if on {
        ghost var m1 := m;
        StatusBits(old(script)[0]);
        StartingSets(m, DRIVER);
        on := AddStatus(DRIVER);
        StillStarting(m1, m);
        if on {
          StatusBits(old(script)[1]);
        }
      }
      assert statuses == old(statuses) + BeginWords(old(script));
      var shown := false;
      ghost var a := script;
      assert on ==> a == old(script)[2..];
      while on && !shown
        invariant Valid() && old(log) <= log && m.ok && Starting(m) && Quiet(m) && m.took0.NotYet? && m.took1.NotYet?
        invariant if on then m.hello >= 2 else |script| == 0
        invariant shown ==> m.hello >= 3
        invariant statuses == old(statuses) + BeginWords(old(script))
        invariant !on ==> Begin(old(script)) == CUT
        invariant on ==> Begin(old(script)) == if shown then End(Go, script) else Poll(script)
        decreases |script|, on
      {
        ghost var m1 := m;
        var v;
        on, v := GetStatus();
        StillStarting(m1, m);
        shown := on && Has(v, DRIVER);
      }
      if on {
        Greeted(m);
      }
    }

    /** One read of the configuration space; access `i` was the read of the
        generation before it. */
    method GetConfig(reg: Reg, ghost i: nat) returns (on: bool, v: Word)
      requires Valid() && m.ok && IsConfigRead(Read(reg, ZERO)) && i < |log| && OnlyConfig(log, i, |log|)
      modifies `script, `log, `m
      ensures Valid() && m.ok && |script| <= old(|script|) && old(log) <= log && Unmoved(old(m), m)
      ensures OnlyConfig(log, i, |log|)
      ensures on ==> Gave(log, i, |log|, reg, v) && log[|log| - 1] == Read(reg, v)
      ensures on ==> |old(script)| > 0 && v == old(script)[0] && script == old(script)[1..]
      ensures !on ==> |script| == 0 && |old(script)| == 0
    {
      hide Note, Observed, Valid, OnlyConfig, Gave, Unmoved;
      ghost var m0, log0 := m, log;
      on, v := Get(reg);
      if on {
        ReadMoves(m0, Read(reg, v));
        OnlyConfigNext(log0, i, Read(reg, v));
        GaveNow(log0, i, reg, v);
      } else {
        Stays(m0);
      }
    }

    /** The MTU part of `Feature0`: the configuration field is read for each of
        the two comparisons and again for the assignment. */
    method ReadMtu(ghost i: nat, features: Word, r: Range, dft: Word) returns (s: Step)
      requires Valid() && m.ok && i < |log| && OnlyConfig(log, i, |log|) && Offers(features, F_MTU)
      modifies `script, `log, `m, `mtu
      ensures Valid() && m.ok && |script| <= old(|script|) && old(log) <= log && !s.Halt?
      ensures Unmoved(old(m), m) && OnlyConfig(log, i, |log|)
      ensures s.Go? ==> MtuKept(log, i, |log|, features, mtu, r, dft)
      ensures s.Fail? ==> BadMtuAt(log, |log| - 1, r)
      ensures s.Cut? ==> |script| == 0
      ensures match MtuOf(old(script), r)
              case Kept(v) => s.Go? && mtu == v
              case Rejected => s.Fail?
              case Unfinished => s.Cut?
      ensures End(s, script) == MtuEnd(old(script), r)
    {
      hide Note, Observed, Valid, OnlyConfig, Offers, MtuKept, Gave, AtMost, Unmoved;
      ghost var m0 := m;
      var on, a := GetConfig(Mtu, i);
      if !on { return Cut; }
      if !AtMost(a, r.max) { return Fail; }
      ghost var m1, log1 := m, log;
      var b;
      on, b := GetConfig(Mtu, i);
      UnmovedTwice(m0, m1, m);
      if !on { return Cut; }
      if !AtMost(r.min, b) { return Fail; }
      ghost var m2, log2 := m, log;
      on, mtu := GetConfig(Mtu, i);
      UnmovedTwice(m0, m2, m);
      if !on { return Cut; }
      s := Go;
      GaveStill(log1, log, i, |log1|, |log|, Mtu, a);
      GaveStill(log2, log, i, |log2|, |log|, Mtu, b);
      MtuGot(log, i, |log|, features, mtu, a, b, r, dft);
    }

    /** The address part of `Feature0`. */
    method ReadMac(ghost i: nat) returns (s: Step)
      requires Valid() && m.ok && i < |log| && OnlyConfig(log, i, |log|)
      modifies `script, `log, `m, `mac
      ensures Valid() && m.ok && |script| <= old(|script|) && old(log) <= log && !s.Halt? && !s.Fail?
      ensures Unmoved(old(m), m) && OnlyConfig(log, i, |log|)
      ensures if s.Go? then MacRead(log, i, |log|, mac, MAC_ADDR_SIZE) else |script| == 0
      ensures s.Go? <==> |old(script)| >= MAC_ADDR_SIZE
      ensures s.Go? ==> script == old(script)[MAC_ADDR_SIZE..]
    {
      hide Note, Observed, Valid, OnlyConfig, Gave, Unmoved, MacRead;
      Stays(m);
      NoMacYet(log, i, mac);
      var n := 0;
      while n < MAC_ADDR_SIZE
        invariant 0 <= n <= MAC_ADDR_SIZE
        invariant Valid() && m.ok && |script| <= old(|script|) && old(log) <= log
        invariant Unmoved(old(m), m) && OnlyConfig(log, i, |log|)
        invariant MacRead(log, i, |log|, mac, n)
        invariant n <= |old(script)| && script == old(script)[n..]
      {
        ghost var m1, log1 := m, log;
        var on, v := GetConfig(Mac(n), i);
        UnmovedTwice(old(m), m1, m);
        if !on { return Cut; }
        MacNext(log1, log, i, mac, n, v);
        mac := mac[n := v];
        n := n + 1;
      }
      s := Go;
    }

    /** `Feature0`. */
    method Feature0(ghost i: nat, features: Word, r: Range, dft: Word) returns (s: Step, supported: Word)
      requires Valid() && m.ok && i < |log| && OnlyConfig(log, i, |log|)
      modifies `script, `log, `m, `mtu, `mac
      ensures Valid() && m.ok && |script| <= old(|script|) && old(log) <= log && !s.Halt?
      ensures Unmoved(old(m), m) && OnlyConfig(log, i, |log|)
      ensures s.Go? ==> Takes(ZERO, features, supported)
      ensures s.Go? ==> MtuKept(log, i, |log|, features, mtu, r, dft) && MacRead(log, i, |log|, mac, MAC_ADDR_SIZE)
      ensures s.Go? ==> mtu == CallbackMtu(old(script), features, r, dft)
      ensures s.Fail? ==> BadMtuAt(log, |log| - 1, r) || !Offers(features, F_MAC)
      ensures s.Cut? ==> |script| == 0
      ensures End(s, script) == Callback(old(script), ZERO, features, r)
    {
      hide BadMtuAt;
      hide Note, Observed, Valid, OnlyConfig, Offers, Gave, MacRead, MtuKept, AddFeature, Unmoved;
      Stays(m);
      s, supported := Go, ZERO;
      if Offers(features, F_MTU) {
        s := ReadMtu(i, features, r, dft);
        if !s.Go? { return; }
        supported := AddFeature(supported, F_MTU);
      } else {
        mtu := dft;
        DefaultMtu(log, i, |log|, features, r, dft);
      }
      if !Offers(features, F_MAC) { return Fail, supported; }
      ghost var m0, log0 := m, log;
      s := ReadMac(i);
      UnmovedTwice(old(m), m0, m);
      MtuStill(log0, log, i, |log0|, |log|, features, mtu, r, dft);
      supported := AddFeature(supported, F_MAC);
    }

    /** One read of the configuration generation. */
    method GetGeneration() returns (on: bool, v: Word)
      requires Valid() && m.ok
      modifies `script, `log, `m
      ensures Valid() && m.ok && |script| <= old(|script|) && old(log) <= log && Unmoved(old(m), m)
      ensures on ==> |old(script)| > 0 && v == old(script)[0] && script == old(script)[1..]
      ensures on ==> log == old(log) + [Read(Generation, v)]
      ensures !on ==> |script| == 0 && |old(script)| == 0
    {
      hide Note, Observed, Valid, Unmoved;
      ghost var m0 := m;
      on, v := Get(Generation);
      if on {
        ReadMoves(m0, Read(Generation, v));
      } else {
        Stays(m0);
      }
    }

    /** The callback of `Negotiate`: `Feature0`, or `Feature1`, which reads
        nothing. */
    method Feature(nth: Word, ghost i: nat, features: Word, r: Range, dft: Word) returns (s: Step, supported: Word)
      requires Valid() && m.ok && i < |log| && OnlyConfig(log, i, |log|)
      modifies `script, `log, `m, `mtu, `mac
      ensures Valid() && m.ok && |script| <= old(|script|) && old(log) <= log && !s.Halt?
      ensures Unmoved(old(m), m) && OnlyConfig(log, i, |log|)
      ensures s.Go? ==> Takes(nth, features, supported)
      ensures nth != ZERO ==> mtu == old(mtu) && mac == old(mac)
      ensures s.Go? && nth == ZERO ==> Configured(log, i, features, mtu, mac, r, dft)
      ensures s.Go? && nth == ZERO ==> mtu == CallbackMtu(old(script), features, r, dft)
      ensures s.Fail? ==> FeatureFails(log, nth, features, r)
      ensures s.Cut? ==> |script| == 0
      ensures End(s, script) == Callback(old(script), nth, features, r)
    {
      hide BadMtuAt;
      hide Note, Observed, Valid, OnlyConfig, Offers, Gave, MacRead, MtuKept, AddFeature, Unmoved, Supported0;
      if nth == ZERO {
        s, supported := Feature0(i, features, r, dft);
      } else {
        Stays(m);
        if Offers(features, F_VERSION_1) {
          s, supported := Go, AddFeature(ZERO, F_VERSION_1);
        } else {
          s, supported := Fail, ZERO;
        }
      }
    }

    /** One round of `Negotiate`'s loop: `same` if the generation has not
        changed meanwhile. */
    method Round(nth: Word, features: Word, r: Range, dft: Word)
      returns (s: Step, supported: Word, same: bool, ghost i: nat, ghost j: nat)
      requires Valid() && m.ok
      modifies `script, `log, `m, `mtu, `mac
      ensures Valid() && m.ok && old(log) <= log && !s.Halt?
      ensures Unmoved(old(m), m)
      ensures s.Go? ==> |script| < old(|script|) && Takes(nth, features, supported)
      ensures nth != ZERO ==> mtu == old(mtu) && mac == old(mac)
      ensures s.Go? && same && nth == ZERO ==> Window(log, i, j, features, mtu, mac, r, dft)
      ensures s.Go? && nth == ZERO ==> mtu == RoundMtu(old(script), features, r, dft)
      ensures s.Fail? ==> FeatureFails(log, nth, features, r)
      ensures s.Cut? ==> |script| == 0
      ensures Once(End(s, script), same) == RoundOnce(old(script), nth, features, r)
    {
      hide FeatureFails, Callback, CallbackMtu;
      hide Note, Observed, Valid, OnlyConfig, Gave, Unmoved, Window, Configured, Takes;
      supported, same := ZERO, false;
      i, j := |log|, 0;
      ghost var m0 := m;
      var on, before := GetGeneration();
      if !on { return Cut, supported, same, i, j; }
      NoConfigYet(log, i);
      ghost var m1 := m;
      ghost var log1 := log;
      s, supported := Feature(nth, i, features, r, dft);
      UnmovedTwice(m0, m1, m);
      if !s.Go? { return; }
      ghost var m2 := m;
      ghost var log2 := log;
      j := |log|;
      var after;
      on, after := GetGeneration();
      UnmovedTwice(m0, m2, m);
      if !on { return Cut, supported, same, i, j; }
      same := before == after;
      if same && nth == ZERO {
        SamePlace(log1, log2, i);
        WindowDone(log2, i, Read(Generation, after), features, mtu, mac, r, dft);
      }
    }

    /** The part of `Negotiate` before its loop. */
    method ReadOffer(nth: Word) returns (on: bool, features: Word)
      requires Valid() && Early(m) && (nth == ZERO || nth == ONE)
      modifies `script, `log, `m
      ensures Valid() && m.ok && Early(m) && old(log) <= log
      ensures on ==> SameTerms(old(m), m, nth, true, false) && Offered(m, nth) == features
      ensures if on then |log| > 0 && OfferRead(log, |log| - 1, features, nth == ZERO) else |script| == 0
      ensures on <==> |old(script)| > 0
      ensures on ==> features == old(script)[0] && script == old(script)[1..]
    {
      hide OfferRead;
      hide Note, Observed, Valid, Early, SameTerms, Allowed, Offered;
      ghost var m0 := m;
      SelMoves(m, DevFeatureSel, nth);
      Put(DevFeatureSel, nth);
      ghost var m1, log1 := m, log;
      ObservedIs();
      on, features := Get(DevFeature);
      if on {
        OfferNow(log1, features, nth);
        DevFeatureMoves(m1, nth, features);
        TermsTwice(m0, m1, m, nth, false, false, true, false);
      }
    }

    /** The part of `Negotiate` after its loop. */
    method WriteTaken(nth: Word, supported: Word)
      requires Valid() && Early(m) && (nth == ZERO || nth == ONE) && Takes(nth, Offered(m, nth), supported)
      modifies `log, `m
      ensures Valid() && Early(m) && old(log) <= log
      ensures SameTerms(old(m), m, nth, false, true) && Settled(m, nth)
    {
      hide Note, Observed, Valid, Early, SameTerms, Allowed, Offered, Takes, Settled;
      ghost var m0 := m;
      SelMoves(m, DrvFeatureSel, nth);
      Put(DrvFeatureSel, nth);
      ghost var m1 := m;
      OfferStands(m0, m1, nth, false);
      DrvFeatureMoves(m1, nth, supported);
      Put(DrvFeature, supported);
      TermsTwice(m0, m1, m, nth, false, false, false, true);
    }

    /** `Negotiate`. */
    method Negotiate(nth: Word, r: Range, dft: Word) returns (s: Step, ghost i: nat, ghost j: nat, ghost why: Cause)
      requires Valid() && Early(m) && (nth == ZERO || nth == ONE)
      modifies `script, `log, `m, `mtu, `mac
      ensures Valid() && Early(m) && old(log) <= log && !s.Halt?
      ensures s.Go? ==> SameTerms(old(m), m, nth, true, true) && Settled(m, nth)
      ensures nth != ZERO ==> mtu == old(mtu) && mac == old(mac)
      ensures s.Go? && nth == ZERO ==> Window(log, i, j, Offered(m, nth), mtu, mac, r, dft)
      ensures s.Go? && nth == ZERO ==> mtu == NegotiatedMtu(old(script), r, dft)
      ensures s.Fail? ==> Evidence(log, i, why, r, [])
      ensures s.Cut? ==> |script| == 0
      ensures End(s, script) == Negotiated(old(script), nth, r)
    {
      hide OfferRead, Evidence, FeatureFails, RoundMtu, RoundOnce;
      hide Note, Observed, Valid, Unmoved, Window, Takes, Early, SameTerms, Settled, Allowed, Offered;
      ghost var m0 := m;
      i, j, why := 0, 0, BadMtu;
      var on, features := ReadOffer(nth);
      if !on { return Cut, i, j, why; }
      ghost var log1 := log;
      ghost var m1 := m;
      var supported, same := ZERO, false;
      s := Go;
      SameTermsNow(m, nth);
      while !same
        invariant Valid() && m.ok && Early(m) && old(log) <= log && s.Go?
        invariant SameTerms(m1, m, nth, false, false)
        invariant nth != ZERO ==> mtu == old(mtu) && mac == old(mac)
        invariant log1 <= log && (same ==> Takes(nth, features, supported))
        invariant same && nth == ZERO ==> Window(log, i, j, features, mtu, mac, r, dft)
        invariant nth == ZERO ==>
                    NegotiatedMtu(old(script), r, dft) == if same then mtu else RoundsMtu(script, features, r, dft)
        invariant Negotiated(old(script), nth, r) == if same then End(Go, script) else Rounds(script, nth, features, r)
        decreases |script|
      {
        ghost var m2 := m;
        s, supported, same, i, j := Round(nth, features, r, dft);
        UnmovedMoves(m2, m, nth);
        TermsTwice(m1, m2, m, nth, false, false, false, false);
        if s.Fail? {
          i, why := Blame(log1, log, nth, features, r);
        }
        if !s.Go? { return; }
      }
      ghost var m3, log3 := m, log;
      OfferStands(m1, m3, nth, false);
      WriteTaken(nth, supported);
      OfferStands(m3, m, nth, true);
      TermsTwice(m0, m1, m3, nth, true, false, false, false);
      TermsTwice(m0, m3, m, nth, true, false, false, true);
      if nth == ZERO {
        WindowStill(log3, log, i, j, features, mtu, mac, r, dft);
      }
    }

    /** `VirtmmioNegotiate`. */
    method VirtmmioNegotiate(r: Range, dft: Word) returns (s: Step, ghost i: nat, ghost j: nat, ghost why: Cause)
      requires Valid() && Early(m)
      modifies `script, `log, `m, `mtu, `mac, `statuses
      ensures Valid() && m.ok && Quiet(m) && old(log) <= log && !s.Halt?
      ensures s.Go? ==> Agreed(m) && Bargain(m) && Window(log, i, j, Offered(m, ZERO), mtu, mac, r, dft)
      ensures s.Go? ==> mtu == NegotiatedMtu(old(script), r, dft)
      ensures s.Fail? ==> Evidence(log, i, why, r, [])
      ensures s.Cut? ==> |script| == 0
      ensures End(s, script) == Features(old(script), r)
      ensures statuses == old(statuses) + FeatureWords(old(script), r)
    {
      hide Note, Observed, Valid, Window, Takes, Early, Starting, Quiet, SameTerms, Settled, Allowed, Offered;
      hide Negotiated, NegotiatedMtu;
      hide StatusOnly, Has, With, Or, Any, Bargain, BadMtuAt, LacksAt, RefusedAt;
      s, i, j, why := Negotiate(ZERO, r, dft);
      EarlyOk(m);
      if !s.Go? { return; }
      ghost var m1, log1 := m, log;
      ghost var i1, j1;
      s, i1, j1, why := Negotiate(ONE, r, dft);
      EarlyOk(m);
      if !s.Go? {
        i := i1;
        return;
      }
      BargainMade(m1, m);
      ghost var m2 := m;
      StartingSets(m, FEATURES_OK);
      if |script| > 0 {
        StatusBits(script[0]);
      }
      var on := AddStatus(FEATURES_OK);
      StatusKeeps(m2, m, false, false);
      if !on { return Cut, i, j, why; }
      ghost var m3, log3 := m, log;
      ObservedIs();
      var v;
      on, v := GetStatus();
      StatusKeeps(m3, m, false, false);
      if !on { return Cut, i, j, why; }
      if !Has(v, FEATURES_OK) {
        RefusedNow(log3, v);
        return Fail, |log3|, j, Refused;
      }
      WindowStill(log1, log, i, j, Offered(m, ZERO), mtu, mac, r, dft);
    }

    /** `CompleteConfigQueue`. */
    method CompleteConfigQueue(queue: Word, qsz: Word, addr: seq<Word>) returns (s: Step)
      requires Valid() && Agreed(m) && (queue == ZERO || queue == ONE) && |addr| == ADDR_PARTS
      modifies `script, `log, `m
      ensures Valid() && m.ok && Quiet(m) && old(log) <= log
      ensures s.Go? ==> Agreed(m) && Front(m) == Front(old(m))
      ensures s.Go? ==> Ready(m, queue) && Ready(m, Other(queue)) == Ready(old(m), Other(queue))
      ensures s.Go? ==> |log| == old(|log|) + QUEUE_ACCESSES
                        && QueueWritten(log, old(|log|), queue, qsz, addr, ADDR_PARTS)
      ensures s.Fail? ==> TooSmallAt(log, |log| - 1, queue, qsz)
      ensures s.Halt? ==> InUseLast(log)
      ensures s.Cut? ==> |script| == 0
      ensures End(s, script) == Queue(old(script), qsz)
    {
      hide Note, Observed, Valid, Quiet, Allowed, AtSetup, Front, Ready, AtMost, QueueWritten, TooSmallAt, InUseLast;
      hide Queue;
      ghost var m0 := m;
      s := SelectQueue(queue, qsz, addr);
      if !s.Go? { return; }
      var part := 0;
      while part < ADDR_PARTS
        invariant 0 <= part <= ADDR_PARTS && Valid() && m.ok && old(log) <= log
        invariant AtSetup(m0, m, queue, 3 + part) && End(Go, script) == Queue(old(script), qsz)
        invariant |log| == old(|log|) + 4 + part && QueueWritten(log, old(|log|), queue, qsz, addr, part)
      {
        QueueAddrMoves(m0, m, queue, part, addr[part]);
        QueueNext(log, old(|log|), queue, qsz, addr, part);
        Put(QueueAddr(part), addr[part]);
        part := part + 1;
      }
      QueueReadyMoves(m0, m, queue);
      ghost var log1 := log;
      Put(QueueReady, ONE);
      QueueStill(log1, log, old(|log|), queue, qsz, addr);
    }

    /** `CompleteConfigQueue`, up to the size of the queue. */
    method SelectQueue(queue: Word, qsz: Word, ghost addr: seq<Word>) returns (s: Step)
      requires Valid() && Agreed(m) && (queue == ZERO || queue == ONE)
      modifies `script, `log, `m
      ensures Valid() && m.ok && Quiet(m) && old(log) <= log
      ensures s.Go? ==> AtSetup(old(m), m, queue, 3)
      ensures s.Go? ==> |log| == old(|log|) + 4 && QueueWritten(log, old(|log|), queue, qsz, addr, 0)
      ensures s.Fail? ==> TooSmallAt(log, |log| - 1, queue, qsz)
      ensures s.Halt? ==> InUseLast(log)
      ensures s.Cut? ==> |script| == 0
      ensures End(s, script) == Queue(old(script), qsz)
    {
      hide Note, Observed, Valid, Quiet, Allowed, AtSetup, Front, Ready, AtMost, QueueWritten, TooSmallAt;
      ghost var m0, log0 := m, log;
      QueueSelMoves(m, queue);
      Put(QueueSel, queue);
      ghost var m1 := m;
      SetupQuiet(m0, m, queue, 0);
      var on, num := Get(QueueReady);
      if !on { return Cut; }
      QueueInUse(m0, m1, queue, num);
      if num != ZERO { return Halt; }
      QueueFree(m0, m1, queue);
      ghost var m2, log2 := m, log;
      ObservedIs();
      var max;
      on, max := Get(QueueNumMax);
      if !on { return Cut; }
      QueueMaxMoves(m0, m2, queue, max);
      SetupQuiet(m0, m, queue, 2);
      if !AtMost(qsz, max) {
        TooSmallNow(m0, m2, log2, queue, qsz, max);
        return Fail;
      }
      QueueNumMoves(m0, m, queue, qsz);
      Put(QueueNum, qsz);
      SetupQuiet(m0, m, queue, 3);
      QueueStarts(log0, queue, Read(QueueReady, num), Read(QueueNumMax, max), qsz, addr);
      s := Go;
    }

    /** `VirtmmioConfigQueue` for the receive and the transmit queue: each is placed
        behind the last, and the device is told where. */
    method VirtmmioConfigQueue(base: nat, qsz: seq<Size>) returns (s: Step, ghost q: nat, end: nat)
      requires Valid() && Agreed(m) && |qsz| == 2
      modifies `script, `log, `m, `vq
      ensures Valid() && m.ok && Quiet(m) && old(log) <= log
      ensures s.Go? ==> Agreed(m) && Ready(m, ZERO) && Ready(m, ONE) && Front(m) == Front(old(m))
      ensures s.Go? ==> QueuesTold(log, old(|log|), vq, base, qsz) && end == QueueLayout.End(vq[1])
      ensures s.Fail? ==> q < 2 && TooSmallAt(log, |log| - 1, if q == 0 then ZERO else ONE, Sizes(qsz)[q])
      ensures s.Halt? ==> InUseLast(log)
      ensures s.Cut? ==> |script| == 0
      ensures End(s, script) == Queues(old(script), Sizes(qsz))
    {
      hide Note, Observed, Valid, Quiet, Front, Ready, QueueWritten, TooSmallAt, InUseLast;
      hide Queue, Parts, ToWord, QueueLayout.WellPlaced, QueueLayout.Chained, QueueLayout.End, QueueLayout.VirtqSize;
      q := 0;
      var p0;
      p0, end := QueueLayout.CalculateQueueAddr(base, qsz[0]);
      vq := [p0];
      s := CompleteConfigQueue(ZERO, ToWord(p0.qsz), Parts(p0));
      if s.Go? {
        q := 1;
        ghost var log1 := log;
        var p1;
        p1, end := QueueLayout.CalculateQueueAddr(end, qsz[1]);
        vq := [p0, p1];
        s := CompleteConfigQueue(ONE, ToWord(p1.qsz), Parts(p1));
        QueueStill(log1, log, old(|log|), ZERO, ToWord(p0.qsz), Parts(p0));
        PlacedTogether(p0, p1, base);
      }
    }

    /** `VirtmmioInitFailed`. */
    method InitFailed() returns (s: Step)
      requires Valid() && Quiet(m)
      modifies `script, `log, `m, `statuses
      ensures Valid() && old(log) <= log && !m.driverOk && (s.Fail? || s.Cut?)
      ensures if s.Fail? then Has(LastStatus(log), FAILED) else |script| == 0
      ensures End(s, script) == Reported(End(Fail, old(script)))
      ensures statuses == old(statuses) + LastWords(End(Fail, old(script)))
      ensures s.Fail? ==> Any(LastStatus(log), 128)
    {
      hide Note, Observed, Valid, Has, With, Or, Any, LastStatus, StatusOnly;
      ghost var m0 := m;
      MayFail(m);
      if |script| > 0 {
        StatusBits(script[0]);
      }
      var on := AddStatus(FAILED);
      StatusBits(LastStatus(log));
      StatusKeeps(m0, m, false, on);
      s := if on then Fail else Cut;
    }

    /** The parts of `VirtnetInit` before it reports to the device. */
    method TryInit(r: Range, dft: Word, behind: nat, qsz: seq<Size>, granted: bool)
      returns (s: Step, ghost i: nat, ghost j: nat, ghost at: nat, ghost why: Cause)
      requires Valid() && m == Start() && |qsz| == 2
      modifies `script, `log, `m, `mtu, `mac, `vq, `statuses
      ensures Valid() && old(log) <= log
      ensures s.Go? ==> Agreed(m) && Ready(m, ZERO) && Ready(m, ONE) && Bargain(m) && granted
      ensures s.Go? ==> Window(log, i, j, m.offered0, mtu, mac, r, dft) && mtu == KeptMtu(old(script), r, dft)
      ensures s.Go? ==> QueuesTold(log, at, vq, QueueLayout.Align16(behind), qsz)
      ensures !s.Go? ==> Quiet(m)
      ensures s.Fail? ==> !granted || Evidence(log, i, why, r, Sizes(qsz))
      ensures s.Halt? ==> InUseLast(log)
      ensures s.Cut? ==> |script| == 0
      ensures End(s, script) == Tried(old(script), r, Sizes(qsz), granted)
      ensures statuses == old(statuses) + TriedWords(old(script), r)
    {
      hide Note, Observed, Valid, Window, Takes, Early, Settled, Allowed, StatusOnly, Has, With, Or, Any;
      hide Bargain, Front;
      hide Begin, Features, Queues, BeginWords, FeatureWords, Ready;
      hide LastStatus, QueuesTold, Evidence, TooSmallAt, InUseLast, Sizes, NegotiatedMtu;
      WordsJoin(statuses, script, r);
      s, i, j, at, why := Cut, 0, 0, 0, BadMtu;
      var on := InitBegin();
      if !on { return; }
      s, i, j, why := VirtmmioNegotiate(r, dft);
      ghost var m1 := m;
      at := |log|;
      if s.Fail? {
        AnyQueues(log, i, why, r, Sizes(qsz));
      } else if s.Go? {
        ghost var q, log1 := 0, log;
        var end;
        s, q, end := VirtmmioConfigQueue(QueueLayout.Align16(behind), qsz);
        FrontKeeps(m1);
        FrontKeeps(m);
        if s.Fail? {
          TooSmallShows(log, |log| - 1, q, r, Sizes(qsz));
          i, why := |log| - 1, QueueTooSmall(q);
        } else if s.Go? {
          WindowStill(log1, log, i, j, m1.offered0, mtu, mac, r, dft);
        }
      }
      if s.Go? && !granted {
        s := Fail;
      }
    }

    /** `VirtnetInit`, from the reset of the device: `lockOk` and `irqOk` say
        whether the spin lock and the interrupt could be set up.  However the
        device answers, all the rules are kept to the end of the run.  Success
        means that the device has been told so after all that must come before;
        failure, which has a cause, that it has been told so instead.  The only
        other ends are a queue found in use and a device that stops answering.
        `behind` is the first address behind the driver's own structure. */
    method VirtnetInit(r: Range, dft: Word, behind: nat, qsz: seq<Size>, lockOk: bool, irqOk: bool)
      returns (s: Step, ghost i: nat, ghost j: nat, ghost at: nat, ghost why: Cause)
      requires Valid() && m == Start() && |qsz| == 2
      modifies `script, `log, `m, `mtu, `mac, `vq, `statuses
      ensures Valid() && old(log) <= log
      ensures s.Go? ==> Has(LastStatus(log), DRIVER_OK) && Finished(m)
      ensures s.Go? ==> Window(log, i, j, m.offered0, mtu, mac, r, dft)
      ensures s.Go? ==> mtu == KeptMtu(old(script), r, dft)
      ensures s.Go? ==> QueuesTold(log, at, vq, QueueLayout.Align16(behind), qsz)
      ensures s.Go? ==> lockOk && irqOk
      ensures !s.Go? ==> !m.driverOk
      ensures s.Fail? ==> Has(LastStatus(log), FAILED)
      ensures s.Fail? ==> !lockOk || !irqOk || Evidence(log, i, why, r, Sizes(qsz))
      ensures s.Halt? ==> InUseLast(log)
      ensures s.Cut? ==> |script| == 0
      ensures End(s, script) == Ends(old(script), r, Sizes(qsz), lockOk && irqOk)
      ensures statuses == old(statuses) + StatusWords(old(script), r, Sizes(qsz), lockOk && irqOk)
      ensures s.Go? ==> Any(LastStatus(log), 4)
      ensures s.Fail? ==> Any(LastStatus(log), 128)
    {
      hide Note, Observed, Valid, Window, Takes, Settled, Allowed, StatusOnly, Has, With, Or, Any, Bargain;
      hide Tried, TriedWords, KeptMtu, LastStatus, QueuesTold, Evidence, InUseLast, Sizes;
      s, i, j, at, why := TryInit(r, dft, behind, qsz, lockOk && irqOk);
      assert statuses + [] == statuses;
      ghost var m2, log2 := m, log;
      if s.Fail? {
        s := InitFailed();
        if lockOk && irqOk {
          EvidenceStill(log2, log, i, why, r, Sizes(qsz));
        }
      } else if s.Go? {
        MayFinish(m);
        if |script| > 0 {
          StatusBits(script[0]);
        }
        var on := AddStatus(DRIVER_OK);
        StatusKeeps(m2, m, on, false);
        StatusBits(LastStatus(log));
        if !on { return Cut, i, j, at, why; }
        ToldStill(log2, log, at, vq, QueueLayout.Align16(behind), qsz);
        WindowStill(log2, log, i, j, m2.offered0, mtu, mac, r, dft);
      }
    }
  }

  lemma WordsJoin(before: seq<Word>, a: seq<Word>, r: Range)
    ensures var b, f := BeginWords(a), FeatureWords(Begin(a).rest, r);
            && before + TriedWords(a, r) == (if Begin(a).s.Go? then before + b + f else before + b)
  {
    hide Begin, BeginWords, FeatureWords;
    var b, f := BeginWords(a), FeatureWords(Begin(a).rest, r);
    assert before + (b + f) == before + b + f;
    assert b + [] == b;
  }

  lemma AnyQueues(log: seq<Access>, k: int, why: Cause, r: Range, qsz: seq<Word>)
    requires Evidence(log, k, why, r, [])
    ensures Evidence(log, k, why, r, qsz)
  {
    hide BadMtuAt, LacksAt, RefusedAt, TooSmallAt;
  }

  lemma TooSmallShows(log: seq<Access>, k: int, q: nat, r: Range, qsz: seq<Word>)
    requires q < 2 == |qsz| && TooSmallAt(log, k, if q == 0 then ZERO else ONE, qsz[q])
    ensures k >= 0 && Evidence(log, k, QueueTooSmall(q), r, qsz)
  {
    hide Observed;
  }

  /** A whole initialisation, from the reset to DRIVER_OK, in which the device
      changes its MTU after the driver has checked it: 9000 is kept where 1500 is
      the most, and the generation does not tell.  The status is written 0, 1, 3, 11
      and 15. */
  method LateChangeRun() returns (s: Step, kept: Word, ghost written: seq<Word>)
    ensures s.Go? && kept == Word(9000) && !InRange(kept, MTU_RANGE)
    ensures written == [Word(0), Word(1), Word(3), Word(11), Word(15)]
  {
    hide *;
    LateBits();
    RoomFor(16);
    RoomFor(32);
    SizesAre(16, 32);
    LateChangeEnds(Sizes([16, 32]), Word(1500));
    var device := new VirtnetInit(LateChange());
    ghost var i, j, at, why;
    s, i, j, at, why := device.VirtnetInit(MTU_RANGE, Word(1500), 0, [16, 32], true, true);
    kept, written := device.mtu, device.statuses;
  }

  lemma RoomFor(n: nat)
    requires n <= 1024
    ensures AtMost(ToWord(n), Word(1024))
  {
    WordBack(n);
    AtMost1024(ToWord(n).bits);
  }

  lemma AtMost1024(b: bv32)
    requires b as nat <= 1024
    ensures b <= 1024
  {
  }

  lemma SizesAre(n: Size, k: Size)
    ensures Sizes([n, k]) == [ToWord(n), ToWord(k)]
  {
  }
}
