/** The rules of initialising a virtio device (VIRTIO 1.1 sections 2.1, 3.1.1 and
    4.2.3.2), as an observer of the register accesses checks them, and what a
    log of accesses that breaks none of them looks like. */
module InitRules {
  /** The value of a 32-bit register. */
  datatype Word = Word(bits: bv32)

  const ZERO := Word(0)
  const ONE := Word(1)

  predicate Zero(w: Word) {
    w == ZERO
  }

  predicate One(w: Word) {
    w == ONE
  }

  /** Bits of the status register. */
  datatype Flag = ACK | DRIVER | DRIVER_OK | FEATURES_OK | FAILED

  function Bit(f: Flag): bv32 {
    match f
    case ACK => 1
    case DRIVER => 2
    case DRIVER_OK => 4
    case FEATURES_OK => 8
    case FAILED => 128
  }

  function With(v: Word, f: Flag): Word {
    Word(v.bits | Bit(f))
  }

  predicate Has(v: Word, f: Flag) {
    v.bits & Bit(f) != 0
  }

  lemma BitValues()
    ensures Bit(ACK) == 1 && Bit(DRIVER) == 2 && Bit(DRIVER_OK) == 4 && Bit(FEATURES_OK) == 8 && Bit(FAILED) == 128
  {
  }

  function Or(v: Word, mask: bv32): Word {
    Word(v.bits | mask)
  }

  /** Some bit of the mask is set. */
  predicate Any(v: Word, mask: bv32) {
    v.bits & mask != 0
  }

  lemma FlagIs(v: Word, f: Flag)
    ensures With(v, f) == Or(v, Bit(f)) && (Has(v, f) <==> Any(v, Bit(f)))
  {
    hide Bit;
  }

  /** The status bits by their values (VIRTIO 1.1 section 2.1). */
  lemma StatusBits(v: Word)
    ensures With(v, ACK) == Or(v, 1) && (Has(v, ACK) <==> Any(v, 1))
    ensures With(v, DRIVER) == Or(v, 2) && (Has(v, DRIVER) <==> Any(v, 2))
    ensures With(v, DRIVER_OK) == Or(v, 4) && (Has(v, DRIVER_OK) <==> Any(v, 4))
    ensures With(v, FEATURES_OK) == Or(v, 8) && (Has(v, FEATURES_OK) <==> Any(v, 8))
    ensures With(v, FAILED) == Or(v, 128) && (Has(v, FAILED) <==> Any(v, 128))
  {
    hide Bit, With, Has, Or, Any;
    BitValues();
    FlagIs(v, ACK);
    FlagIs(v, DRIVER);
    FlagIs(v, DRIVER_OK);
    FlagIs(v, FEATURES_OK);
    FlagIs(v, FAILED);
  }

  const ADDR_PARTS := 6          // two halves for each of three addresses

  const F_MTU := Word(8)        // VIRTIO_NET_F_MTU
  const F_MAC := Word(32)       // VIRTIO_NET_F_MAC
  const F_VERSION_1 := Word(1)

  predicate Offers(features: Word, f: Word) {
    features.bits & f.bits != 0
  }

  function AddFeature(supported: Word, f: Word): Word {
    Word(supported.bits | f.bits)
  }

  /** What the network driver takes of feature word 0. */
  function Supported0(features: Word): Word {
    AddFeature(if Offers(features, F_MTU) then AddFeature(ZERO, F_MTU) else ZERO, F_MAC)
  }

  /** The driver takes `supported`, given what the device offers in word `nth`. */
  predicate Takes(nth: Word, features: Word, supported: Word) {
    if nth == ZERO then Offers(features, F_MAC) && supported == Supported0(features)
    else Offers(features, F_VERSION_1) && supported == AddFeature(ZERO, F_VERSION_1)
  }

  lemma SupportedValues()
    ensures AddFeature(ZERO, F_MAC) == Word(32) && AddFeature(AddFeature(ZERO, F_MTU), F_MAC) == Word(40)
    ensures AddFeature(ZERO, F_VERSION_1) == Word(1)
  {
  }

  lemma OfferIs(features: Word, f: Word)
    ensures Offers(features, f) <==> Any(features, f.bits)
  {
  }

  /** The features by their values (VIRTIO 1.1 sections 5.1.3 and 6): of word 0 the
      driver takes MAC, bit 5, and MTU, bit 3, if it is offered; of word 1 VERSION_1,
      bit 0. */
  lemma TakesBits(features: Word, supported: Word)
    ensures Takes(ZERO, features, supported) <==>
              Any(features, 32) && supported == Word(if Any(features, 8) then 40 else 32)
    ensures Takes(ONE, features, supported) <==> Any(features, 1) && supported == Word(1)
  {
    hide AddFeature, Offers, Any;
    SupportedValues();
    OfferIs(features, F_MTU);
    OfferIs(features, F_MAC);
    OfferIs(features, F_VERSION_1);
  }

  lemma TakesOffered(nth: Word, features: Word, supported: Word)
    requires Takes(nth, features, supported)
    ensures Subset(supported, features)
  {
    hide Offers, AddFeature, Subset;
    NothingOffered(features);
    BitOffered(F_MTU, features);
    BitOffered(F_MAC, features);
    BitOffered(F_VERSION_1, features);
    if Offers(features, F_MTU) {
      SubsetAdd(ZERO, F_MTU, features);
      SubsetAdd(AddFeature(ZERO, F_MTU), F_MAC, features);
    }
    SubsetAdd(ZERO, F_MAC, features);
    SubsetAdd(ZERO, F_VERSION_1, features);
  }

  lemma SingleBit(b: bv32, f: bv32)
    requires b == 8 || b == 32 || b == 1
    ensures f & b != 0 ==> b & !f == 0
  {
  }

  lemma BitOffered(b: Word, f: Word)
    requires b == F_MTU || b == F_MAC || b == F_VERSION_1
    ensures Offers(f, b) ==> Subset(b, f)
  {
    SingleBit(b.bits, f.bits);
  }

  lemma NothingOffered(f: Word)
    ensures Subset(ZERO, f)
  {
  }

  lemma OrSubset(a: bv32, b: bv32, f: bv32)
    ensures a & !f == 0 && b & !f == 0 ==> (a | b) & !f == 0
  {
  }

  lemma SubsetAdd(a: Word, b: Word, f: Word)
    ensures Subset(a, f) && Subset(b, f) ==> Subset(AddFeature(a, b), f)
  {
    OrSubset(a.bits, b.bits, f.bits);
  }

  datatype Reg =
    | Status
    | DevFeatureSel
    | DevFeature
    | DrvFeatureSel
    | DrvFeature
    | Generation
    | Mtu
    | Mac(i: nat)
    | QueueSel
    | QueueReady
    | QueueNumMax
    | QueueNum
    | QueueAddr(part: nat)

  datatype Access = Read(reg: Reg, val: Word) | Write(reg: Reg, val: Word)

  predicate AtMost(a: Word, b: Word) {
    a.bits <= b.bits
  }

  predicate Subset(a: Word, b: Word) {
    a.bits & !b.bits == 0
  }

  // ----- what a run must look like -----

  /** The features the driver has written for one feature word. */
  datatype Taken = NotYet | Took(features: Word)

  /** What an observer of the accesses has to remember. */
  datatype Monitor = Monitor(
    ok: bool,                  // no rule broken so far
    begun: bool,               // the reset has been written
    hello: nat,                // 1: ACKNOWLEDGE written, 2: then DRIVER, 3: DRIVER read back
    statusRead: bool,          // the last access was a read of the status,
    status: Word,              // ... which gave this
    took0: Taken,              // the features the driver has written,
    took1: Taken,              // ... by feature word
    claimed: bool,             // after both, FEATURES_OK has been written
    accepted: bool,            // ... and then read back set
    devSel: Word,
    drvSel: Word,
    offered0: Word,            // what the device offered, by feature word
    offered1: Word,
    queueSel: Word,
    setup: nat,                // how far the selected queue has been set up
    numMax: Word,
    ready0: bool,
    ready1: bool,
    driverOk: bool,            // the driver has set DRIVER_OK
    failed: bool)              // the driver has set FAILED
  {
    predicate Both() { took0.Took? && took1.Took? }
  }

  function Start(): Monitor {
    Monitor(true, false, 0, false, ZERO, NotYet, NotYet, false, false, ZERO, ZERO, ZERO, ZERO, ZERO, 0, ZERO,
            false, false, false, false)
  }

  /** The rules.  A queue is set up in the order of section 4.2.3.2: select it,
      see that it is not in use, read how large it may be, write its size and
      the halves of its three addresses, and only then make it ready. */
  predicate Allowed(m: Monitor, a: Access) {
    match a
    case Read(_, _) => true
    case Write(Status, w) => if m.begun then m.statusRead && StatusWrite(m, w) else Zero(w)
    case Write(DevFeatureSel, _) => true
    case Write(DrvFeatureSel, _) => true
    case Write(DrvFeature, w) =>
      m.hello >= 3 && !m.claimed && Subset(w, if Zero(m.drvSel) then m.offered0 else m.offered1)
    case Write(QueueSel, _) => true
    case Write(QueueNum, w) => m.accepted && !m.driverOk && m.setup == 2 && AtMost(w, m.numMax)
    case Write(QueueAddr(part), _) => m.accepted && !m.driverOk && m.setup == 3 + part
    case Write(QueueReady, w) => m.accepted && !m.driverOk && m.setup == 3 + ADDR_PARTS && One(w)
    case Write(_, _) => false
  }

  /** Bits are only added to the status just read: DRIVER after ACKNOWLEDGE,
      FEATURES_OK after the features, and DRIVER_OK last and never together with
      FAILED. */
  predicate StatusWrite(m: Monitor, w: Word) {
    && Subset(m.status, w)
    && (Adds(m.status, w, DRIVER) ==> m.hello > 0)
    && (Adds(m.status, w, FEATURES_OK) ==> m.Both())
    && (Adds(m.status, w, DRIVER_OK) ==> m.accepted && m.ready0 && m.ready1 && !m.failed)
    && (Adds(m.status, w, FAILED) ==> !m.driverOk)
  }

  /** Writing `w` over `v` sets `f`. */
  predicate Adds(v: Word, w: Word, f: Flag) {
    Has(w, f) && !Has(v, f)
  }

  function Note(m: Monitor, a: Access): (n: Monitor)
    ensures n.statusRead ==> a == Read(Status, n.status)
  {
    var n := m.(statusRead := false);
    match a
    case Read(reg, v) => NoteRead(n, reg, v)
    case Write(reg, w) => NoteWrite(n, reg, w)
  }

  function NoteRead(m: Monitor, reg: Reg, v: Word): (n: Monitor)
    ensures reg != Status ==> n.accepted == m.accepted && n.statusRead == m.statusRead && n.hello == m.hello
    ensures n.claimed == m.claimed && n.begun == m.begun && n.ready0 == m.ready0 && n.ready1 == m.ready1
    ensures n.offered0 == m.offered0 || (reg == DevFeature && Zero(m.devSel) && n.offered0 == v)
    ensures n.offered1 == m.offered1 || (reg == DevFeature && !Zero(m.devSel) && n.offered1 == v)
  {
    match reg
    case Status => NoteStatusRead(m, v)
    case DevFeature => if Zero(m.devSel) then m.(offered0 := v) else m.(offered1 := v)
    case QueueReady => if m.setup == 0 && Zero(v) then m.(setup := 1) else m
    case QueueNumMax => if m.setup == 1 then m.(setup := 2, numMax := v) else m
    case _ => m
  }

  function NoteStatusRead(m: Monitor, v: Word): Monitor {
    m.(statusRead := true, status := v, accepted := m.accepted || (m.claimed && Has(v, FEATURES_OK)),
       hello := if m.hello == 2 && Has(v, DRIVER) then 3 else m.hello)
  }

  lemma StatusReadAccepts(m: Monitor, v: Word)
    ensures NoteStatusRead(m, v).accepted && !m.accepted ==> m.claimed && Has(v, FEATURES_OK)
  {
    hide Has;
  }

  lemma StatusReadGreets(m: Monitor, v: Word)
    ensures var n := NoteStatusRead(m, v); n.hello == m.hello || (m.hello == 2 && n.hello == 3 && Has(v, DRIVER))
  {
    hide Has;
  }

  function NoteWrite(m: Monitor, reg: Reg, w: Word): (n: Monitor)
    ensures reg != Status ==> n.claimed == m.claimed && n.hello == m.hello && n.begun == m.begun
    ensures reg != QueueReady ==> n.ready0 == m.ready0 && n.ready1 == m.ready1
    ensures n.accepted == m.accepted && n.statusRead == m.statusRead
    ensures n.offered0 == m.offered0 && n.offered1 == m.offered1
  {
    match reg
    case Status => NoteStatus(m, w)
    case QueueReady => NoteReady(m)
    case DevFeatureSel => m.(devSel := w)
    case DrvFeatureSel => m.(drvSel := w)
    case DrvFeature => if Zero(m.drvSel) then m.(took0 := Took(w)) else m.(took1 := Took(w))
    case QueueSel => m.(queueSel := w, setup := 0)
    case QueueNum => m.(setup := 3)
    case QueueAddr(_) => m.(setup := m.setup + 1)
    case _ => m
  }

  function NoteStatus(m: Monitor, w: Word): Monitor {
    if !m.begun then m.(begun := true)
    else
      m.(hello := if m.hello < 2 && Has(w, if m.hello == 0 then ACK else DRIVER) then m.hello + 1 else m.hello,
         claimed := m.claimed || (m.Both() && Has(w, FEATURES_OK)),
         driverOk := m.driverOk || Adds(m.status, w, DRIVER_OK),
         failed := m.failed || Adds(m.status, w, FAILED))
  }

  lemma StatusClaims(m: Monitor, w: Word)
    ensures NoteStatus(m, w).claimed && !m.claimed ==> Has(w, FEATURES_OK)
  {
    hide Has, Adds;
  }

  lemma StatusGreets(m: Monitor, w: Word)
    ensures var n := NoteStatus(m, w);
            || n.hello == m.hello
            || (m.hello < 2 && n.hello == m.hello + 1 && Has(w, if m.hello == 0 then ACK else DRIVER))
  {
    hide Has, Adds;
  }

  lemma StatusBegins(m: Monitor, w: Word)
    ensures NoteStatus(m, w).begun
  {
    hide Has, Adds;
  }

  function NoteReady(m: Monitor): (n: Monitor)
    ensures n.ready0 && !m.ready0 ==> Zero(m.queueSel)
    ensures n.ready1 && !m.ready1 ==> One(m.queueSel)
  {
    m.(setup := 0, ready0 := m.ready0 || Zero(m.queueSel), ready1 := m.ready1 || One(m.queueSel))
  }

  function Observe(m: Monitor, a: Access): Monitor {
    Note(m, a).(ok := m.ok && Allowed(m, a))
  }

  function Observed(log: seq<Access>): Monitor {
    if log == [] then Start() else Observe(Observed(log[..|log| - 1]), log[|log| - 1])
  }

  lemma ObservedNext(log: seq<Access>, a: Access)
    ensures Observed(log + [a]) == Observe(Observed(log), a)
  {
    assert (log + [a])[..|log|] == log;
  }

  /** A run that breaks no rule never broke one. */
  lemma {:induction false} OkBefore(log: seq<Access>, n: nat)
    requires Observed(log).ok && n <= |log|
    ensures Observed(log[..n]).ok
  {
    hide Note, Allowed;
    if n < |log| {
      OkBefore(log[..|log| - 1], n);
      assert log[..|log| - 1][..n] == log[..n];
    } else {
      assert log[..n] == log;
    }
  }

  predicate Ready(m: Monitor, queue: Word) {
    if queue == ZERO then m.ready0 else m.ready1
  }

  /** Everything written to the status, in order. */
  function StatusWrites(log: seq<Access>): seq<Word> {
    if log == [] then []
    else StatusWrites(log[..|log| - 1]) + StatusWritten1(log[|log| - 1])
  }

  function StatusWritten1(a: Access): seq<Word> {
    if a.Write? && a.reg == Status then [a.val] else []
  }

  lemma StatusWritesNext(log: seq<Access>, a: Access)
    ensures StatusWrites(log + [a]) == StatusWrites(log) + StatusWritten1(a)
    ensures StatusWritten1(a) == [] ==> StatusWrites(log + [a]) == StatusWrites(log)
  {
    assert (log + [a])[..|log|] == log;
  }

  /** The value of the last access, if it wrote the status. */
  function LastStatus(log: seq<Access>): Word {
    if |log| > 0 && log[|log| - 1].Write? && log[|log| - 1].reg == Status then log[|log| - 1].val else ZERO
  }

  lemma LastIs(log: seq<Access>, a: Access)
    requires |log| > 0 && log[|log| - 1] == a && a.Write? && a.reg == Status
    ensures LastStatus(log) == a.val
  {
  }

  // ----- what the rules say of the accesses themselves -----

  predicate StatusWritten(log: seq<Access>, k: nat) {
    k < |log| && log[k].Write? && log[k].reg == Status
  }

  /** FEATURES_OK is written, or shown by the device, at access `k`. */
  predicate Claims(log: seq<Access>, k: nat) {
    StatusWritten(log, k) && Has(log[k].val, FEATURES_OK)
  }

  predicate Shows(log: seq<Access>, k: nat) {
    k < |log| && log[k].Read? && log[k].reg == Status && Has(log[k].val, FEATURES_OK)
  }

  /** Access `k` makes the queue selected then ready. */
  predicate MakesReady(log: seq<Access>, k: nat, queue: Word) {
    k < |log| && log[k].Write? && log[k].reg == QueueReady && Observed(log[..k]).queueSel == queue
  }

  lemma ObservedLast(log: seq<Access>, k: nat)
    requires k < |log| && Observed(log).ok
    ensures Observed(log[..k]).ok && Allowed(Observed(log[..k]), log[k])
    ensures Observed(log[..k + 1]) == Note(Observed(log[..k]), log[k]).(ok := true)
  {
    hide Note, Allowed;
    OkBefore(log, k);
    OkBefore(log, k + 1);
    assert log[..k + 1][..k] == log[..k];
  }

  lemma ObservedNone(log: seq<Access>)
    ensures Observed(log[..0]) == Start()
  {
  }

  // What one access can change.

  lemma ClaimStep(m: Monitor, a: Access)
    ensures Note(m, a).claimed && !m.claimed ==> a.Write? && a.reg == Status && Has(a.val, FEATURES_OK)
  {
    hide Has, NoteRead, NoteStatus, NoteReady;
    StatusClaims(m.(statusRead := false), a.val);
  }

  lemma AcceptStep(m: Monitor, a: Access)
    ensures Note(m, a).accepted && !m.accepted ==> m.claimed && a.Read? && a.reg == Status && Has(a.val, FEATURES_OK)
  {
    hide Has, NoteStatusRead, NoteWrite;
    StatusReadAccepts(m.(statusRead := false), a.val);
  }

  lemma ReadyStep(m: Monitor, a: Access, queue: Word)
    requires queue == ZERO || queue == ONE
    ensures Ready(Note(m, a), queue) && !Ready(m, queue) ==> a.Write? && a.reg == QueueReady && m.queueSel == queue
  {
    hide Has, NoteRead, NoteStatus, NoteReady;
  }

  lemma BegunStep(m: Monitor, a: Access)
    ensures m.begun || (a.Write? && a.reg == Status) ==> Note(m, a).begun
  {
    hide Has, NoteRead, NoteStatus, NoteReady;
    StatusBegins(m.(statusRead := false), a.val);
  }

  lemma {:induction false} ClaimedMeans(log: seq<Access>, n: nat)
    requires n <= |log| && Observed(log).ok && Observed(log[..n]).claimed
    ensures exists k: nat :: k < n && Claims(log, k)
  {
    hide Has, Allowed, Note, Observed;
    ObservedNone(log);
    if n > 0 {
      ObservedLast(log, n - 1);
      ClaimStep(Observed(log[..n - 1]), log[n - 1]);
      if Observed(log[..n - 1]).claimed {
        ClaimedMeans(log, n - 1);
      } else {
        assert Claims(log, n - 1);
      }
    }
  }

  lemma {:induction false} AcceptedMeans(log: seq<Access>, n: nat)
    requires n <= |log| && Observed(log).ok && Observed(log[..n]).accepted
    ensures exists i: nat, j: nat :: i < j < n && Claims(log, i) && Shows(log, j)
  {
    hide Has, Allowed, Note, Observed;
    ObservedNone(log);
    if n > 0 {
      ObservedLast(log, n - 1);
      AcceptStep(Observed(log[..n - 1]), log[n - 1]);
      if Observed(log[..n - 1]).accepted {
        AcceptedMeans(log, n - 1);
      } else {
        ClaimedMeans(log, n - 1);
        assert Shows(log, n - 1);
      }
    }
  }

  /** A queue is made ready only after FEATURES_OK was written and then read
      back set. */
  lemma ReadyAfterAccepted(log: seq<Access>, k: nat, queue: Word)
    requires Observed(log).ok && MakesReady(log, k, queue)
    ensures exists i: nat, j: nat :: i < j < k && Claims(log, i) && Shows(log, j)
  {
    hide Note, Has;
    ObservedLast(log, k);
    AcceptedMeans(log, k);
  }

  /** A flag is written, or shown by the device, at access `k`. */
  predicate Writes(log: seq<Access>, k: nat, f: Flag) {
    StatusWritten(log, k) && Has(log[k].val, f)
  }

  predicate ShowsDriver(log: seq<Access>, k: nat) {
    k < |log| && log[k].Read? && log[k].reg == Status && Has(log[k].val, DRIVER)
  }

  ghost predicate Acknowledged(log: seq<Access>, n: nat) {
    exists i: nat :: i < n && Writes(log, i, ACK)
  }

  ghost predicate DriverSet(log: seq<Access>, n: nat) {
    exists j: nat :: j < n && Acknowledged(log, j) && Writes(log, j, DRIVER)
  }

  ghost predicate DriverShown(log: seq<Access>, n: nat) {
    exists k: nat :: k < n && DriverSet(log, k) && ShowsDriver(log, k)
  }

  lemma HelloStep(m: Monitor, a: Access)
    ensures var n := Note(m, a);
            n.hello == m.hello || (n.hello == m.hello + 1 <= 3 && a.reg == Status && a.Read? == (m.hello == 2)
                                   && Has(a.val, if m.hello == 0 then ACK else DRIVER))
  {
    hide Has, NoteStatusRead, NoteStatus, NoteReady;
    StatusReadGreets(m.(statusRead := false), a.val);
    StatusGreets(m.(statusRead := false), a.val);
  }

  lemma {:induction false} HelloMeans(log: seq<Access>, n: nat)
    requires n <= |log| && Observed(log).ok
    ensures Observed(log[..n]).hello >= 1 ==> Acknowledged(log, n)
    ensures Observed(log[..n]).hello >= 2 ==> DriverSet(log, n)
    ensures Observed(log[..n]).hello >= 3 ==> DriverShown(log, n)
  {
    hide Has, Allowed, Note, Observed;
    ObservedNone(log);
    if n > 0 {
      ObservedLast(log, n - 1);
      HelloMeans(log, n - 1);
      HelloStep(Observed(log[..n - 1]), log[n - 1]);
      var before, now := Observed(log[..n - 1]).hello, Observed(log[..n]).hello;
      if before == 0 < now {
        assert Writes(log, n - 1, ACK);
      } else if before == 1 < now {
        assert Writes(log, n - 1, DRIVER);
      } else if before == 2 < now {
        assert ShowsDriver(log, n - 1);
      }
    }
  }

  /** Features are written only after ACKNOWLEDGE and then DRIVER were written and
      DRIVER was read back set. */
  lemma GreetedBeforeFeatures(log: seq<Access>, n: nat)
    requires Observed(log).ok && n < |log| && log[n].Write? && log[n].reg == DrvFeature
    ensures exists i: nat, j: nat, k: nat ::
              i < j < k < n && Writes(log, i, ACK) && Writes(log, j, DRIVER) && ShowsDriver(log, k)
  {
    hide Note, Has, Subset, Writes, ShowsDriver;
    ObservedLast(log, n);
    HelloMeans(log, n);
    var k: nat :| k < n && DriverSet(log, k) && ShowsDriver(log, k);
    var j: nat :| j < k && Acknowledged(log, j) && Writes(log, j, DRIVER);
  }

  /** Access `k` reads what the device offers in word 0, or in another word. */
  predicate OfferRead(log: seq<Access>, k: nat, v: Word, first: bool) {
    k < |log| && log[k] == Read(DevFeature, v) && Zero(Observed(log[..k]).devSel) == first
  }

  lemma {:induction false} OfferedMeans(log: seq<Access>, n: nat)
    requires n <= |log| && Observed(log).ok
    ensures var v := Observed(log[..n]).offered0; v == ZERO || exists k: nat :: k < n && OfferRead(log, k, v, true)
    ensures var v := Observed(log[..n]).offered1; v == ZERO || exists k: nat :: k < n && OfferRead(log, k, v, false)
  {
    hide Has, Allowed, NoteRead, NoteWrite, Observed, Zero;
    ObservedNone(log);
    if n > 0 {
      ObservedLast(log, n - 1);
      OfferedMeans(log, n - 1);
      assert log[n - 1].Read? && log[n - 1].reg == DevFeature ==>
               OfferRead(log, n - 1, log[n - 1].val, Zero(Observed(log[..n - 1]).devSel));
    }
  }

  /** Features written are a subset of what was read as offered in that word; of
      nothing, if nothing was. */
  lemma FeaturesOffered(log: seq<Access>, n: nat)
    requires Observed(log).ok && n < |log| && log[n].Write? && log[n].reg == DrvFeature
    ensures exists v :: Subset(log[n].val, v)
              && (v == ZERO || exists k: nat :: k < n && OfferRead(log, k, v, Zero(Observed(log[..n]).drvSel)))
  {
    hide Note, Has, Subset, Zero, OfferRead;
    ObservedLast(log, n);
    OfferedMeans(log, n);
    var m := Observed(log[..n]);
    var v := if Zero(m.drvSel) then m.offered0 else m.offered1;
    assert Subset(log[n].val, v);
  }

  lemma {:induction false} ReadyMeans(log: seq<Access>, n: nat, queue: Word)
    requires n <= |log| && Observed(log).ok && Ready(Observed(log[..n]), queue) && (queue == ZERO || queue == ONE)
    ensures exists k: nat :: k < n && MakesReady(log, k, queue)
  {
    hide Has, Allowed, Note, Observed;
    ObservedNone(log);
    if n > 0 {
      ObservedLast(log, n - 1);
      ReadyStep(Observed(log[..n - 1]), log[n - 1], queue);
      if Ready(Observed(log[..n - 1]), queue) {
        ReadyMeans(log, n - 1, queue);
      } else {
        assert MakesReady(log, n - 1, queue);
      }
    }
  }

  lemma {:induction false} BegunMeans(log: seq<Access>, n: nat, i: nat)
    requires i < n <= |log| && Observed(log).ok && StatusWritten(log, i)
    ensures Observed(log[..n]).begun
  {
    hide Has, Allowed, Note, Observed;
    ObservedLast(log, n - 1);
    BegunStep(Observed(log[..n - 1]), log[n - 1]);
    if i < n - 1 {
      BegunMeans(log, n - 1, i);
    }
  }

  lemma StatusReadMeans(log: seq<Access>, n: nat)
    requires n <= |log| && Observed(log).ok && Observed(log[..n]).statusRead
    ensures n > 0 && log[n - 1] == Read(Status, Observed(log[..n]).status)
  {
    hide Has, Allowed, Note, Observed;
    ObservedNone(log);
    if n > 0 {
      ObservedLast(log, n - 1);
    }
  }

  /** After the first, every write of the status keeps all the bits that the read
      just before it gave. */
  lemma StatusGrows(log: seq<Access>, i: nat, k: nat)
    requires Observed(log).ok && i < k && StatusWritten(log, i) && StatusWritten(log, k)
    ensures log[k - 1].Read? && log[k - 1].reg == Status && Subset(log[k - 1].val, log[k].val)
  {
    hide Note, Has, Subset;
    BegunMeans(log, k, i);
    ObservedLast(log, k);
    StatusReadMeans(log, k);
  }

  /** A write that adds DRIVER_OK comes after both queues were made ready. */
  lemma ReadyBeforeDriverOk(log: seq<Access>, i: nat, k: nat)
    requires Observed(log).ok && i < k && StatusWritten(log, i) && StatusWritten(log, k)
    requires Adds(log[k - 1].val, log[k].val, DRIVER_OK)
    ensures exists a: nat, b: nat :: a < k && b < k && MakesReady(log, a, ZERO) && MakesReady(log, b, ONE)
  {
    hide Note, Has, Subset, Adds;
    BegunMeans(log, k, i);
    ObservedLast(log, k);
    StatusReadMeans(log, k);
    ReadyMeans(log, k, ZERO);
    ReadyMeans(log, k, ONE);
  }
}
