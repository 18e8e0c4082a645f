/** What is known of a configuration read between two reads of one generation
    (VIRTIO 1.1 section 2.4). */
module ConfigWindow {

  import opened InitRules

  const MAC_ADDR_SIZE := 6
  type MacAddr = s: seq<Word> | |s| == MAC_ADDR_SIZE witness [ZERO, ZERO, ZERO, ZERO, ZERO, ZERO]

  predicate IsConfigRead(a: Access) {
    a.Read? && (a.reg.Mtu? || a.reg.Mac?)
  }

  predicate OnlyConfig(log: seq<Access>, i: nat, j: nat) {
    j <= |log| && forall k :: i < k < j ==> IsConfigRead(log[k])
  }

  /** Between accesses `i` and `j`, two reads of one generation, only the
      configuration was read. */
  predicate OneGeneration(log: seq<Access>, i: nat, j: nat) {
    && i < j < |log|
    && log[i].Read? && log[i].reg == Generation && log[j] == log[i]
    && OnlyConfig(log, i, j)
  }

  /** The register gave `v` between accesses `i` and `j`. */
  ghost predicate Gave(log: seq<Access>, i: nat, j: nat, reg: Reg, v: Word) {
    exists k {:trigger log[k]} :: i < k < j && k < |log| && log[k] == Read(reg, v)
  }

  /** The first `n` bytes of the address were read. */
  ghost predicate MacRead(log: seq<Access>, i: nat, j: nat, mac: MacAddr, n: nat) {
    forall x {:trigger mac[x]} :: 0 <= x < n && x < MAC_ADDR_SIZE ==> Gave(log, i, j, Mac(x), mac[x])
  }

  /** The range an MTU must lie in. */
  datatype Range = Range(min: Word, max: Word)

  /** Two readings of the MTU passed the range checks; the third was kept. */
  ghost predicate MtuRead(log: seq<Access>, i: nat, j: nat, mtu: Word, a: Word, b: Word, r: Range) {
    && Gave(log, i, j, Mtu, a) && AtMost(a, r.max) && Gave(log, i, j, Mtu, b) && AtMost(r.min, b)
    && Gave(log, i, j, Mtu, mtu)
  }

  /** The MTU is the device's if it offers one, else the driver's own. */
  ghost predicate MtuKept(log: seq<Access>, i: nat, j: nat, features: Word, mtu: Word, r: Range, dft: Word) {
    if Offers(features, F_MTU) then exists a, b :: MtuRead(log, i, j, mtu, a, b, r) else mtu == dft
  }

  /** A device honours the generation if its MTU does not change under it. */
  ghost predicate Honest(log: seq<Access>, i: nat, j: nat) {
    forall v, w :: Gave(log, i, j, Mtu, v) && Gave(log, i, j, Mtu, w) ==> v == w
  }

  lemma HonestSame(log: seq<Access>, i: nat, j: nat, v: Word, w: Word)
    requires Honest(log, i, j) && Gave(log, i, j, Mtu, v) && Gave(log, i, j, Mtu, w)
    ensures v == w
  {
    hide Gave;
  }

  /** With an honest device the MTU kept is in range, although it is read again
      after it has been checked. */
  lemma KeptMtuInRange(log: seq<Access>, i: nat, j: nat, mtu: Word, a: Word, b: Word, r: Range)
    requires MtuRead(log, i, j, mtu, a, b, r) && Honest(log, i, j)
    ensures InRange(mtu, r)
  {
    hide Gave, Honest, AtMost;
    HonestSame(log, i, j, a, mtu);
    HonestSame(log, i, j, b, mtu);
  }

  predicate InRange(v: Word, r: Range) {
    AtMost(r.min, v) && AtMost(v, r.max)
  }

  /** What becomes of the MTU, given what the device answers from now on. */
  datatype MtuResult = Kept(v: Word) | Rejected | Unfinished

  function MtuOf(answers: seq<Word>, r: Range): MtuResult {
    if |answers| == 0 then Unfinished
    else if !AtMost(answers[0], r.max) then Rejected
    else if |answers| == 1 then Unfinished
    else if !AtMost(r.min, answers[1]) then Rejected
    else if |answers| == 2 then Unfinished
    else Kept(answers[2])
  }

  ghost predicate DrawnFrom(answers: seq<Word>, s: set<Word>) {
    forall k :: 0 <= k < |answers| ==> answers[k] in s
  }

  /** Whatever a device whose MTU readings come from `s` answers, the MTU kept is in
      range, exactly if all its readings are, or one of the checks always fails. */
  lemma MtuInRangeIff(s: set<Word>, r: Range)
    ensures (forall answers :: DrawnFrom(answers, s) && MtuOf(answers, r).Kept? ==> InRange(MtuOf(answers, r).v, r))
            <==> (|| (forall v :: v in s ==> InRange(v, r))
                  || (forall v :: v in s ==> !AtMost(v, r.max))
                  || (forall v :: v in s ==> !AtMost(r.min, v)))
  {
    hide AtMost;
    if a, b, c :| a in s && b in s && c in s && AtMost(a, r.max) && AtMost(r.min, b) && !InRange(c, r) {
      var answers := [a, b, c];
      assert DrawnFrom(answers, s) && MtuOf(answers, r) == Kept(c);
    }
  }

  /** Access `k` read an MTU out of range. */
  predicate BadMtuAt(log: seq<Access>, k: int, r: Range) {
    0 <= k < |log| && log[k].Read? && log[k].reg == Mtu && !InRange(log[k].val, r)
  }

  // What has been read stays read while the log grows.

  lemma GaveNow(log: seq<Access>, i: nat, reg: Reg, v: Word)
    requires i < |log|
    ensures Gave(log + [Read(reg, v)], i, |log| + 1, reg, v)
  {
    assert (log + [Read(reg, v)])[|log|] == Read(reg, v);
  }

  lemma GaveStill(log: seq<Access>, log2: seq<Access>, i: nat, j: nat, j2: nat, reg: Reg, v: Word)
    requires log <= log2 && j <= j2 && Gave(log, i, j, reg, v)
    ensures Gave(log2, i, j2, reg, v)
  {
    var k :| i < k < j && k < |log| && log[k] == Read(reg, v);
    assert log2[k] == log[k];
  }

  lemma MacStill(log: seq<Access>, log2: seq<Access>, i: nat, j: nat, j2: nat, mac: MacAddr, n: nat)
    requires log <= log2 && j <= j2 && MacRead(log, i, j, mac, n)
    ensures MacRead(log2, i, j2, mac, n)
  {
    hide Gave;
    forall x | 0 <= x < n && x < MAC_ADDR_SIZE ensures Gave(log2, i, j2, Mac(x), mac[x]) {
      GaveStill(log, log2, i, j, j2, Mac(x), mac[x]);
    }
  }

  lemma MacNext(log: seq<Access>, log2: seq<Access>, i: nat, mac: MacAddr, n: nat, v: Word)
    requires log <= log2 && n < MAC_ADDR_SIZE && MacRead(log, i, |log|, mac, n) && Gave(log2, i, |log2|, Mac(n), v)
    ensures MacRead(log2, i, |log2|, mac[n := v], n + 1)
  {
    hide Gave;
    forall x | 0 <= x < n ensures Gave(log2, i, |log2|, Mac(x), mac[n := v][x]) {
      GaveStill(log, log2, i, |log|, |log2|, Mac(x), mac[x]);
    }
  }

  lemma MtuStill(log: seq<Access>, log2: seq<Access>, i: nat, j: nat, j2: nat,
                 features: Word, mtu: Word, r: Range, dft: Word)
    requires log <= log2 && j <= j2 && MtuKept(log, i, j, features, mtu, r, dft)
    ensures MtuKept(log2, i, j2, features, mtu, r, dft)
  {
    hide Gave, Offers, AtMost;
    if Offers(features, F_MTU) {
      var a, b :| MtuRead(log, i, j, mtu, a, b, r);
      GaveStill(log, log2, i, j, j2, Mtu, a);
      GaveStill(log, log2, i, j, j2, Mtu, b);
      GaveStill(log, log2, i, j, j2, Mtu, mtu);
      assert MtuRead(log2, i, j2, mtu, a, b, r);
    }
  }

  lemma NoMacYet(log: seq<Access>, i: nat, mac: MacAddr)
    ensures MacRead(log, i, |log|, mac, 0)
  {
  }

  lemma DefaultMtu(log: seq<Access>, i: nat, j: nat, features: Word, r: Range, dft: Word)
    requires !Offers(features, F_MTU)
    ensures MtuKept(log, i, j, features, dft, r, dft)
  {
  }

  lemma MtuGot(log: seq<Access>, i: nat, j: nat, features: Word, mtu: Word, a: Word, b: Word, r: Range, dft: Word)
    requires Offers(features, F_MTU) && MtuRead(log, i, j, mtu, a, b, r)
    ensures MtuKept(log, i, j, features, mtu, r, dft)
  {
  }

  lemma WindowDone(log: seq<Access>, i: nat, a: Access, features: Word, mtu: Word, mac: MacAddr, r: Range, dft: Word)
    requires i < |log| && a.Read? && a.reg == Generation && log[i] == a && OnlyConfig(log, i, |log|)
    requires Configured(log, i, features, mtu, mac, r, dft)
    ensures Window(log + [a], i, |log|, features, mtu, mac, r, dft)
  {
    hide MacRead, MtuKept;
    MacStill(log, log + [a], i, |log|, |log|, mac, MAC_ADDR_SIZE);
    MtuStill(log, log + [a], i, |log|, |log|, features, mtu, r, dft);
  }

  ghost predicate Configured(log: seq<Access>, i: nat, features: Word, mtu: Word, mac: MacAddr, r: Range, dft: Word) {
    MtuKept(log, i, |log|, features, mtu, r, dft) && MacRead(log, i, |log|, mac, MAC_ADDR_SIZE)
  }

  lemma NoConfigYet(log: seq<Access>, i: nat)
    requires i + 1 == |log|
    ensures OnlyConfig(log, i, |log|)
  {
  }

  lemma SamePlace(log: seq<Access>, log2: seq<Access>, i: nat)
    requires log <= log2 && i < |log|
    ensures log2[i] == log[i]
  {
  }

  lemma OnlyConfigNext(log: seq<Access>, i: nat, a: Access)
    requires OnlyConfig(log, i, |log|) && IsConfigRead(a)
    ensures OnlyConfig(log + [a], i, |log| + 1)
  {
  }

  /** All that is known of the configuration kept. */
  ghost predicate Window(log: seq<Access>, i: nat, j: nat, features: Word, mtu: Word, mac: MacAddr, r: Range,
                         dft: Word) {
    && OneGeneration(log, i, j)
    && MacRead(log, i, j, mac, MAC_ADDR_SIZE)
    && MtuKept(log, i, j, features, mtu, r, dft)
  }

  lemma WindowStill(log: seq<Access>, log2: seq<Access>, i: nat, j: nat,
                    features: Word, mtu: Word, mac: MacAddr, r: Range, dft: Word)
    requires log <= log2 && Window(log, i, j, features, mtu, mac, r, dft)
    ensures Window(log2, i, j, features, mtu, mac, r, dft)
  {
    hide MacRead, MtuKept;
    MacStill(log, log2, i, j, j, mac, MAC_ADDR_SIZE);
    MtuStill(log, log2, i, j, j, features, mtu, r, dft);
  }
}
