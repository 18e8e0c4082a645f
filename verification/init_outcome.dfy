/** How initialisation ends, and how many of the device's answers it uses, as a
    function of the answers alone. */
module InitOutcome {

  import opened InitRules
  import opened ConfigWindow

  /** How a step of the initialisation ends: it goes on, it reports failure, an
      assertion of the driver stops the system, or the device stops answering. */
  datatype Step = Go | Fail | Halt | Cut

  datatype End = End(s: Step, rest: seq<Word>)

  const CUT := End(Cut, [])

  /** Polling the status until it shows DRIVER. */
  function Poll(a: seq<Word>): (e: End)
    ensures e.s.Go? || e == CUT
  {
    if |a| == 0 then CUT else if Has(a[0], DRIVER) then End(Go, a[1..]) else Poll(a[1..])
  }

  /** `VirtmmioInitBegin`: two flags are added, each to a status read. */
  function Begin(a: seq<Word>): (e: End)
    ensures e.s.Go? || e == CUT
  {
    if |a| < 2 then CUT else Poll(a[2..])
  }

  /** The callback for feature word `nth`: the MTU, if it is offered, and the
      address. */
  function Callback(a: seq<Word>, nth: Word, features: Word, r: Range): (e: End)
    ensures |e.rest| <= |a| && (e.s.Cut? ==> e == CUT) && !e.s.Halt?
  {
    if nth != ZERO then End(if Offers(features, F_VERSION_1) then Go else Fail, a)
    else
      var e := if Offers(features, F_MTU) then MtuEnd(a, r) else End(Go, a);
      if !e.s.Go? then e
      else if !Offers(features, F_MAC) then End(Fail, e.rest)
      else if |e.rest| < MAC_ADDR_SIZE then CUT
      else End(Go, e.rest[MAC_ADDR_SIZE..])
  }

  function MtuEnd(a: seq<Word>, r: Range): (e: End)
    ensures |e.rest| <= |a| && (e.s.Cut? ==> e == CUT) && !e.s.Halt?
  {
    match MtuOf(a, r)
    case Kept(_) => End(Go, a[3..])
    case Rejected => End(Fail, a[if AtMost(a[0], r.max) then 2 else 1..])
    case Unfinished => CUT
  }

  /** One round of `Negotiate`'s loop. */
  datatype Once = Once(e: End, same: bool)

  function RoundOnce(a: seq<Word>, nth: Word, features: Word, r: Range): (o: Once)
    ensures o.e.s.Go? ==> |o.e.rest| < |a|
    ensures (o.e.s.Cut? ==> o.e == CUT) && !o.e.s.Halt?
  {
    if |a| == 0 then Once(CUT, false)
    else
      var e := Callback(a[1..], nth, features, r);
      if !e.s.Go? then Once(e, false)
      else if |e.rest| == 0 then Once(CUT, false)
      else Once(End(Go, e.rest[1..]), a[0] == e.rest[0])
  }

  function Rounds(a: seq<Word>, nth: Word, features: Word, r: Range): (e: End)
    ensures (e.s.Cut? ==> e == CUT) && !e.s.Halt?
    decreases |a|
  {
    var o := RoundOnce(a, nth, features, r);
    if !o.e.s.Go? || o.same then o.e else Rounds(o.e.rest, nth, features, r)
  }

  /** `Negotiate`. */
  function Negotiated(a: seq<Word>, nth: Word, r: Range): (e: End)
    ensures (e.s.Cut? ==> e == CUT) && !e.s.Halt?
  {
    if |a| == 0 then CUT else Rounds(a[1..], nth, a[0], r)
  }

  // ----- the MTU kept, as a function of the answers -----

  /** What a callback for word 0 that goes on keeps. */
  function CallbackMtu(a: seq<Word>, features: Word, r: Range, dft: Word): Word {
    if Offers(features, F_MTU) && MtuOf(a, r).Kept? then MtuOf(a, r).v else dft
  }

  /** ... and a round, */
  function RoundMtu(a: seq<Word>, features: Word, r: Range, dft: Word): Word {
    if |a| == 0 then dft else CallbackMtu(a[1..], features, r, dft)
  }

  /** ... and a loop of rounds, of which the last one counts. */
  function RoundsMtu(a: seq<Word>, features: Word, r: Range, dft: Word): Word
    decreases |a|
  {
    var o := RoundOnce(a, ZERO, features, r);
    if !o.e.s.Go? then dft
    else if o.same then RoundMtu(a, features, r, dft)
    else RoundsMtu(o.e.rest, features, r, dft)
  }

  function NegotiatedMtu(a: seq<Word>, r: Range, dft: Word): Word {
    if |a| == 0 then dft else RoundsMtu(a[1..], a[0], r, dft)
  }

  /** ... and a whole initialisation. */
  function KeptMtu(a: seq<Word>, r: Range, dft: Word): Word {
    NegotiatedMtu(Begin(a).rest, r, dft)
  }

  /** `VirtmmioNegotiate`. */
  function Features(a: seq<Word>, r: Range): (e: End)
    ensures (e.s.Cut? ==> e == CUT) && !e.s.Halt?
  {
    var e0 := Negotiated(a, ZERO, r);
    if !e0.s.Go? then e0
    else
      var e1 := Negotiated(e0.rest, ONE, r);
      if !e1.s.Go? then e1
      else if |e1.rest| < 2 then CUT
      else End(if Has(e1.rest[1], FEATURES_OK) then Go else Fail, e1.rest[2..])
  }

  /** `CompleteConfigQueue`. */
  function Queue(a: seq<Word>, qsz: Word): (e: End)
    ensures e.s.Cut? ==> e == CUT
  {
    if |a| == 0 then CUT
    else if a[0] != ZERO then End(Halt, a[1..])
    else if |a| == 1 then CUT
    else End(if AtMost(qsz, a[1]) then Go else Fail, a[2..])
  }

  function Queues(a: seq<Word>, qsz: seq<Word>): (e: End)
    requires |qsz| == 2
    ensures e.s.Cut? ==> e == CUT
  {
    var e := Queue(a, qsz[0]);
    if e.s.Go? then Queue(e.rest, qsz[1]) else e
  }

  /** The parts of `VirtnetInit` before it reports to the device. */
  function Tried(a: seq<Word>, r: Range, qsz: seq<Word>, granted: bool): (e: End)
    requires |qsz| == 2
    ensures e.s.Cut? ==> e == CUT
  {
    var e0 := Begin(a);
    if !e0.s.Go? then e0
    else
      var e1 := Features(e0.rest, r);
      if !e1.s.Go? then e1
      else
        var e2 := Queues(e1.rest, qsz);
        if e2.s.Go? && !granted then End(Fail, e2.rest) else e2
  }

  /** `VirtnetInit`: DRIVER_OK or FAILED is added to a status read. */
  function Ends(a: seq<Word>, r: Range, qsz: seq<Word>, granted: bool): (e: End)
    requires |qsz| == 2
    ensures e.s.Cut? ==> e == CUT
  {
    Reported(Tried(a, r, qsz, granted))
  }

  function Reported(e: End): (f: End)
    requires e.s.Cut? ==> e == CUT
    ensures f.s.Cut? ==> f == CUT
  {
    if e.s.Halt? || e.s.Cut? then e else if |e.rest| == 0 then CUT else End(e.s, e.rest[1..])
  }

  // ----- what the driver writes to the status, as a function of the answers -----

  /** `VirtmmioInitBegin`: the reset, then ACKNOWLEDGE and DRIVER on what was read. */
  function BeginWords(a: seq<Word>): seq<Word> {
    if |a| == 0 then [Word(0)]
    else if |a| == 1 then [Word(0), Or(a[0], 1)]
    else [Word(0), Or(a[0], 1), Or(a[1], 2)]
  }

  /** `VirtmmioNegotiate`: FEATURES_OK, once both words are settled. */
  function FeatureWords(a: seq<Word>, r: Range): seq<Word> {
    var e0 := Negotiated(a, ZERO, r);
    var e1 := if e0.s.Go? then Negotiated(e0.rest, ONE, r) else e0;
    if e1.s.Go? && |e1.rest| > 0 then [Or(e1.rest[0], 8)] else []
  }

  /** DRIVER_OK or FAILED in the end. */
  function LastWords(e: End): seq<Word> {
    if |e.rest| == 0 then []
    else if e.s.Go? then [Or(e.rest[0], 4)]
    else if e.s.Fail? then [Or(e.rest[0], 128)]
    else []
  }

  function TriedWords(a: seq<Word>, r: Range): seq<Word> {
    BeginWords(a) + if Begin(a).s.Go? then FeatureWords(Begin(a).rest, r) else []
  }

  function StatusWords(a: seq<Word>, r: Range, qsz: seq<Word>, granted: bool): seq<Word>
    requires |qsz| == 2
  {
    TriedWords(a, r) + LastWords(Tried(a, r, qsz, granted))
  }

  // ----- a run that has ended is not changed by what the device could still say -----

  /** `f` is `e` with the answers `more` still to come. */
  predicate Same(e: End, f: End, more: seq<Word>) {
    e.s.Cut? || f == End(e.s, e.rest + more)
  }

  lemma Later(a: seq<Word>, more: seq<Word>, n: nat)
    requires n <= |a|
    ensures (a + more)[n..] == a[n..] + more
    ensures forall k :: 0 <= k < n ==> (a + more)[k] == a[k]
  {
  }

  lemma {:induction false} PollSame(a: seq<Word>, more: seq<Word>)
    ensures Same(Poll(a), Poll(a + more), more)
  {
    hide Has;
    if |a| > 0 {
      Later(a, more, 1);
      PollSame(a[1..], more);
    }
  }

  lemma BeginSame(a: seq<Word>, more: seq<Word>)
    ensures Same(Begin(a), Begin(a + more), more)
  {
    hide Poll;
    if |a| >= 2 {
      Later(a, more, 2);
      PollSame(a[2..], more);
    }
  }

  lemma MtuSame(a: seq<Word>, more: seq<Word>, r: Range)
    ensures Same(MtuEnd(a, r), MtuEnd(a + more, r), more)
  {
    hide AtMost;
    if !MtuOf(a, r).Unfinished? {
      Later(a, more, |a| - |MtuEnd(a, r).rest|);
    }
  }

  lemma CallbackSame(a: seq<Word>, more: seq<Word>, nth: Word, features: Word, r: Range)
    ensures Same(Callback(a, nth, features, r), Callback(a + more, nth, features, r), more)
  {
    hide MtuEnd, Offers;
    MtuSame(a, more, r);
    var e := if Offers(features, F_MTU) then MtuEnd(a, r) else End(Go, a);
    if |e.rest| >= MAC_ADDR_SIZE {
      Later(e.rest, more, MAC_ADDR_SIZE);
    }
  }

  lemma RoundSame(a: seq<Word>, more: seq<Word>, nth: Word, features: Word, r: Range)
    ensures var o, p := RoundOnce(a, nth, features, r), RoundOnce(a + more, nth, features, r);
            Same(o.e, p.e, more) && (o.e.s.Cut? || p.same == o.same)
  {
    hide Callback;
    if |a| > 0 {
      Later(a, more, 1);
      CallbackSame(a[1..], more, nth, features, r);
      var e := Callback(a[1..], nth, features, r);
      if |e.rest| > 0 {
        Later(e.rest, more, 1);
      }
    }
  }

  lemma {:induction false} RoundsSame(a: seq<Word>, more: seq<Word>, nth: Word, features: Word, r: Range)
    ensures Same(Rounds(a, nth, features, r), Rounds(a + more, nth, features, r), more)
    decreases |a|
  {
    hide RoundOnce;
    RoundSame(a, more, nth, features, r);
    var o := RoundOnce(a, nth, features, r);
    if o.e.s.Go? && !o.same {
      RoundsSame(o.e.rest, more, nth, features, r);
    }
  }

  lemma NegotiatedSame(a: seq<Word>, more: seq<Word>, nth: Word, r: Range)
    ensures Same(Negotiated(a, nth, r), Negotiated(a + more, nth, r), more)
  {
    hide Rounds;
    if |a| > 0 {
      Later(a, more, 1);
      RoundsSame(a[1..], more, nth, a[0], r);
    }
  }

  lemma FeaturesSame(a: seq<Word>, more: seq<Word>, r: Range)
    ensures Same(Features(a, r), Features(a + more, r), more)
  {
    hide Negotiated, Has;
    NegotiatedSame(a, more, ZERO, r);
    var e0 := Negotiated(a, ZERO, r);
    NegotiatedSame(e0.rest, more, ONE, r);
    var e1 := Negotiated(e0.rest, ONE, r);
    if |e1.rest| >= 2 {
      Later(e1.rest, more, 2);
    }
  }

  lemma QueueSame(a: seq<Word>, more: seq<Word>, qsz: Word)
    ensures Same(Queue(a, qsz), Queue(a + more, qsz), more)
  {
    hide AtMost;
    if |a| > 0 {
      Later(a, more, 1);
    }
    if |a| > 1 {
      Later(a, more, 2);
    }
  }

  lemma QueuesSame(a: seq<Word>, more: seq<Word>, qsz: seq<Word>)
    requires |qsz| == 2
    ensures Same(Queues(a, qsz), Queues(a + more, qsz), more)
  {
    hide Queue;
    QueueSame(a, more, qsz[0]);
    QueueSame(Queue(a, qsz[0]).rest, more, qsz[1]);
  }

  lemma TriedSame(a: seq<Word>, more: seq<Word>, r: Range, qsz: seq<Word>, granted: bool)
    requires |qsz| == 2
    ensures Same(Tried(a, r, qsz, granted), Tried(a + more, r, qsz, granted), more)
  {
    hide Begin, Features, Queues;
    BeginSame(a, more);
    var e0 := Begin(a);
    FeaturesSame(e0.rest, more, r);
    var e1 := Features(e0.rest, r);
    QueuesSame(e1.rest, more, qsz);
  }

  /** A run is cut off only for want of answers: one that has ended ends the same
      way, with the same answers used, whatever more the device would have said. */
  lemma EndsSame(a: seq<Word>, more: seq<Word>, r: Range, qsz: seq<Word>, granted: bool)
    requires |qsz| == 2 && !Ends(a, r, qsz, granted).s.Cut?
    ensures Ends(a + more, r, qsz, granted) == End(Ends(a, r, qsz, granted).s, Ends(a, r, qsz, granted).rest + more)
  {
    hide Tried;
    TriedSame(a, more, r, qsz, granted);
    var e := Tried(a, r, qsz, granted);
    if |e.rest| > 0 {
      Later(e.rest, more, 1);
    }
  }

  // ----- a device that changes its MTU too late -----

  const MTU_RANGE := Range(Word(68), Word(1500))

  /** The device's answers: the status until it shows DRIVER; an offer of MAC and
      MTU, and one round; an offer of VERSION_1, and one round; the status twice, in
      the end with FEATURES_OK; two free queues of up to 1024 entries; the status. */
  function LateChange(): seq<Word> {
    [ZERO, ONE, Word(3)] + ([Word(40)] + LateRound() + ([ONE, ONE, ONE] + ([Word(3), Word(11)]
      + ([ZERO, Word(1024), ZERO, Word(1024)] + [Word(11)]))))
  }

  /** One generation around three readings of the MTU and the address. */
  function LateRound(): seq<Word> {
    [ONE, Word(1500), Word(1500), Word(9000), ZERO, ZERO, ZERO, ZERO, ZERO, ZERO, ONE]
  }

  lemma LateBits()
    ensures Has(Word(3), DRIVER) && Has(Word(11), FEATURES_OK)
    ensures Offers(Word(40), F_MTU) && Offers(Word(40), F_MAC) && Offers(ONE, F_VERSION_1)
    ensures AtMost(Word(1500), MTU_RANGE.max) && AtMost(MTU_RANGE.min, Word(1500)) && !InRange(Word(9000), MTU_RANGE)
  {
  }

  lemma LateBegin(x: seq<Word>)
    ensures Begin([ZERO, ONE, Word(3)] + x) == End(Go, x)
  {
    LateBits();
    hide Has;
    var a := [ZERO, ONE, Word(3)] + x;
    assert a[2..] == [Word(3)] + x;
    assert a[2..][1..] == x;
  }

  lemma LateWord0(x: seq<Word>, dft: Word)
    ensures var a := [Word(40)] + LateRound() + x;
            Negotiated(a, ZERO, MTU_RANGE) == End(Go, x) && NegotiatedMtu(a, MTU_RANGE, dft) == Word(9000)
  {
    LateBits();
    hide Has, Offers, AtMost, InRange;
    var a := [Word(40)] + LateRound() + x;
    var b := a[1..];
    assert b == LateRound() + x;
    var c := b[1..];
    assert c[0] == c[1] == Word(1500) && c[2] == Word(9000);
    assert MtuOf(c, MTU_RANGE) == Kept(Word(9000));
    assert c[3..][MAC_ADDR_SIZE..] == [ONE] + x;
    assert Callback(c, ZERO, Word(40), MTU_RANGE) == End(Go, [ONE] + x);
    assert ([ONE] + x)[1..] == x;
    assert RoundOnce(b, ZERO, Word(40), MTU_RANGE) == Once(End(Go, x), true);
  }

  lemma LateWord1(x: seq<Word>)
    ensures Negotiated([ONE, ONE, ONE] + x, ONE, MTU_RANGE) == End(Go, x)
  {
    LateBits();
    hide Offers;
    var b := ([ONE, ONE, ONE] + x)[1..];
    assert b[1..][1..] == x;
    assert RoundOnce(b, ONE, ONE, MTU_RANGE) == Once(End(Go, x), true);
  }

  lemma LateQueues(x: seq<Word>, qsz: seq<Word>)
    requires |qsz| == 2 && AtMost(qsz[0], Word(1024)) && AtMost(qsz[1], Word(1024))
    ensures Queues([ZERO, Word(1024), ZERO, Word(1024)] + x, qsz) == End(Go, x)
  {
    hide AtMost;
    var a := [ZERO, Word(1024), ZERO, Word(1024)] + x;
    assert a[2..][2..] == x;
  }

  /** With these answers initialisation succeeds, and 9000 is the MTU kept. */
  lemma LateChangeEnds(qsz: seq<Word>, dft: Word)
    requires |qsz| == 2 && AtMost(qsz[0], Word(1024)) && AtMost(qsz[1], Word(1024))
    ensures Ends(LateChange(), MTU_RANGE, qsz, true) == End(Go, [])
    ensures KeptMtu(LateChange(), MTU_RANGE, dft) == Word(9000)
    ensures StatusWords(LateChange(), MTU_RANGE, qsz, true) == [Word(0), Word(1), Word(3), Word(11), Word(15)]
  {
    LateBits();
    LateOrs();
    hide Has, AtMost, Begin, Negotiated, NegotiatedMtu, Queues, LateRound, Or;
    var d := [Word(11)];
    var c := [Word(3), Word(11)] + ([ZERO, Word(1024), ZERO, Word(1024)] + d);
    var b := [ONE, ONE, ONE] + c;
    LateBegin([Word(40)] + LateRound() + b);
    LateWord0(b, dft);
    LateWord1(c);
    assert c[2..] == [ZERO, Word(1024), ZERO, Word(1024)] + d;
    LateQueues(d, qsz);
    assert BeginWords(LateChange()) == [Word(0), Word(1), Word(3)];
  }

  lemma LateOrs()
    ensures Or(ZERO, 1) == Word(1) && Or(ONE, 2) == Word(3) && Or(Word(3), 8) == Word(11) && Or(Word(11), 4) == Word(15)
  {
  }
}
