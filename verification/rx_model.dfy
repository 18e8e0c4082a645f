/** The receive side of a virtqueue as a machine on values.

    Fixed buffers circulate between the device and the driver.  A buffer the
    driver has taken from the used ring is kept away for a while -- lent to the
    IP stack in one driver, collected in a batch in the others -- and then made
    available again. */
module RxModel {
  import opened Counting
  import opened Traces

  datatype Rx = Rx(
    avail: seq<int>,    // published, not yet fetched by the device
    held: seq<int>,     // being filled by the device
    used: seq<int>,     // completed, not yet picked up
    hand: seq<int>,     // picked up, being handled
    away: seq<int>)     // lent, or waiting in the batch

  datatype Event =
    | Fetch
    | Complete(k: nat)
    | Take
    | Keep
    | GiveBack(k: nat)
    | GiveAll

  function Init(qsz: nat): Rx {
    Rx(Range(qsz), [], [], [], [])
  }

  predicate Enabled(s: Rx, e: Event) {
    match e
    case Fetch => s.avail != []
    case Complete(k) => k < |s.held|
    case Take => s.used != [] && s.hand == []
    case Keep => s.hand != []
    case GiveBack(k) => k < |s.away|
    case GiveAll => true
  }

  /** The state after `e`; an event that is not possible changes nothing. */
  function Step(s: Rx, e: Event): Rx {
    if !Enabled(s, e) then s
    else
      match e
      case Fetch => s.(avail := s.avail[1..], held := s.held + [s.avail[0]])
      case Complete(k) => s.(held := s.held[..k] + s.held[k + 1..], used := s.used + [s.held[k]])
      case Take => s.(used := s.used[1..], hand := [s.used[0]])
      case Keep => s.(hand := [], away := s.away + s.hand)
      case GiveBack(k) => s.(away := s.away[..k] + s.away[k + 1..], avail := s.avail + [s.away[k]])
      case GiveAll => s.(away := [], avail := s.avail + s.away)
  }

  /** The state after `es`, if each event was possible in its turn. */
  function Run(qsz: nat, es: seq<Event>): Outcome<Rx> {
    After(Init(qsz), Enabled, Step, es)
  }

  lemma RunExtend(qsz: nat, es: seq<Event>, s: Rx, e: Event)
    requires Run(qsz, es) == Reached(s) && Enabled(s, e)
    ensures Run(qsz, es + [e]) == Reached(Step(s, e))
  {
    AfterExtend(Init(qsz), Enabled, Step, es, s, e);
  }

  /** In how many places buffer `x` is. */
  function Places(s: Rx, x: int): nat {
    Count(s.avail, x) + Count(s.held, x) + Count(s.used, x) + Count(s.hand, x) + Count(s.away, x)
  }

  function Size(s: Rx): nat {
    |s.avail| + |s.held| + |s.used| + |s.hand| + |s.away|
  }

  ghost predicate Inv(qsz: nat, s: Rx) {
    && (forall x :: Places(s, x) == if 0 <= x < qsz then 1 else 0)
    && Size(s) == qsz && |s.hand| <= 1
  }

  lemma CountRemove(xs: seq<int>, k: nat, x: int)
    requires k < |xs|
    ensures Count(xs, x) == Count(xs[..k] + xs[k + 1..], x) + Count([xs[k]], x)
  {
    assert xs == xs[..k] + xs[k..];
    CountConcat(xs[..k], xs[k..], x);
    CountConcat(xs[..k], xs[k + 1..], x);
    assert xs[k..][1..] == xs[k + 1..];
  }

  /** Each event moves each buffer from one place to one other place. */
  lemma StepKeepsPlaces(s: Rx, e: Event, x: int)
    requires Enabled(s, e)
    ensures Places(Step(s, e), x) == Places(s, x)
  {
    match e {
      case Fetch => CountConcat(s.held, [s.avail[0]], x);
      case Complete(k) =>
        CountRemove(s.held, k, x);
        CountConcat(s.used, [s.held[k]], x);
      case Take =>
        CountRemove(s.used, 0, x);
        assert s.used[..0] + s.used[1..] == s.used[1..];
      case Keep => CountConcat(s.away, s.hand, x);
      case GiveBack(k) =>
        CountRemove(s.away, k, x);
        CountConcat(s.avail, [s.away[k]], x);
      case GiveAll => CountConcat(s.avail, s.away, x);
    }
  }

  lemma StepInv(qsz: nat, s: Rx, e: Event)
    requires Inv(qsz, s) && Enabled(s, e)
    ensures Inv(qsz, Step(s, e))
  {
    forall x ensures Places(Step(s, e), x) == if 0 <= x < qsz then 1 else 0 {
      StepKeepsPlaces(s, e, x);
    }
  }

  lemma InitInv(qsz: nat)
    ensures Inv(qsz, Init(qsz))
  {
    forall x ensures Places(Init(qsz), x) == if 0 <= x < qsz then 1 else 0 {
      RangeOnce(qsz, x);
    }
  }

  lemma InitRun(qsz: nat)
    ensures Run(qsz, []) == Reached(Init(qsz))
  {
  }

  /** After every run each buffer is in exactly one place: none is lost, none is
      published twice. */
  lemma RunInv(qsz: nat, es: seq<Event>)
    requires Run(qsz, es).Reached?
    ensures Inv(qsz, Run(qsz, es).s)
  {
    InitInv(qsz);
    forall s, e | Inv(qsz, s) && Enabled(s, e) ensures Inv(qsz, Step(s, e)) {
      StepInv(qsz, s, e);
    }
    hide Inv, Step, Enabled;
    AfterKeeps(Init(qsz), Enabled, Step, s => Inv(qsz, s), es);
  }

  lemma HandInRange(qsz: nat, s: Rx, x: int)
    requires Inv(qsz, s) && s.hand == [x]
    ensures 0 <= x < qsz
  {
    InvApart(qsz, s);
    assert x in s.avail + s.held + s.used + s.hand + s.away;
    hide Inv;
  }

  /** A buffer the driver or the device side has is in no other place. */
  lemma InvApart(qsz: nat, s: Rx)
    requires Inv(qsz, s)
    ensures NoDup(s.used) && NoDup(s.held) && Disjoint(s.held, s.used) && Disjoint(s.held, s.hand)
    ensures forall x :: x in s.avail + s.held + s.used + s.hand + s.away ==> 0 <= x < qsz
  {
    forall x
      ensures Count(s.held, x) + Count(s.used, x) + Count(s.hand, x) <= 1
    {
      assert Places(s, x) <= 1;
    }
    NoDupIfOnce(s.used);
    NoDupIfOnce(s.held);
    DisjointIfOnce(s.held, s.used);
    DisjointIfOnce(s.held, s.hand);
    var all := s.avail + s.held + s.used + s.hand + s.away;
    forall x ensures Count(all, x) <= if 0 <= x < qsz then 1 else 0 {
      CountConcat(s.avail + s.held + s.used + s.hand, s.away, x);
      CountConcat(s.avail + s.held + s.used, s.hand, x);
      CountConcat(s.avail + s.held, s.used, x);
      CountConcat(s.avail, s.held, x);
      assert Places(s, x) == if 0 <= x < qsz then 1 else 0;
    }
    InRangeIfOnce(qsz, all);
  }
}
