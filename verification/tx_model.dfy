/** The transmit side of a virtqueue as a machine on values.

    Descriptor ids move in whole chains between the driver and the device.  The
    two network drivers are proved to take only steps of this machine, so what
    is proved here of every run holds of every run of theirs. */
module TxModel {
  import opened Counting
  import opened Traces

  /** A buffer a descriptor points at. */
  datatype Seg = Seg(addr: int, len: int)

  /** A pbuf chain: the address of its first pbuf and its segments in order. */
  datatype Packet = Packet(ptr: int, segs: seq<Seg>)

  /** Descriptors in use for one packet, from head to tail. */
  datatype Chain = Chain(ids: seq<int>, pkt: Packet)

  datatype Tx = Tx(
    free: seq<int>,          // the free list from `tFreeHdr` on
    pend: seq<int>,          // cut off for a packet not yet published
    avail: seq<Chain>,       // published, not yet fetched by the device
    held: seq<Chain>,        // fetched by the device
    used: seq<Chain>,        // returned by the device, not yet reclaimed
    sent: seq<Packet>,       // history: packets published
    returned: seq<Packet>,   // history: packets the device has finished with
    freed: seq<Packet>)      // history: packets released

  datatype Event =
    | Alloc(n: nat)
    | Publish(pkt: Packet)
    | Fetch
    | Complete(k: nat)
    | Reclaim

  function Init(qsz: nat): Tx {
    Tx(Range(qsz), [], [], [], [], [], [], [])
  }

  predicate Enabled(s: Tx, e: Event) {
    match e
    case Alloc(n) => s.pend == [] && 2 <= n <= |s.free|
    case Publish(p) => s.pend != [] && |s.pend| == |p.segs| + 1
    case Fetch => s.avail != []
    case Complete(k) => k < |s.held|
    case Reclaim => s.used != []
  }

  /** The state after `e`; an event that is not possible changes nothing. */
  function Step(s: Tx, e: Event): Tx {
    if !Enabled(s, e) then s
    else
      match e
      case Alloc(n) => s.(free := s.free[n..], pend := s.free[..n])
      case Publish(p) => s.(pend := [], avail := s.avail + [Chain(s.pend, p)], sent := s.sent + [p])
      case Fetch => s.(avail := s.avail[1..], held := s.held + [s.avail[0]])
      case Complete(k) =>
        s.(held := s.held[..k] + s.held[k + 1..], used := s.used + [s.held[k]],
           returned := s.returned + [s.held[k].pkt])
      case Reclaim =>
        s.(used := s.used[1..], free := s.used[0].ids + s.free, freed := s.freed + [s.used[0].pkt])
  }

  // What each of the driver's events leaves alone.

  lemma StepAlloc(m: Tx, n: nat)
    requires m.pend == [] && 2 <= n <= |m.free|
    ensures Enabled(m, Alloc(n))
    ensures var t := Step(m, Alloc(n));
            && t.avail == m.avail && t.held == m.held && t.used == m.used
            && t.freed == m.freed && t.sent == m.sent
            && |t.pend| == n && t.pend[0] == m.free[0] && t.pend[n - 1] == m.free[n - 1]
  {
  }

  lemma StepPublish(m: Tx, p: Packet)
    requires Enabled(m, Publish(p))
    ensures var t := Step(m, Publish(p));
            && t.avail == m.avail + [Chain(m.pend, p)] && t.held == m.held && t.used == m.used
            && t.freed == m.freed && t.sent == m.sent + [p] && t.pend == []
  {
  }

  lemma StepReclaim(m: Tx)
    requires m.used != []
    ensures Enabled(m, Reclaim)
    ensures var t := Step(m, Reclaim);
            && t.avail == m.avail && t.held == m.held && t.pend == m.pend && t.sent == m.sent
            && t.freed == m.freed + [m.used[0].pkt] && |t.used| + 1 == |m.used| && t.free == m.used[0].ids + m.free
  {
  }

  /** The state after `es`, if each event was possible in its turn. */
  function Run(qsz: nat, es: seq<Event>): Outcome<Tx> {
    After(Init(qsz), Enabled, Step, es)
  }

  lemma RunExtend(qsz: nat, es: seq<Event>, s: Tx, e: Event)
    requires Run(qsz, es) == Reached(s) && Enabled(s, e)
    ensures Run(qsz, es + [e]) == Reached(Step(s, e))
  {
    AfterExtend(Init(qsz), Enabled, Step, es, s, e);
  }

  function InFlight(s: Tx): seq<Chain> {
    s.avail + s.held + s.used
  }

  /** A weight summed over some chains. */
  function Sum(cs: seq<Chain>, w: Chain -> nat): nat {
    if cs == [] then 0 else w(cs[0]) + Sum(cs[1..], w)
  }

  function OfId(x: int): Chain -> nat {
    (c: Chain) => Count(c.ids, x)
  }

  function OfPkt(p: Packet): Chain -> nat {
    (c: Chain) => if c.pkt == p then 1 else 0
  }

  const IDS_OF: Chain -> nat := (c: Chain) => |c.ids|

  function SumAll(s: Tx, w: Chain -> nat): nat {
    Sum(s.avail, w) + Sum(s.held, w) + Sum(s.used, w)
  }

  /** In how many places of the queue id `x` is. */
  function Places(s: Tx, x: int): nat {
    Count(s.free, x) + Count(s.pend, x) + SumAll(s, OfId(x))
  }

  ghost predicate WellSized(cs: seq<Chain>) {
    forall i :: 0 <= i < |cs| ==> |cs[i].ids| == |cs[i].pkt.segs| + 1 >= 2
  }

  /** Completions are released in the order the device made them. */
  ghost predicate InOrder(s: Tx) {
    && |s.freed| + |s.used| == |s.returned|
    && s.freed == s.returned[..|s.freed|]
    && forall i :: 0 <= i < |s.used| ==> s.returned[|s.freed| + i] == s.used[i].pkt
  }

  ghost predicate Inv(qsz: nat, s: Tx) {
    && (forall x :: Places(s, x) == if 0 <= x < qsz then 1 else 0)
    && |s.free| + |s.pend| + SumAll(s, IDS_OF) == qsz
    && (forall p :: Count(s.freed, p) + SumAll(s, OfPkt(p)) == Count(s.sent, p))
    && InOrder(s)
    && WellSized(s.avail) && WellSized(s.held) && WellSized(s.used)
    && |s.pend| != 1
  }

  lemma {:induction false} SumConcat(a: seq<Chain>, b: seq<Chain>, w: Chain -> nat)
    ensures Sum(a + b, w) == Sum(a, w) + Sum(b, w)
  {
    if a == [] {
      assert a + b == b;
    } else {
      SumConcat(a[1..], b, w);
      assert (a + b)[1..] == a[1..] + b;
    }
  }

  lemma SumAppend(cs: seq<Chain>, c: Chain, w: Chain -> nat)
    ensures Sum(cs + [c], w) == Sum(cs, w) + w(c)
  {
    SumConcat(cs, [c], w);
  }

  /** Taking the `k`-th chain out of a sequence. */
  lemma {:induction false} SumRemove(cs: seq<Chain>, k: nat, w: Chain -> nat)
    requires k < |cs|
    ensures Sum(cs, w) == Sum(cs[..k] + cs[k + 1..], w) + w(cs[k])
  {
    assert cs == cs[..k] + cs[k..];
    SumConcat(cs[..k], cs[k..], w);
    SumConcat(cs[..k], cs[k + 1..], w);
    assert cs[k..][1..] == cs[k + 1..];
  }

  /** How each event moves the weight of chains; `w(c)` appears for a chain
      published and disappears for a chain reclaimed. */
  lemma StepSum(s: Tx, e: Event, w: Chain -> nat)
    requires Enabled(s, e)
    ensures SumAll(Step(s, e), w) ==
            match e
            case Publish(p) => SumAll(s, w) + w(Chain(s.pend, p))
            case Reclaim => SumAll(s, w) - w(s.used[0])
            case _ => SumAll(s, w)
  {
    match e {
      case Publish(p) => SumAppend(s.avail, Chain(s.pend, p), w);
      case Fetch => SumAppend(s.held, s.avail[0], w);
      case Complete(k) =>
        SumRemove(s.held, k, w);
        SumAppend(s.used, s.held[k], w);
      case _ =>
    }
  }

  lemma StepKeepsPlaces(s: Tx, e: Event, x: int)
    requires Enabled(s, e)
    ensures Places(Step(s, e), x) == Places(s, x)
  {
    StepSum(s, e, OfId(x));
    match e {
      case Alloc(n) =>
        assert s.free == s.free[..n] + s.free[n..];
        CountConcat(s.free[..n], s.free[n..], x);
      case Reclaim =>
        CountConcat(s.used[0].ids, s.free, x);
      case _ =>
    }
  }

  lemma StepKeepsPackets(s: Tx, e: Event, p: Packet)
    requires Enabled(s, e)
    requires Count(s.freed, p) + SumAll(s, OfPkt(p)) == Count(s.sent, p)
    ensures Count(Step(s, e).freed, p) + SumAll(Step(s, e), OfPkt(p)) == Count(Step(s, e).sent, p)
  {
    StepSum(s, e, OfPkt(p));
    match e {
      case Publish(q) => CountConcat(s.sent, [q], p);
      case Reclaim => CountConcat(s.freed, [s.used[0].pkt], p);
      case _ =>
    }
  }

  lemma StepKeepsShape(s: Tx, e: Event)
    requires Enabled(s, e) && InOrder(s) && |s.pend| != 1
    requires WellSized(s.avail) && WellSized(s.held) && WellSized(s.used)
    ensures var t := Step(s, e);
            InOrder(t) && |t.pend| != 1 && WellSized(t.avail) && WellSized(t.held) && WellSized(t.used)
  {
  }

  lemma StepInv(qsz: nat, s: Tx, e: Event)
    requires Inv(qsz, s) && Enabled(s, e)
    ensures Inv(qsz, Step(s, e))
  {
    var t := Step(s, e);
    StepKeepsShape(s, e);
    StepSum(s, e, IDS_OF);
    forall x ensures Places(t, x) == if 0 <= x < qsz then 1 else 0 {
      StepKeepsPlaces(s, e, x);
    }
    forall p ensures Count(t.freed, p) + SumAll(t, OfPkt(p)) == Count(t.sent, p) {
      StepKeepsPackets(s, e, p);
    }
  }

  lemma InitInv(qsz: nat)
    ensures Inv(qsz, Init(qsz))
  {
    forall x ensures Places(Init(qsz), x) == if 0 <= x < qsz then 1 else 0 {
      RangeOnce(qsz, x);
    }
  }

  /** The invariant holds after every run. */
  lemma RunInv(qsz: nat, es: seq<Event>)
    requires Run(qsz, es).Reached?
    ensures Inv(qsz, Run(qsz, es).s)
  {
    InitInv(qsz);
    forall s, e | Inv(qsz, s) && Enabled(s, e) ensures Inv(qsz, Step(s, e)) {
      StepInv(qsz, s, e);
    }
    hide Inv, Step, Enabled;
    AfterKeeps(Init(qsz), Enabled, Step, s => Inv(qsz, s), es);
  }

  // ----- what the invariant means -----

  lemma {:induction false} SizeAtLeast(cs: seq<Chain>)
    requires WellSized(cs)
    ensures Sum(cs, IDS_OF) >= 2 * |cs|
  {
    if cs != [] {
      assert forall i :: 0 <= i < |cs| - 1 ==> cs[1..][i] == cs[i + 1];
      SizeAtLeast(cs[1..]);
    }
  }

  lemma InvHalf(qsz: nat, s: Tx)
    requires Inv(qsz, s)
    ensures 2 * |InFlight(s)| + |s.free| + |s.pend| <= qsz
  {
    SizeAtLeast(s.avail);
    SizeAtLeast(s.held);
    SizeAtLeast(s.used);
  }

  lemma SumInFlight(s: Tx, w: Chain -> nat)
    ensures Sum(InFlight(s), w) == SumAll(s, w)
  {
    SumConcat(s.avail + s.held, s.used, w);
    SumConcat(s.avail, s.held, w);
  }

  /** When not every entry is free and none is pending, a chain is in flight. */
  lemma ChainInFlight(qsz: nat, s: Tx)
    requires Inv(qsz, s) && s.pend == [] && |s.free| < qsz
    ensures InFlight(s) != []
  {
    SumInFlight(s, IDS_OF);
  }

  /** In every reachable state each of the ids `0..qsz-1` is in exactly one
      place, so the free entries and the entries in flight add up to `qsz`, and
      at most half as many heads as ids are with the device. */
  lemma Conservation(qsz: nat, es: seq<Event>, x: int)
    requires Run(qsz, es).Reached?
    ensures var s := Run(qsz, es).s;
            && Places(s, x) == (if 0 <= x < qsz then 1 else 0)
            && |s.free| + |s.pend| + Sum(InFlight(s), IDS_OF) == qsz
            && 2 * |InFlight(s)| <= qsz
  {
    RunInv(qsz, es);
    InvHalf(qsz, Run(qsz, es).s);
    SumInFlight(Run(qsz, es).s, IDS_OF);
  }

  /** Every packet published has been released once or is still in flight, and
      the packets released are, in order, the first ones the device returned. */
  lemma ReleasedExactlyOnce(qsz: nat, es: seq<Event>, p: Packet)
    requires Run(qsz, es).Reached?
    ensures var s := Run(qsz, es).s;
            && Count(s.freed, p) + Sum(InFlight(s), OfPkt(p)) == Count(s.sent, p)
            && s.freed <= s.returned
  {
    RunInv(qsz, es);
    SumInFlight(Run(qsz, es).s, OfPkt(p));
  }

  // ----- waiting for room -----

  predicate Drain(e: Event) {
    e.Fetch? || e.Complete? || e.Reclaim?
  }

  /** Steps until everything in flight is back on the free list. */
  function Work(s: Tx): nat {
    3 * |s.avail| + 2 * |s.held| + |s.used|
  }

  lemma StepWork(s: Tx, e: Event)
    requires Enabled(s, e) && Drain(e)
    ensures Work(Step(s, e)) + 1 == Work(s) && Step(s, e).pend == s.pend
  {
  }

  lemma {:induction false} DrainWork(qsz: nat, es: seq<Event>, more: seq<Event>)
    requires Run(qsz, es).Reached? && Run(qsz, es + more).Reached?
    requires forall e :: e in more ==> Drain(e)
    ensures var s, t := Run(qsz, es).s, Run(qsz, es + more).s;
            t.pend == s.pend && |more| + Work(t) == Work(s)
  {
    hide Step, Enabled, Work, Drain;
    if more == [] {
      assert es + more == es;
    } else {
      var k := |more| - 1;
      assert (es + more)[..|es| + k] == es + more[..k];
      assert more[k] in more;
      DrainWork(qsz, es, more[..k]);
      StepWork(Run(qsz, es + more[..k]).s, more[k]);
    }
  }

  /** While a request waits, whatever the device and the handler do, in whatever
      order, uses up the work in flight one step at a time; as long as some is
      left another step is possible; and once none is left every request that
      can fit the queue fits. */
  lemma WaitingEnds(qsz: nat, es: seq<Event>, more: seq<Event>)
    requires Run(qsz, es).Reached? && Run(qsz, es).s.pend == [] && Run(qsz, es + more).Reached?
    requires forall e :: e in more ==> Drain(e)
    ensures var s, t := Run(qsz, es).s, Run(qsz, es + more).s;
            && |more| + Work(t) == Work(s)
            && (Work(t) > 0 ==> exists e :: Drain(e) && Enabled(t, e))
            && (Work(t) == 0 ==> forall n :: 2 <= n <= qsz ==> Enabled(t, Alloc(n)))
  {
    hide *;
    DrainWork(qsz, es, more);
    RunInv(qsz, es + more);
    WorkLeft(qsz, Run(qsz, es + more).s);
  }

  lemma WorkLeft(qsz: nat, t: Tx)
    requires Inv(qsz, t) && t.pend == []
    ensures Work(t) > 0 ==> exists e :: Drain(e) && Enabled(t, e)
    ensures Work(t) == 0 ==> forall n :: 2 <= n <= qsz ==> Enabled(t, Alloc(n))
  {
    if Work(t) > 0 {
      assert Enabled(t, Fetch) || Enabled(t, Complete(0)) || Enabled(t, Reclaim);
      assert Drain(Fetch) && Drain(Complete(0)) && Drain(Reclaim);
    } else {
      assert SumAll(t, IDS_OF) == 0;
    }
  }

  // ----- requests of two entries only -----

  ghost predicate PairTrace(es: seq<Event>) {
    forall i :: 0 <= i < |es| && es[i].Alloc? ==> es[i].n == 2
  }

  ghost predicate Pairs(s: Tx) {
    && (s.pend == [] || |s.pend| == 2)
    && (forall c :: c in InFlight(s) ==> |c.ids| == 2)
  }

  lemma PairStep(s: Tx, e: Event)
    requires Pairs(s) && Enabled(s, e) && (e.Alloc? ==> e.n == 2)
    ensures Pairs(Step(s, e)) && |Step(s, e).free| % 2 == |s.free| % 2
  {
    match e {
      case Reclaim =>
        assert s.used[0] == InFlight(s)[|s.avail| + |s.held|];
      case _ =>
    }
  }

  /** A driver that only ever asks for two entries keeps every chain a pair and
      the number of free entries even, if the queue size is. */
  lemma {:induction false} PairRun(qsz: nat, es: seq<Event>)
    requires Run(qsz, es).Reached? && PairTrace(es)
    ensures Pairs(Run(qsz, es).s) && |Run(qsz, es).s.free| % 2 == qsz % 2
  {
    if es != [] {
      PairRun(qsz, es[..|es| - 1]);
      PairStep(Run(qsz, es[..|es| - 1]).s, es[|es| - 1]);
    }
  }

  // ----- separation, as the descriptor table needs it -----

  lemma {:induction false} SumMember(cs: seq<Chain>, k: nat, w: Chain -> nat)
    requires k < |cs|
    ensures Sum(cs, w) >= w(cs[k])
  {
    if k > 0 {
      SumMember(cs[1..], k - 1, w);
    }
  }

  /** A chain in flight shares no id with the free list or the pending cut. */
  lemma ChainApart(qsz: nat, s: Tx, c: Chain)
    requires Inv(qsz, s) && c in InFlight(s)
    ensures NoDup(c.ids) && Disjoint(c.ids, s.free) && Disjoint(c.ids, s.pend)
    ensures forall x :: x in c.ids ==> 0 <= x < qsz
  {
    var k :| 0 <= k < |InFlight(s)| && InFlight(s)[k] == c;
    forall x ensures Count(c.ids, x) + Count(s.free, x) + Count(s.pend, x) <= if 0 <= x < qsz then 1 else 0 {
      SumMember(InFlight(s), k, OfId(x));
      SumInFlight(s, OfId(x));
      assert Places(s, x) == if 0 <= x < qsz then 1 else 0;
    }
    NoDupIfOnce(c.ids);
    DisjointIfOnce(c.ids, s.free);
    DisjointIfOnce(c.ids, s.pend);
    InRangeIfOnce(qsz, c.ids);
  }

  /** Two chains in flight share no id. */
  lemma ChainsApart(qsz: nat, s: Tx, j: nat, k: nat)
    requires Inv(qsz, s) && j < k < |InFlight(s)|
    ensures Disjoint(InFlight(s)[j].ids, InFlight(s)[k].ids)
  {
    var cs := InFlight(s);
    forall x ensures Count(cs[j].ids, x) + Count(cs[k].ids, x) <= 1 {
      SumRemove(cs, k, OfId(x));
      SumMember(cs[..k] + cs[k + 1..], j, OfId(x));
      SumInFlight(s, OfId(x));
      assert Places(s, x) <= 1;
    }
    DisjointIfOnce(cs[j].ids, cs[k].ids);
  }

  lemma FreeApart(qsz: nat, s: Tx)
    requires Inv(qsz, s)
    ensures NoDup(s.free) && NoDup(s.pend) && Disjoint(s.free, s.pend)
    ensures forall x :: x in s.free || x in s.pend ==> 0 <= x < qsz
  {
    forall x ensures Count(s.free, x) + Count(s.pend, x) <= if 0 <= x < qsz then 1 else 0 {
      assert Places(s, x) == if 0 <= x < qsz then 1 else 0;
    }
    NoDupIfOnce(s.free);
    NoDupIfOnce(s.pend);
    DisjointIfOnce(s.free, s.pend);
    InRangeIfOnce(qsz, s.free);
    InRangeIfOnce(qsz, s.pend);
  }
}
