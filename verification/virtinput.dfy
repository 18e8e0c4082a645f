/** The event filter of the RISC-V input driver.

    When the mouse is captured by the virtual machine a left-button-up can arrive
    without the down before it; such an up, and the event that closes it, must
    not be reported. */
module EventFilter {
  const EV_KEY := 1
  const BTN_LEFT := 0x110

  datatype Event = Event(typ: int, code: int, value: int)

  /** `precedeDown`. */
  datatype Precede = Yes | No | Syn

  predicate IsLeft(e: Event) {
    e.typ == 1 && e.code == 0x110
  }

  predicate IsDown(e: Event) {
    IsLeft(e) && e.value == 1
  }

  predicate IsUp(e: Event) {
    IsLeft(e) && e.value != 1
  }

  // ----- what should be reported -----

  /** The last left-button event of the stream, if any, is a down. */
  predicate LastLeftIsDown(es: seq<Event>) {
    if es == [] then false
    else
      var e := es[|es| - 1];
      if IsLeft(e) then IsDown(e) else LastLeftIsDown(es[..|es| - 1])
  }

  /** Event `e` arriving after `before` is an up that has no down before it, or
      closes such an up. */
  predicate Incomplete(before: seq<Event>, e: Event) {
    if IsUp(e) then !LastLeftIsDown(before)
    else if IsDown(e) then false
    else
      var n := |before|;
      n > 0 && IsUp(before[n - 1]) && !LastLeftIsDown(before[..n - 1])
  }

  /** The events of a stream that should be reported, in order. */
  function Reported(es: seq<Event>): seq<Event> {
    if es == [] then []
    else
      var before, e := es[..|es| - 1], es[|es| - 1];
      Reported(before) + if Incomplete(before, e) then [] else [e]
  }

  // ----- what the code computes -----

  /** `VirtinGrabbed`: the new value of `precedeDown`, and whether to report. */
  function Grabbed(p: Precede, e: Event): (Precede, bool) {
    if IsDown(e) then (Yes, true)
    else if IsUp(e) && p == Yes then (No, true)
    else if IsUp(e) then (Syn, false)
    else if p == Syn then (No, false)
    else (p, true)
  }

  /** `precedeDown` after a stream. */
  function PrecedeAfter(es: seq<Event>): Precede {
    if es == [] then No else Grabbed(PrecedeAfter(es[..|es| - 1]), es[|es| - 1]).0
  }

  /** The one variable of the filter knows what the whole stream before says. */
  lemma {:induction false} PrecedeMeans(es: seq<Event>)
    ensures PrecedeAfter(es) == Yes <==> LastLeftIsDown(es)
    ensures PrecedeAfter(es) == Syn <==>
            |es| > 0 && IsUp(es[|es| - 1]) && !LastLeftIsDown(es[..|es| - 1])
  {
    if es != [] {
      PrecedeMeans(es[..|es| - 1]);
    }
  }

  /** The filter passes an event exactly when it is not incomplete. */
  lemma GrabbedIffComplete(before: seq<Event>, e: Event)
    ensures Grabbed(PrecedeAfter(before), e).1 <==> !Incomplete(before, e)
  {
    PrecedeMeans(before);
  }

  lemma ReportedNext(es: seq<Event>, n: nat)
    requires n < |es|
    ensures es[..n + 1][..n] == es[..n]
    ensures Reported(es[..n + 1]) == Reported(es[..n]) + if Incomplete(es[..n], es[n]) then [] else [es[n]]
    ensures PrecedeAfter(es[..n + 1]) == Grabbed(PrecedeAfter(es[..n]), es[n]).0
  {
    assert es[..n + 1][..n] == es[..n];
  }

  // ----- what the reported stream looks like -----

  lemma LastLeftAppend(es: seq<Event>, e: Event)
    ensures LastLeftIsDown(es + [e]) == if IsLeft(e) then IsDown(e) else LastLeftIsDown(es)
  {
    assert (es + [e])[..|es|] == es;
  }

  /** Reported events tell the same story about the button as all events. */
  lemma {:induction false} ReportedLastLeft(es: seq<Event>)
    ensures LastLeftIsDown(Reported(es)) == LastLeftIsDown(es)
  {
    if es != [] {
      var before, e := es[..|es| - 1], es[|es| - 1];
      ReportedLastLeft(before);
      LastLeftAppend(Reported(before), e);
      assert Reported(before) + [] == Reported(before);
    }
  }

  /** No reported up has anything but a down as the reported left-button event
      before it. */
  lemma {:induction false} ReportedUpsHaveDowns(es: seq<Event>, j: nat)
    requires j < |Reported(es)| && IsUp(Reported(es)[j])
    ensures LastLeftIsDown(Reported(es)[..j])
  {
    var before, e := es[..|es| - 1], es[|es| - 1];
    var out := Reported(before);
    if j < |out| {
      ReportedUpsHaveDowns(before, j);
      assert Reported(es)[..j] == out[..j];
    } else {
      ReportedLastLeft(before);
      assert Reported(es)[..j] == out;
    }
  }

  function Downs(es: seq<Event>): seq<Event> {
    if es == [] then []
    else Downs(es[..|es| - 1]) + if IsDown(es[|es| - 1]) then [es[|es| - 1]] else []
  }

  lemma DownsAppend(es: seq<Event>, e: Event)
    ensures Downs(es + [e]) == Downs(es) + if IsDown(e) then [e] else []
  {
    assert (es + [e])[..|es|] == es;
  }

  /** Every down is reported. */
  lemma {:induction false} ReportedDowns(es: seq<Event>)
    ensures Downs(Reported(es)) == Downs(es)
  {
    if es != [] {
      var before, e := es[..|es| - 1], es[|es| - 1];
      ReportedDowns(before);
      DownsAppend(Reported(before), e);
      assert Reported(before) + [] == Reported(before);
      assert Downs(before) + [] == Downs(before);
    }
  }

  /** Ups without a down before them. */
  function LoneUps(es: seq<Event>): nat {
    if es == [] then 0
    else
      var before, e := es[..|es| - 1], es[|es| - 1];
      LoneUps(before) + if IsUp(e) && !LastLeftIsDown(before) then 1 else 0
  }

  /** Events of other kinds. */
  function Others(es: seq<Event>): nat {
    if es == [] then 0 else Others(es[..|es| - 1]) + if IsLeft(es[|es| - 1]) then 0 else 1
  }

  lemma OthersAppend(es: seq<Event>, e: Event)
    ensures Others(es + [e]) == Others(es) + if IsLeft(e) then 0 else 1
  {
    assert (es + [e])[..|es|] == es;
  }

  /** Of the left-button events exactly the lone ups are dropped, and each of
      them takes at most one other event with it. */
  lemma {:induction false} DroppedEvents(es: seq<Event>)
    ensures |es| - Others(es) == |Reported(es)| - Others(Reported(es)) + LoneUps(es)
    ensures Others(es) <= Others(Reported(es)) + LoneUps(es)
    ensures PrecedeAfter(es) == Syn ==> Others(es) < Others(Reported(es)) + LoneUps(es)
  {
    if es != [] {
      var before, e := es[..|es| - 1], es[|es| - 1];
      DroppedEvents(before);
      PrecedeMeans(before);
      PrecedeMeans(es);
      OthersAppend(Reported(before), e);
      assert Reported(before) + [] == Reported(before);
    }
  }
}

/** The handler of the input driver: filter and report each event, then make all
    buffers available again in one step.  The device owns the other buffers all
    the while. */
module VirtinDriver {
  import opened VirtqRing
  import opened RxModel
  import opened BatchedRx
  import EventFilter

  type Event = EventFilter.Event

  const EVENT_SIZE: nat := 8   // type, code and value: 2, 2 and 4 bytes

  class Virtin {
    const b: BatchedQueue<Event>
    var precedeDown: EventFilter.Precede
    var reported: seq<Event>        // calls of HidReportEvent
    ghost var ahead: nat            // 1 once the event in hand has been filtered

    /** Events that went through the filter. */
    ghost function Seen(): int
      reads `ahead, b`m, b.q`nLast, b.q`cur
    {
      b.Processed() + ahead
    }

    ghost predicate Filtered()
      reads `precedeDown, `reported, `ahead, b`m, b`arrived, b.q`nLast, b.q`cur
    {
      && 0 <= Seen() <= |b.arrived|
      && precedeDown == EventFilter.PrecedeAfter(b.arrived[..Seen()])
      && reported == EventFilter.Reported(b.arrived[..Seen()])
    }

    ghost predicate Valid()
      reads `precedeDown, `reported, `ahead, b`trace, b`m, b`arrived, b.buf
      reads b.q`published, b.q`staged, b.q`nSeen, b.q`availIndex, b.q`seen
      reads b.q`held, b.q.ring, b.q`completed, b.q`raised, b.q`nLast, b.q`cur, b.q`usedIndex, b.q`last, b.q.elems
      reads b.q`flag, b.q`stored, b.q.desc
    {
      b.Valid() && Filtered()
    }

    constructor (queue: Virtq, ev: int)
      requires queue.Valid() && queue.Untouched()
      modifies queue.desc, queue.ring, queue`staged, queue`published, queue`availIndex
      ensures Valid() && fresh(b) && fresh(b.buf) && b.q == queue && b.base == ev && b.size == 8
      ensures ahead == 0 && reported == [] && b.m == Init(queue.qsz)
      ensures |queue.staged| == |queue.completed| == queue.cur == queue.nLast == 0
    {
      hide BatchedQueue.Valid;
      b := new BatchedQueue(queue, ev, EVENT_SIZE);
      precedeDown, reported, ahead := EventFilter.No, [], 0;
      new;
      assert b.arrived == [];
    }

    method Device()
      requires Valid()
      modifies b, b.q, b.q.elems, b.buf
      ensures Valid() && b.Processed() == old(b.Processed())
      ensures b.q.flag == old(b.q.flag) && b.q.cur == old(b.q.cur) && b.q.nLast == old(b.q.nLast)
      ensures b.q.staged == old(b.q.staged) && b.q.published == old(b.q.published) && b.m.hand == old(b.m.hand)
      ensures |b.q.Used()| >= old(|b.q.Used()|)
      ensures old(b.arrived) <= b.arrived && old(b.q.completed) <= b.q.completed && old(b.q.raised) <= b.q.raised
      ensures b.q.stored == old(b.q.stored) && b.q.flags == old(b.q.flags) && reported == old(reported)
    {
      hide BatchedQueue.Valid, EventFilter.PrecedeAfter, EventFilter.Reported;
      b.DeviceSteps();
      assert b.arrived[..Seen()] == old(b.arrived[..Seen()]);
    }

    /** `VirtinGrabbed`: the static variable is updated in place. */
    method VirtinGrabbed(ev: Event) returns (report: bool)
      modifies `precedeDown
      ensures (precedeDown, report) == EventFilter.Grabbed(old(precedeDown), ev)
    {
      if ev.typ == EventFilter.EV_KEY && ev.code == EventFilter.BTN_LEFT {
        if ev.value == 1 {
          precedeDown := EventFilter.Yes;
        } else if precedeDown == EventFilter.Yes {
          precedeDown := EventFilter.No;
        } else {
          precedeDown := EventFilter.Syn;
          return false;
        }
      }
      if precedeDown == EventFilter.Syn {
        precedeDown := EventFilter.No;
        return false;
      }
      return true;
    }

    /** Filter the event in hand and report it if it passes. */
    method Handle(idx: int)
      requires Valid() && ahead == 0 && 0 <= idx < b.buf.Length
      requires 0 <= b.Processed() < |b.arrived| && b.buf[idx] == b.arrived[b.Processed()]
      modifies `precedeDown, `reported, `ahead
      ensures Valid() && ahead == 1 && old(reported) <= reported
    {
      hide BatchedQueue.Valid, EventFilter.PrecedeAfter, EventFilter.Reported;
      hide EventFilter.Incomplete, EventFilter.Grabbed;
      EventFilter.ReportedNext(b.arrived, Seen());
      EventFilter.GrabbedIffComplete(b.arrived[..Seen()], b.buf[idx]);
      var pass := VirtinGrabbed(b.buf[idx]);
      if pass {
        reported := reported + [b.buf[idx]];
      } else {
        assert reported + [] == reported;
      }
      ahead := 1;
    }

    method PickUp() returns (idx: int)
      requires Valid() && ahead == 0 && b.q.cur == 0 && b.q.Used() != []
      modifies b`m, b`trace, b.q`cur
      ensures Valid() && b.q.cur == 1 && b.m.hand == [idx] && b.Processed() == old(b.Processed())
      ensures 0 <= idx < b.buf.Length && 0 <= b.Processed() < |b.arrived| && b.buf[idx] == b.arrived[b.Processed()]
      ensures b.arrived == old(b.arrived)
    {
      hide BatchedQueue.Valid, EventFilter.PrecedeAfter, EventFilter.Reported;
      var e := b.PickUp();
      idx := e.id;
    }

    method Recycle(add: nat, idx: int)
      requires Valid() && ahead == 1 && b.q.cur == 1 && b.m.hand == [idx] && add == |b.q.staged|
      modifies b`m, b`trace, b.q.ring, b.q`staged, `ahead
      ensures Valid() && ahead == 0 && b.m.hand == [] && |b.q.staged| == add + 1 <= b.q.qsz
    {
      hide BatchedQueue.Valid, EventFilter.PrecedeAfter, EventFilter.Reported;
      b.Recycle(add, idx);
      b.BatchFits();
      ahead := 0;
    }

    method Finish()
      requires Valid() && b.q.cur == 1 && b.m.hand == []
      modifies b.q`last, b.q`nLast, b.q`cur
      ensures Valid() && b.q.cur == 0 && b.q.nLast == old(b.q.nLast) + 1
    {
      hide BatchedQueue.Valid, EventFilter.PrecedeAfter, EventFilter.Reported;
      b.Finish();
    }

    /** One round of the loop. */
    method HandleOne(add: nat)
      requires Valid() && ahead == 0 && b.q.cur == 0 && b.m.hand == [] && b.q.Used() != [] && add == |b.q.staged|
      modifies this, b, b.q, b.q.ring, b.q.elems, b.buf
      ensures Valid() && ahead == 0 && b.q.cur == 0 && b.m.hand == []
      ensures |b.q.staged| == add + 1 <= b.q.qsz
      ensures b.q.published == old(b.q.published) && b.q.nLast == old(b.q.nLast) + 1
      ensures b.q.flag == old(b.q.flag) && b.q.stored == old(b.q.stored) && old(b.q.completed) <= b.q.completed
      ensures b.q.flags == old(b.q.flags)
      ensures old(b.q.raised) <= b.q.raised && old(b.arrived) <= b.arrived && old(reported) <= reported
    {
      hide *;
      Device();
      var idx := PickUp();
      Handle(idx);
      Device();
      Recycle(add, idx);
      Device();
      Finish();
    }

    /** `last != used->index`. */
    method Pending() returns (some: bool)
      requires Valid() && b.q.cur == 0
      ensures some <==> b.q.Used() != []
      ensures !some ==> |b.q.completed| == |b.q.raised| == b.q.nLast
    {
      hide EventFilter.PrecedeAfter, EventFilter.Reported;
      some := b.Pending();
    }

    /** `avail->flag = v`. */
    method SetFlag(v: int)
      requires Valid()
      modifies b.q`flag, b.q`stored, b.q`flags
      ensures Valid() && b.q.flag == v && b.q.stored == |b.q.completed| && b.q.flags == old(b.q.flags) + [v]
    {
      hide BatchedQueue.Valid, EventFilter.PrecedeAfter, EventFilter.Reported;
      b.SetFlag(v);
    }

    /** The handler.  What had been completed before is handled, in order.  There
        is no second check after interrupts are enabled again, so the completions
        left behind without an interrupt are exactly those made before the store
        that enables them. */
    method VirtinHandleEv() returns (ghost n: nat)
      requires Valid() && ahead == 0 && b.q.cur == 0 && b.m.hand == [] && |b.q.staged| == 0
      modifies this, b, b.q, b.q.ring, b.q.elems, b.buf
      ensures Valid() && ahead == 0 && b.q.cur == 0 && b.m.hand == [] && |b.q.staged| == 0
      ensures n <= b.q.qsz && b.q.nLast == old(b.q.nLast) + n
      ensures Republished(b.q.published, old(|b.q.published|), b.q.completed, old(b.q.nLast), n)
      ensures old(b.q.published) <= b.q.published && old(b.q.completed) <= b.q.completed
      ensures old(b.q.raised) <= b.q.raised
      ensures old(|b.q.completed|) <= b.q.nLast <= b.q.stored && b.q.flag == 0
      ensures LeftBehind(b.q.raised, b.q.nLast, b.q.stored) && b.q.flags == old(b.q.flags) + [1] + [0]
      ensures old(b.arrived) <= b.arrived && old(reported) <= reported
      ensures b.q.nLast <= |b.arrived| && reported == EventFilter.Reported(b.arrived[..b.q.nLast])
    {
      hide Valid, Republished, BatchedQueue.Valid, Virtq.Used, LeftBehind, EventFilter.Reported;
      SetFlag(NO_INTERRUPT);
      var add := 0;
      ghost var last := b.q.nLast;
      Device();
      var some := Pending();
      while some
        invariant Valid() && ahead == 0 && b.q.cur == 0 && b.m.hand == []
        invariant |b.q.staged| == add <= b.q.qsz && b.q.nLast == last + add
        invariant b.q.published == old(b.q.published) && b.q.flag == NO_INTERRUPT
        invariant old(b.q.completed) <= b.q.completed && old(b.q.raised) <= b.q.raised
        invariant old(b.arrived) <= b.arrived && old(reported) <= reported
        invariant b.q.stored == old(|b.q.completed|) && b.q.flags == old(b.q.flags) + [1]
        invariant some <==> b.q.Used() != []
        invariant !some ==> |b.q.completed| == |b.q.raised| == b.q.nLast
        decreases b.q.qsz - add
      {
        HandleOne(add);
        add := add + 1;
        Device();
        some := Pending();
      }
      n := add;
      MakeAvailable(add, last);
      ReportsFiltered();
    }

    /** After the loop: publish the batch, then enable interrupts. */
    method MakeAvailable(add: nat, ghost last: nat)
      requires Valid() && ahead == 0 && b.q.cur == 0 && b.m.hand == [] && add == |b.q.staged|
      requires b.q.nLast == last + add == |b.q.raised| && b.q.flag == NO_INTERRUPT && b.q.stored <= b.q.nLast
      modifies this, b, b.q, b.q.elems, b.buf
      ensures Valid() && ahead == 0 && b.q.cur == 0 && b.m.hand == [] && |b.q.staged| == 0 && b.q.nLast == last + add
      ensures Republished(b.q.published, old(|b.q.published|), b.q.completed, last, add)
      ensures old(b.q.published) <= b.q.published && old(b.q.completed) <= b.q.completed
      ensures old(b.q.raised) <= b.q.raised
      ensures old(b.arrived) <= b.arrived && reported == old(reported)
      ensures b.q.flag == 0 && b.q.nLast <= b.q.stored && LeftBehind(b.q.raised, b.q.nLast, b.q.stored)
      ensures b.q.flags == old(b.q.flags) + [0]
    {
      hide Valid, Republished, BatchedQueue.Valid, FlagSide, LeftBehind;
      Device();
      ghost var from := |b.q.published|;
      CommitBatch(add, last);
      ghost var done := b.q.completed;
      Device();
      FlagIs();
      ghost var before, stored := b.q.raised, b.q.stored;
      SetFlag(0);
      Device();
      FlagIs();
      RepublishedLater(b.q.published, from, done, b.q.completed, last, add);
      SplitByFlag(before, b.q.raised, stored, b.q.nLast);
    }

    lemma FlagIs()
      requires Valid()
      ensures FlagSide(b.q.flag, b.q.raised, b.q.stored) && |b.q.raised| == |b.q.completed|
    {
      hide FlagSide, AvailSide, UsedSide, EventFilter.PrecedeAfter, EventFilter.Reported, Intact, BatchIs;
    }

    method CommitBatch(add: nat, ghost last: nat)
      requires Valid() && b.q.cur == 0 && b.m.hand == [] && add == |b.q.staged| && b.q.nLast == last + add
      modifies b`m, b`trace, b.q`staged, b.q`availIndex, b.q`published
      ensures Valid() && |b.q.staged| == 0 && b.q.published == old(b.q.published) + old(b.q.staged) && b.m.hand == []
      ensures Republished(b.q.published, old(|b.q.published|), b.q.completed, last, add)
    {
      hide BatchedQueue.Valid, EventFilter.PrecedeAfter, EventFilter.Reported, Republished;
      b.CommitBatch(add, last);
    }

    /** One run of the handler in which the device makes a completion after the last
        look at the ring and before the store that enables interrupts: possible in
        every state in which nothing waits to be handled and the device has a
        buffer to fill.  The completion is left behind and raised no interrupt. */
    method LeavesOneBehind(len: int, ev: Event)
      requires Valid() && ahead == 0 && b.q.cur == 0 && b.m.hand == [] && |b.q.staged| == 0
      requires b.q.Used() == [] && (b.q.held != [] || b.q.Avail() != []) && b.q.credit > 0
      modifies this, b, b.q, b.q.ring, b.q.elems, b.buf
      ensures Valid() && ahead == 0 && b.q.cur == 0 && b.m.hand == [] && |b.q.staged| == 0
      ensures b.q.flag == 0 && b.q.nLast < b.q.stored == |b.q.raised| && !b.q.raised[b.q.nLast]
      ensures b.q.nLast == old(b.q.nLast) && reported == old(reported)
      ensures b.q.flags == old(b.q.flags) + [1] + [0]
    {
      hide Valid;
      SetFlag(NO_INTERRUPT);
      var some := Pending();
      assert !some;
      CommitBatch(0, b.q.nLast);
      DeviceFills(len, ev);
      FlagIs();
      SetFlag(0);
    }

    /** The device fills a buffer with `ev`, fetching one first if it holds none. */
    method DeviceFills(len: int, ev: Event)
      requires Valid() && (b.q.held != [] || b.q.Avail() != []) && b.q.credit > 0
      modifies b`m, b`trace, b`arrived, b.q`seen, b.q`held, b.q`nSeen
      modifies b.q`usedIndex, b.q`completed, b.q`raised, b.q`credit, b.q.elems, b.buf
      ensures Valid() && b.m.hand == old(b.m.hand) && |b.q.completed| == old(|b.q.completed|) + 1
      ensures b.q.raised == old(b.q.raised) + [b.q.flag == 0]
    {
      hide BatchedQueue.Valid, EventFilter.PrecedeAfter, EventFilter.Reported;
      if b.q.held == [] {
        b.DeviceFetch();
      }
      b.DeviceComplete(0, len, ev);
      assert b.arrived[..Seen()] == old(b.arrived[..Seen()]);
    }

    /** What has been reported is what should be reported of the events the
        handler has gone through, in the order the device completed them. */
    lemma ReportsFiltered()
      requires Valid() && ahead == 0 && b.q.cur == 0 && b.m.hand == []
      ensures b.q.nLast <= |b.arrived| && reported == EventFilter.Reported(b.arrived[..b.q.nLast])
    {
      hide BatchedQueue.Valid, EventFilter.PrecedeAfter, EventFilter.Reported;
    }
  }
}
