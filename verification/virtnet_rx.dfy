/** The receive half of the RISC-V virtio network driver.  Received buffers are
    lent to the IP stack without copying; the stack gives each back when it is
    done with it, at any time and in any order. */
module VirtnetRxDriver {
  import opened Counting
  import opened Traces
  import opened RingIndex
  import opened VirtqRing
  import opened RxModel

  const HDR_BYTES: nat := 12                        // sizeof(struct VirtnetHdr)
  const RXBUF_BYTES: nat := HDR_BYTES + 1514        // and a frame
  const VIRTQ_RXBUF_SIZE: nat := RXBUF_BYTES + 2    // a multiple of 4

  /** A received packet as it is handed to the stack: its buffer, where the frame
      starts, and how long it is. */
  datatype Pbuf = Pbuf(id: int, payload: int, len: uint16)

  /** What `LowLevelInput` should make of a completion, with buffers every 1528 bytes
      from `base` on. */
  function PbufOf(base: int, ethPad: nat, e: UsedElem): (p: Pbuf)
    ensures p.id == e.id
  {
    Pbuf(e.id, base + e.id * 1528 + 12 - ethPad, ((e.len - 12) % U16 + ethPad) % U16)
  }

  lemma PbufIs(base: int, ethPad: nat, e: UsedElem)
    requires e.id >= 0
    ensures PbufOf(base, ethPad, e)
         == Pbuf(e.id, AddressOf(base, VIRTQ_RXBUF_SIZE, e.id) + HDR_BYTES - ethPad,
                 ((e.len - HDR_BYTES) % U16 + ethPad) % U16)
  {
  }

  function IdsOf(input: seq<Pbuf>): seq<int> {
    if input == [] then [] else IdsOf(input[..|input| - 1]) + [input[|input| - 1].id]
  }

  /** The buffers of the packets for which the stack's answer was `answer`. */
  function AnsweredIds(input: seq<Pbuf>, answers: seq<bool>, answer: bool): seq<int>
    requires |answers| == |input|
  {
    if input == [] then []
    else
      var n := |input| - 1;
      AnsweredIds(input[..n], answers[..n], answer) + if answers[n] == answer then [input[n].id] else []
  }

  lemma AnsweredNext(input: seq<Pbuf>, answers: seq<bool>, answer: bool, p: Pbuf, a: bool)
    requires |answers| == |input|
    ensures AnsweredIds(input + [p], answers + [a], answer)
         == AnsweredIds(input, answers, answer) + if a == answer then [p.id] else []
  {
    assert (input + [p])[..|input|] == input && (answers + [a])[..|input|] == answers;
  }

  lemma IdsNext(input: seq<Pbuf>, p: Pbuf)
    ensures IdsOf(input + [p]) == IdsOf(input) + [p.id]
  {
    assert (input + [p])[..|input|] == input;
  }

  lemma {:induction false} AnsweredParts(input: seq<Pbuf>, answers: seq<bool>)
    requires |answers| == |input|
    ensures multiset(IdsOf(input))
         == multiset(AnsweredIds(input, answers, true)) + multiset(AnsweredIds(input, answers, false))
  {
    if input != [] {
      var n := |input| - 1;
      AnsweredParts(input[..n], answers[..n]);
      assert AnsweredIds(input[..n], answers[..n], true) + [] == AnsweredIds(input[..n], answers[..n], true);
      assert AnsweredIds(input[..n], answers[..n], false) + [] == AnsweredIds(input[..n], answers[..n], false);
    }
  }

  /** What was handed to the stack it still has, or it was given back. */
  ghost predicate Accounted(lent: seq<int>, freed: seq<int>, refused: seq<int>, input: seq<Pbuf>) {
    multiset(lent) + multiset(freed) + multiset(refused) == multiset(IdsOf(input))
  }

  lemma AccountedLend(lent: seq<int>, freed: seq<int>, refused: seq<int>, input: seq<Pbuf>, p: Pbuf)
    requires Accounted(lent, freed, refused, input)
    ensures Accounted(lent + [p.id], freed, refused, input + [p])
  {
    IdsNext(input, p);
  }

  lemma AccountedGive(lent: seq<int>, freed: seq<int>, refused: seq<int>, input: seq<Pbuf>, k: nat)
    requires Accounted(lent, freed, refused, input) && k < |lent|
    ensures Accounted(lent[..k] + lent[k + 1..], freed + [lent[k]], refused, input)
    ensures Accounted(lent[..k] + lent[k + 1..], freed, refused + [lent[k]], input)
  {
    assert lent == lent[..k] + [lent[k]] + lent[k + 1..];
  }

  /** The handler has given back what the stack refused, so the stack has, or has
      freed, what it accepted. */
  lemma AccountedAnswers(lent: seq<int>, freed: seq<int>, refused: seq<int>, input: seq<Pbuf>, answers: seq<bool>)
    requires Accounted(lent, freed, refused, input) && |answers| == |input|
    requires refused == AnsweredIds(input, answers, false)
    ensures multiset(lent) + multiset(freed) == multiset(AnsweredIds(input, answers, true))
  {
    AnsweredParts(input, answers);
    assert multiset(lent) + multiset(freed)
        == multiset(lent) + multiset(freed) + multiset(refused) - multiset(refused);
    assert multiset(AnsweredIds(input, answers, true)) == multiset(IdsOf(input)) - multiset(refused);
  }

  /** What has been given back is exactly what was refused. */
  ghost predicate AnsweredBy(input: seq<Pbuf>, answers: seq<bool>, refused: seq<int>) {
    |answers| == |input| && refused == AnsweredIds(input, answers, false)
  }

  /** The answer to one more packet has been acted upon. */
  lemma AnswerTaken(input: seq<Pbuf>, answers: seq<bool>, refused: seq<int>, p: Pbuf, accepted: bool,
                    refused': seq<int>)
    requires AnsweredBy(input, answers, refused)
    requires refused' == if accepted then refused else refused + [p.id]
    ensures AnsweredBy(input + [p], answers + [accepted], refused')
  {
    AnsweredNext(input, answers, false, p, accepted);
    assert refused + [] == refused;
  }

  class VirtNetifRx {
    const q: Virtq              // dev.vq[0]
    const base: int             // where the first buffer is
    const ethPad: nat           // ETH_PAD_SIZE
    var lent: seq<int>          // buffers the stack has
    var input: seq<Pbuf>        // calls of netif->input,
    var answers: seq<bool>      // ... and whether they accepted the packet
    var freed: seq<int>         // calls of ReleaseRxEntry by the stack,
    var refused: seq<int>       // ... and by the handler
    ghost var trace: seq<Event>
    ghost var m: Rx

    /** Every buffer is where the machine says it is. */
    ghost predicate PlacesAre(t: Rx)
      reads `lent, q`published, q`nSeen, q`held, q`completed, q`nLast, q`cur
    {
      && t.avail == q.Avail() && t.held == q.held && UsedIds(t.used, q.Used()) && t.away == lent
      && q.cur <= 1 && |t.hand| <= q.cur && q.nLast + q.cur <= |q.completed|
      && (|t.hand| == 1 ==> t.hand[0] == q.Current().id)
    }

    /** Each completion was handed to the stack once, in order. */
    ghost predicate Delivered()
      reads `input, `m, q`completed, q`nLast, q`cur
    {
      && |input| == q.nLast + q.cur - |m.hand| && |input| <= |q.completed|
      && forall i :: 0 <= i < |input| ==> input[i] == PbufOf(base, ethPad, q.completed[i])
    }

    /** The handler has given back exactly what the stack refused. */
    ghost predicate Answered()
      reads `input, `answers, `refused
    {
      AnsweredBy(input, answers, refused)
    }

    ghost predicate Valid()
      reads `lent, `input, `freed, `refused, `trace, `m
      reads q`published, q`staged, q`nSeen, q`availIndex, q`seen, q`held, q.ring
      reads q`completed, q`raised, q`nLast, q`cur, q`usedIndex, q`last, q.elems, q`flag, q`stored, q.desc
    {
      && q.Valid() && q.desc.Length == q.qsz
      && q.desc as object != q.ring && q.desc as object != q.elems
      && Wired(q.desc[..], base, VIRTQ_RXBUF_SIZE, RXBUF_BYTES)
      && Accounted(lent, freed, refused, input)
      && Run(q.qsz, trace) == Reached(m) && Inv(q.qsz, m)
      && PlacesAre(m) && Delivered()
    }

    /** Completions the handler may still see. */
    ghost function Budget(): nat
      reads q`completed, q`nLast, q`cur, q`credit
    {
      q.credit + |q.Used()|
    }

    /** `ConfigRxBuffer` and the first notification. */
    constructor (queue: Virtq, buf: int, pad: nat)
      requires queue.Valid() && queue.Untouched()
      modifies queue.desc, queue.ring, queue`staged, queue`published, queue`availIndex
      ensures Valid() && Answered() && q == queue && base == buf && ethPad == pad && m == Init(q.qsz)
      ensures |q.staged| == |lent| == |input| == |answers| == |freed| == |refused| == q.cur == 0
      ensures forall i :: 0 <= i < q.desc.Length ==>
                q.desc[i].pAddr == buf + i * 1528 && q.desc[i].len == 1526 && q.desc[i].flag == 2
    {
      hide Virtq.Valid, Range, Inv, Run, PlacesAre, Delivered, Init, Virtq.Avail, Virtq.Used;
      q, base, ethPad := queue, buf, pad;
      lent, input, answers, freed, refused := [], [], [], [], [];
      trace, m := [], Init(queue.qsz);
      new;
      QueueArrays();
      q.Offer(seq(q.qsz, i requires 0 <= i < q.qsz => AddressOf(buf, VIRTQ_RXBUF_SIZE, i)), RXBUF_BYTES);
      QueueArrays();
      InitInv(q.qsz);
      InitRun(q.qsz);
      FreshPlaces();
    }

    lemma QueueArrays()
      requires q.Valid()
      ensures q.desc.Length == q.qsz && q.desc as object != q.ring && q.desc as object != q.elems
    {
    }

    lemma FreshPlaces()
      requires q.Avail() == Range(q.qsz) && |q.held| == |q.completed| == |lent| == |input| == q.nLast == q.cur == 0
      requires m == Init(q.qsz)
      ensures PlacesAre(m) && Delivered()
    {
      hide Range;
    }

    ghost method Follow(e: Event)
      requires Run(q.qsz, trace) == Reached(m) && Inv(q.qsz, m) && Enabled(m, e)
      modifies `m, `trace
      ensures m == Step(old(m), e) && Run(q.qsz, trace) == Reached(m) && Inv(q.qsz, m)
      ensures trace == old(trace) + [e]
    {
      RunExtend(q.qsz, trace, m, e);
      StepInv(q.qsz, m, e);
      m, trace := Step(m, e), trace + [e];
    }

    method DeviceFetch()
      requires Valid() && q.Avail() != []
      modifies q`seen, q`held, q`nSeen, `m, `trace
      ensures Valid() && m.hand == old(m.hand) && Budget() == old(Budget())
    {
      hide Virtq.Valid, Run, Inv, UsedIds, Wired, Accounted, PbufOf;
      q.Fetch();
      Follow(Event.Fetch);
    }

    method DeviceComplete(k: nat, len: int)
      requires Valid() && k < |q.held| && q.credit > 0
      modifies q`usedIndex, q`held, q`completed, q`raised, q`credit, q.elems, `m, `trace
      ensures Valid() && m.hand == old(m.hand) && Budget() == old(Budget()) && |q.Used()| >= old(|q.Used()|)
      ensures old(q.completed) <= q.completed && old(q.raised) <= q.raised
      ensures old(q.cur) == 1 ==> q.Current() == old(q.Current())
    {
      hide Virtq.Valid, Run, Inv, UsedIds, Virtq.Avail, Virtq.Used, Wired, Accounted, PbufOf;
      UsedComplete(m.used, q.Used(), UsedElem(q.held[k], len));
      q.Complete(k, len);
      Follow(Event.Complete(k));
    }

    /** Any number of device steps, in any order. */
    method DeviceSteps()
      requires Valid()
      modifies q`seen, q`held, q`nSeen, q`usedIndex, q`completed, q`raised, q`credit, q.elems, `m, `trace
      ensures Valid() && m.hand == old(m.hand) && Budget() == old(Budget()) && |q.Used()| >= old(|q.Used()|)
      ensures old(q.completed) <= q.completed && old(q.raised) <= q.raised
      ensures old(q.cur) == 1 ==> q.Current() == old(q.Current())
    {
      hide Valid, Budget;
      var steps: nat := *;
      while steps > 0
        invariant Valid() && m.hand == old(m.hand) && Budget() == old(Budget()) && |q.Used()| >= old(|q.Used()|)
        invariant old(q.completed) <= q.completed && old(q.raised) <= q.raised
        invariant old(q.cur) == 1 ==> q.Current() == old(q.Current())
      {
        if * {
          var some := AnyAvail();
          if some {
            DeviceFetch();
          }
        } else if q.held != [] && q.credit > 0 {
          var k: nat :| k < |q.held|;
          var len: int := *;
          DeviceComplete(k, len);
        }
        steps := steps - 1;
      }
    }

    method AnyAvail() returns (some: bool)
      requires Valid()
      ensures some <==> q.Avail() != []
    {
      some := q.HasAvail();
    }

    /** `ReleaseRxEntry`: the stack, or the handler for a packet it refused,
        gives back buffer `lent[k]`.  The lock makes the two stores one step for
        every other user of the ring, but not for the device. */
    method ReleaseRxEntry(k: nat, byStack: bool)
      requires Valid() && k < |lent| && q.staged == []
      modifies q.ring, q`staged, q`availIndex, q`published, `lent, `freed, `refused
      modifies q`seen, q`held, q`nSeen, q`usedIndex, q`completed, q`raised, q`credit, q.elems, `m, `trace
      ensures Valid() && q.staged == [] && lent == old(lent)[..k] + old(lent)[k + 1..]
      ensures freed == if byStack then old(freed) + [old(lent)[k]] else old(freed)
      ensures refused == if byStack then old(refused) else old(refused) + [old(lent)[k]]
      ensures m.hand == old(m.hand) && Budget() == old(Budget()) && |q.Used()| >= old(|q.Used()|)
      ensures old(q.completed) <= q.completed && old(q.raised) <= q.raised
      ensures old(q.cur) == 1 ==> q.Current() == old(q.Current())
    {
      hide Budget, Valid;
      var id := lent[k];
      StageBack(k);
      DeviceSteps();
      CommitBack(k, id, byStack);
    }

    method StageBack(k: nat)
      requires Valid() && k < |lent| && q.staged == []
      modifies q.ring, q`staged
      ensures Valid() && q.staged == [lent[k]]
    {
      hide Virtq.Valid, Run, UsedIds, Wired, Accounted, PbufOf, Inv, Virtq.Avail, Virtq.Used;
      RoomToGive();
      q.Stage(0, lent[k]);
    }

    /** A buffer the stack has is not in the ring. */
    lemma RoomToGive()
      requires Inv(q.qsz, m) && PlacesAre(m) && lent != []
      ensures |q.Avail()| + |q.held| + |q.Used()| < q.qsz
    {
      UsedLength(m.used, q.Used());
    }

    method CommitBack(k: nat, id: int, byStack: bool)
      requires Valid() && k < |lent| && |q.staged| == 1 && q.staged[0] == lent[k] == id
      modifies q`staged, q`availIndex, q`published, `lent, `freed, `refused, `m, `trace
      ensures Valid() && q.staged == [] && lent == old(lent)[..k] + old(lent)[k + 1..]
      ensures m.hand == old(m.hand) && q.published == old(q.published) + [id]
      ensures freed == if byStack then old(freed) + [id] else old(freed)
      ensures refused == if byStack then old(refused) else old(refused) + [id]
    {
      hide Virtq.Valid, Run, Inv, UsedIds, Virtq.Used, Virtq.Avail, Wired, Accounted, PbufOf;
      q.Commit(1);
      AccountedGive(lent, freed, refused, input, k);
      lent := lent[..k] + lent[k + 1..];
      if byStack {
        freed := freed + [id];
      } else {
        refused := refused + [id];
      }
      Follow(GiveBack(k));
    }

    /** What may happen between two steps of the handler: device steps, and the
        stack giving back buffers it holds. */
    method Environment()
      requires Valid() && q.staged == []
      modifies q.ring, q`staged, q`availIndex, q`published, `lent, `freed, `refused
      modifies q`seen, q`held, q`nSeen, q`usedIndex, q`completed, q`raised, q`credit, q.elems, `m, `trace
      ensures Valid() && q.staged == [] && m.hand == old(m.hand) && refused == old(refused)
      ensures Budget() == old(Budget()) && |q.Used()| >= old(|q.Used()|)
      ensures old(q.completed) <= q.completed && old(q.raised) <= q.raised
      ensures old(q.cur) == 1 ==> q.Current() == old(q.Current())
    {
      hide Valid, Budget;
      var times: nat := *;
      while times > 0
        invariant Valid() && q.staged == [] && m.hand == old(m.hand) && refused == old(refused)
        invariant Budget() == old(Budget()) && |q.Used()| >= old(|q.Used()|)
        invariant old(q.completed) <= q.completed && old(q.raised) <= q.raised
        invariant old(q.cur) == 1 ==> q.Current() == old(q.Current())
      {
        if * {
          DeviceSteps();
        } else if lent != [] {
          var k: nat :| k < |lent|;
          ReleaseRxEntry(k, true);
        }
        times := times - 1;
      }
    }

    /** `last == used->index`, and what an empty ring means for interrupts. */
    method Pending() returns (some: bool)
      requires Valid() && q.cur == 0
      ensures some <==> q.Used() != []
      ensures !some ==> q.nLast == |q.completed|
    {
      some := q.HasUsed();
    }

    /** `avail->flag = v`. */
    method SetFlag(v: int)
      requires Valid()
      modifies q`flag, q`stored, q`flags
      ensures Valid() && q.flag == v && q.stored == |q.completed| && q.flags == old(q.flags) + [v]
    {
      hide Virtq.Valid, Run, Inv, UsedIds, Wired, Accounted, PbufOf;
      q.SetFlag(v);
    }

    method PickUp() returns (e: UsedElem)
      requires Valid() && q.cur == 0 && q.Used() != []
      modifies q`cur, `m, `trace
      ensures Valid() && q.cur == 1 && e == q.Current() && m.hand == [e.id] && Budget() + 1 == old(Budget())
    {
      hide Run, Inv, Virtq.Valid, Virtq.Avail, Wired, Accounted, PbufOf;
      UsedTake(m.used, q.Used());
      assert q.Used() == q.completed[q.nLast..];
      e := q.Take();
      Follow(Event.Take);
    }

    /** `LowLevelInput`: the frame is where the descriptor says, behind the header. */
    method LowLevelInput(e: UsedElem) returns (p: Pbuf)
      requires Valid() && m.hand == [e.id]
      ensures p == PbufOf(base, ethPad, e)
    {
      hide Virtq.Valid, Run, Inv, UsedIds, Wired, Accounted, PbufOf, AddressOf, PlacesAre, Delivered;
      HandInRange(q.qsz, m, e.id);
      PbufIs(base, ethPad, e);
      WiredAt(q.desc[..], base, VIRTQ_RXBUF_SIZE, RXBUF_BYTES, e.id);
      var payload := q.desc[e.id].pAddr + HDR_BYTES - ethPad;
      var len := (e.len - HDR_BYTES) % U16;
      p := Pbuf(e.id, payload, (len + ethPad) % U16);
    }

    /** `netif->input`, which may accept the packet or not. */
    method NetifInput() returns (accepted: bool)
      modifies `answers
      ensures answers == old(answers) + [accepted]
    {
      accepted := *;
      answers := answers + [accepted];
    }

    /** Hand a packet to the stack; if it does not accept it, its buffer goes
        straight back. */
    method Input(e: UsedElem)
      requires Valid() && Answered() && q.staged == [] && q.cur == 1 && e == q.Current() && m.hand == [e.id]
      modifies q.ring, q`staged, q`availIndex, q`published, `lent, `input, `answers, `freed, `refused
      modifies q`seen, q`held, q`nSeen, q`usedIndex, q`completed, q`raised, q`credit, q.elems, `m, `trace
      ensures Valid() && Answered() && q.staged == [] && m.hand == [] && Budget() == old(Budget())
      ensures old(q.completed) <= q.completed && old(q.raised) <= q.raised && |answers| == |old(answers)| + 1
      ensures input == old(input) + [PbufOf(base, ethPad, e)] && old(answers) <= answers && freed == old(freed)
      ensures lent == if answers[|old(answers)|] then old(lent) + [e.id] else old(lent)
    {
      hide Valid, Budget, AnsweredIds, PbufOf, AnsweredBy;
      var p := LowLevelInput(e);
      Lend(e, p);
      var accepted := NetifInput();
      if !accepted {
        GiveLastBack(old(lent), e.id);
      }
      AnswerTaken(old(input), old(answers), old(refused), p, accepted, refused);
    }

    /** `ReleaseRxEntry(buf)` by the handler. */
    method GiveLastBack(ghost before: seq<int>, id: int)
      requires Valid() && q.staged == [] && lent == before + [id]
      modifies q.ring, q`staged, q`availIndex, q`published, `lent, `freed, `refused
      modifies q`seen, q`held, q`nSeen, q`usedIndex, q`completed, q`raised, q`credit, q.elems, `m, `trace
      ensures Valid() && q.staged == [] && lent == before && freed == old(freed) && refused == old(refused) + [id]
      ensures m.hand == old(m.hand) && Budget() == old(Budget())
      ensures old(q.completed) <= q.completed && old(q.raised) <= q.raised
    {
      hide Valid, Budget;
      assert lent[..|before|] + lent[|before| + 1..] == before;
      ReleaseRxEntry(|lent| - 1, false);
    }

    method Lend(e: UsedElem, p: Pbuf)
      requires Valid() && q.cur == 1 && e == q.Current() && m.hand == [e.id] && p == PbufOf(base, ethPad, e)
      modifies `lent, `input, `m, `trace
      ensures Valid() && m.hand == [] && input == old(input) + [p] && lent == old(lent) + [e.id]
    {
      hide Virtq.Valid, Run, Inv, UsedIds, Wired, Accounted, PbufOf;
      AccountedLend(lent, freed, refused, input, p);
      input := input + [p];
      lent := lent + [e.id];
      Follow(Keep);
    }

    method Finish()
      requires Valid() && q.cur == 1 && m.hand == []
      modifies q`last, q`nLast, q`cur
      ensures Valid() && q.cur == 0 && Budget() == old(Budget()) && q.nLast == old(q.nLast) + 1
    {
      hide Virtq.Valid, Run, Inv, UsedIds, Wired, Accounted, PbufOf;
      q.Advance();
    }

    /** The interrupt handler.  What had been completed before is handed to the
        stack, in order.  It returns only after it has found the ring empty with
        interrupts enabled, so a completion it leaves behind was made after that
        and has raised an interrupt of its own. */
    method VirtnetRxHandle()
      requires Valid() && Answered() && q.cur == 0 && m.hand == [] && q.staged == []
      modifies q`flag, q`stored, q`flags, q`cur, q`last, q`nLast
      modifies q.ring, q`staged, q`availIndex, q`published, `lent, `input, `answers, `freed, `refused
      modifies q`seen, q`held, q`nSeen, q`usedIndex, q`completed, q`raised, q`credit, q.elems, `m, `trace
      ensures Valid() && Answered() && q.cur == 0 && m.hand == [] && q.staged == []
      ensures old(q.completed) <= q.completed && old(q.raised) <= q.raised && old(answers) <= answers
      ensures old(|q.completed|) <= q.stored <= q.nLast && q.AllRaised()
      ensures old(q.flags) <= q.flags && LeftEnabled(q.flags, |old(q.flags)|)
      ensures old(input) <= input && AllHanded()
    {
      hide *;
      SetFlag(NO_INTERRUPT);
      SuppressNow(old(q.flags));
      while true
        invariant old(q.flags) <= q.flags && Suppressed(q.flags, |old(q.flags)|)
        invariant Valid() && Answered() && q.cur == 0 && m.hand == [] && q.staged == []
        invariant old(q.completed) <= q.completed && old(q.raised) <= q.raised
        invariant old(input) <= input && old(answers) <= answers
        decreases Budget()
      {
        var some := NextOrEnable(|old(q.flags)|);
        if !some {
          break;
        }
        HandleOne();
      }
      InputInOrder();
      Signalled();
    }

    lemma Signalled()
      requires Valid() && q.flag == 0 && q.stored <= q.nLast + q.cur
      ensures q.AllRaised()
    {
      hide Virtq.Valid, Virtq.AllRaised, Run, Inv;
      q.Signalled();
    }

    /** Check the ring; if it is empty enable interrupts and check once more. */
    method NextOrEnable(ghost from: nat) returns (some: bool)
      requires Valid() && q.cur == 0 && m.hand == [] && q.staged == [] && Suppressed(q.flags, from)
      modifies q`flag, q`stored, q`flags, q.ring, q`staged, q`availIndex, q`published, `lent, `freed, `refused
      modifies q`seen, q`held, q`nSeen, q`usedIndex, q`completed, q`raised, q`credit, q.elems, `m, `trace
      ensures Valid() && m.hand == [] && q.staged == [] && Budget() == old(Budget())
      ensures old(q.completed) <= q.completed && old(q.raised) <= q.raised
      ensures if some then q.Used() != [] else q.flag == 0 && old(|q.completed|) <= q.stored <= q.nLast
      ensures old(q.flags) <= q.flags && refused == old(refused)
      ensures if some then Suppressed(q.flags, from) else LeftEnabled(q.flags, from)
    {
      hide *;
      Environment();
      some := Pending();
      Environment();
      if !some {
        some := Recheck(from);
      }
    }

    /** Enable interrupts, and suppress them again if something has come in between. */
    method Recheck(ghost from: nat) returns (some: bool)
      requires Valid() && q.cur == 0 && m.hand == [] && q.staged == [] && Suppressed(q.flags, from)
      modifies q`flag, q`stored, q`flags, q.ring, q`staged, q`availIndex, q`published, `lent, `freed, `refused
      modifies q`seen, q`held, q`nSeen, q`usedIndex, q`completed, q`raised, q`credit, q.elems, `m, `trace
      ensures Valid() && m.hand == [] && q.staged == [] && Budget() == old(Budget())
      ensures old(q.completed) <= q.completed && old(q.raised) <= q.raised
      ensures if some then q.Used() != [] else q.flag == 0 && old(|q.completed|) <= q.stored <= q.nLast
      ensures old(q.flags) <= q.flags && refused == old(refused)
      ensures if some then Suppressed(q.flags, from) else LeftEnabled(q.flags, from)
    {
      hide *;
      EnableNow(q.flags, from);
      SetFlag(0);
      Environment();
      some := Pending();
      Environment();
      if some {
        SetFlag(NO_INTERRUPT);
        Environment();
      }
    }

    /** Hand the next completion to the stack. */
    method HandleOne()
      requires Valid() && Answered() && q.cur == 0 && m.hand == [] && q.staged == [] && q.Used() != []
      modifies q`cur, q`last, q`nLast, q.ring, q`staged, q`availIndex, q`published
      modifies `lent, `input, `answers, `freed, `refused
      modifies q`seen, q`held, q`nSeen, q`usedIndex, q`completed, q`raised, q`credit, q.elems, `m, `trace
      ensures Valid() && Answered() && q.cur == 0 && m.hand == [] && q.staged == [] && Budget() < old(Budget())
      ensures |input| == old(|input|) + 1 && old(input) <= input && old(answers) <= answers
      ensures old(q.completed) <= q.completed && old(q.raised) <= q.raised
    {
      hide *;
      var e := PickUp();
      Environment();
      Input(e);
      Environment();
      Finish();
    }

    /** Each buffer is in exactly one place: available, with the device,
        completed, in the handler's hands, or lent to the stack. */
    lemma InOnePlace(x: int)
      requires Valid() && 0 <= x < q.qsz
      ensures Count(q.Avail(), x) + Count(q.held, x) + Count(m.used, x) + Count(m.hand, x) + Count(lent, x) == 1
      ensures UsedIds(m.used, q.Used()) && |q.Avail()| + |q.held| + |q.Used()| + |m.hand| + |lent| == q.qsz
    {
      assert Places(m, x) == 1;
      hide Virtq.Valid, Run, Count, Wired, Accounted, PbufOf;
    }

    /** The packets handed to the stack are the completions, each once and in
        order, up to the handler's position. */
    lemma InputInOrder()
      requires Valid() && q.cur == 0
      ensures AllHanded()
    {
      hide Virtq.Valid, Run, Inv, Wired, Accounted, PbufOf;
    }

    /** Of each completion up to the handler's position the packet was handed over. */
    ghost predicate AllHanded()
      reads `input, q`completed, q`nLast
    {
      && |input| == q.nLast <= |q.completed|
      && forall i :: 0 <= i < |input| ==> input[i] == PbufOf(base, ethPad, q.completed[i])
    }

    /** The stack has, or has freed, exactly the packets it accepted. */
    lemma LentByAnswers()
      requires Valid() && Answered()
      ensures multiset(lent) + multiset(freed) == multiset(AnsweredIds(input, answers, true))
    {
      hide Virtq.Valid, Run, Inv, Wired, PlacesAre, Delivered, Accounted;
      AccountedAnswers(lent, freed, refused, input, answers);
    }
  }
}
