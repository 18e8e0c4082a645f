/** A CFI flash chip with the Intel command set, as far as the driver uses it:
    buffered programming, block erase, status polling.  Programming can only
    clear bits; a command out of sequence raises `error`. */
module FlashChip {
  const CAPACITY: nat := 32 * 1024 * 1024
  const WORDS: nat := CAPACITY / 4
  const BLOCK_WORDS: nat := 65536
  const PAGE_WORDS: nat := 1024
  const ERASED: nat := 0xFFFF_FFFF

  type word = x: int | 0 <= x < 0x1_0000_0000

  /** Bitwise and. */
  function And(a: nat, b: nat): (r: nat)
    ensures r <= a && r <= b
  {
    if a == 0 || b == 0 then 0 else 2 * And(a / 2, b / 2) + (a % 2) * (b % 2)
  }

  lemma {:induction false} AndSelf(a: nat)
    ensures And(a, a) == a
  {
    if a > 0 {
      AndSelf(a / 2);
    }
  }

  /** Bit `k` of a number. */
  function BitOf(x: nat, k: nat): nat {
    if k == 0 then x % 2 else BitOf(x / 2, k - 1)
  }

  lemma {:induction false} BitOfZero(k: nat)
    ensures BitOf(0, k) == 0
  {
    if k > 0 {
      BitOfZero(k - 1);
    }
  }

  lemma {:induction false} BitIsBit(x: nat, k: nat)
    ensures BitOf(x, k) == 0 || BitOf(x, k) == 1
  {
    if k > 0 {
      BitIsBit(x / 2, k - 1);
    }
  }

  lemma ProductOfBits(x: nat, y: nat)
    ensures x % 2 * (y % 2) == if x % 2 == 0 || y % 2 == 0 then 0 else 1
  {
  }

  lemma AndHalves(a: nat, b: nat)
    ensures And(a, b) / 2 == And(a / 2, b / 2)
    ensures And(a, b) % 2 == if a % 2 == 0 || b % 2 == 0 then 0 else 1
  {
    ProductOfBits(a, b);
  }

  /** A bit of the result is set exactly if it is set in both. */
  lemma {:induction false} AndBit(a: nat, b: nat, k: nat)
    ensures BitOf(And(a, b), k) == 1 <==> BitOf(a, k) == 1 && BitOf(b, k) == 1
  {
    hide And;
    AndHalves(a, b);
    if k > 0 {
      AndBit(a / 2, b / 2, k - 1);
    }
  }

  function Ones(k: nat): nat {
    if k == 0 then 0 else 2 * Ones(k - 1) + 1
  }

  lemma {:induction false} AndOnes(k: nat, x: nat)
    requires x <= Ones(k)
    ensures And(Ones(k), x) == x
  {
    if x > 0 {
      AndOnes(k - 1, x / 2);
      assert Ones(k) / 2 == Ones(k - 1) && Ones(k) % 2 == 1;
    }
  }

  /** An erased word takes any value. */
  lemma AndErased(x: word)
    ensures And(ERASED, x) == x
  {
    assert Ones(8) == 0xFF;
    assert Ones(16) == 0xFFFF;
    assert Ones(24) == 0xFF_FFFF;
    assert Ones(32) == ERASED;
    AndOnes(32, x);
  }

  const CMD_ERASE: word := 0x20
  const CMD_CLEAR_STATUS: word := 0x50
  const CMD_READ_STATUS: word := 0x70
  const CMD_CONFIRM: word := 0xD0
  const CMD_BUFWRITE: word := 0xE8
  const STATUS_READY: word := 0x80

  /** `CfiFlashEraseBlkWordAddr`: clearing the low 16 bits. */
  function BlockAddr(w: nat): (b: nat)
    ensures b <= w < b + BLOCK_WORDS && b % BLOCK_WORDS == 0
  {
    w - w % BLOCK_WORDS
  }

  /** The first word of the page of `w`. */
  function PageAddr(w: nat): (b: nat)
    ensures b <= w < b + PAGE_WORDS && b % PAGE_WORDS == 0
  {
    w - w % PAGE_WORDS
  }

  datatype Mode =
    | ReadArray
    | ReadStatus
    | BufCount(blk: nat)
    | BufData(blk: nat, left: nat)
    | BufConfirm(blk: nat)
    | EraseConfirm(blk: nat)

  /** One buffered write: where it starts and how many words it has. */
  datatype Group = Group(start: nat, n: nat)

  datatype Chip = Chip(
    mem: seq<word>,
    mode: Mode,
    start: nat,             // of the words loaded into the write buffer
    loaded: seq<word>,
    busy: nat,              // status reads until the chip is ready
    error: bool,            // a command came out of sequence since the status was cleared
    faults: nat,            // history: commands out of sequence
    groups: seq<Group>)     // history: buffered writes carried out

  /** Programming: bits can only go from 1 to 0. */
  function Program(mem: seq<word>, start: nat, data: seq<word>): (r: seq<word>)
    ensures |r| == |mem|
    ensures forall i :: 0 <= i < |mem| ==>
              r[i] == if start <= i < start + |data| then And(mem[i], data[i - start]) else mem[i]
  {
    seq(|mem|, i requires 0 <= i < |mem| =>
      if start <= i < start + |data| then And(mem[i], data[i - start]) else mem[i])
  }

  /** Programming clears exactly the bits that the data has clear. */
  lemma ProgramBits(mem: seq<word>, start: nat, data: seq<word>, i: nat, k: nat)
    requires i < |mem|
    ensures var r := Program(mem, start, data);
            BitOf(r[i], k) == 1 <==>
              BitOf(mem[i], k) == 1 && (start <= i < start + |data| ==> BitOf(data[i - start], k) == 1)
  {
    hide And, BitOf;
    if start <= i < start + |data| {
      AndBit(mem[i], data[i - start], k);
    }
  }

  function EraseBlock(mem: seq<word>, blk: nat): (r: seq<word>)
    ensures |r| == |mem|
    ensures forall i :: 0 <= i < |mem| ==> r[i] == if blk <= i < blk + BLOCK_WORDS then ERASED else mem[i]
  {
    seq(|mem|, i requires 0 <= i < |mem| => if blk <= i < blk + BLOCK_WORDS then ERASED else mem[i])
  }

  /** An erase sets all bits of the 65536 words that make up the block. */
  lemma EraseIs(mem: seq<word>, w: nat, i: nat)
    requires i < |mem|
    ensures EraseBlock(mem, BlockAddr(w))[i] == if i / 65536 == w / 65536 then 0xFFFF_FFFF else mem[i]
  {
  }

  /** The chip has 128 blocks of 64 pages of 1024 words of 4 bytes. */
  lemma ChipSizes(w: nat, v: nat)
    ensures CAPACITY == 4 * WORDS == 4 * 128 * 65536 && 65536 == 64 * 1024
    ensures BlockAddr(w) == w - w % 65536 && PageAddr(w) == w - w % 1024
    ensures PageAddr(w) == PageAddr(v) <==> w / 1024 == v / 1024
  {
  }

  function Fault(c: Chip): Chip {
    c.(mode := ReadStatus, error := true, faults := c.faults + 1)
  }

  /** A word written to the chip; `slow` is how long an operation it starts takes. */
  function Write(c: Chip, addr: nat, v: word, slow: nat): Chip {
    match c.mode
    case ReadArray => Command(c, addr, v)
    case ReadStatus => if c.busy > 0 && v != CMD_READ_STATUS then Fault(c) else Command(c, addr, v)
    case BufCount(blk) =>
      if BlockAddr(addr) == blk && v < PAGE_WORDS then c.(mode := BufData(blk, v + 1), loaded := [])
      else Fault(c)
    case BufData(blk, left) =>
      if left == 0 || BlockAddr(addr) != blk then Fault(c)
      else if c.loaded != [] && (addr != c.start + |c.loaded| || PageAddr(addr) != PageAddr(c.start)) then Fault(c)
      else
        c.(mode := if left == 1 then BufConfirm(blk) else BufData(blk, left - 1),
           start := if c.loaded == [] then addr else c.start, loaded := c.loaded + [v])
    case BufConfirm(blk) =>
      if v == CMD_CONFIRM && BlockAddr(addr) == blk then
        c.(mode := ReadStatus, mem := Program(c.mem, c.start, c.loaded), busy := slow,
           groups := c.groups + [Group(c.start, |c.loaded|)])
      else Fault(c)
    case EraseConfirm(blk) =>
      if v == CMD_CONFIRM && BlockAddr(addr) == blk then
        c.(mode := ReadStatus, mem := EraseBlock(c.mem, blk), busy := slow)
      else Fault(c)
  }

  function Command(c: Chip, addr: nat, v: word): Chip {
    if v == CMD_BUFWRITE then c.(mode := BufCount(BlockAddr(addr)))
    else if v == CMD_ERASE then c.(mode := EraseConfirm(BlockAddr(addr)))
    else if v == CMD_READ_STATUS then c.(mode := ReadStatus)
    else if v == CMD_CLEAR_STATUS then c.(mode := ReadArray, error := false)
    else Fault(c)
  }

  /** What a load gives and does: a word of the array, or the status, whose ready
      bit comes up when the chip has been asked often enough. */
  function Loaded(c: Chip, addr: nat): word
    requires addr < |c.mem|
  {
    if c.mode == ReadArray then c.mem[addr] else if c.busy == 0 then STATUS_READY else 0
  }

  function AfterLoad(c: Chip): Chip {
    if c.mode == ReadArray || c.busy == 0 then c else c.(busy := c.busy - 1)
  }

  /** Ready for a new command, with nothing gone wrong. */
  predicate Idle(c: Chip) {
    |c.mem| == WORDS && (c.mode == ReadArray || c.mode == ReadStatus) && c.busy == 0 && !c.error
  }
}

/** The CFI flash driver. */
module CfiFlash {
  import opened FlashChip

  const U32: nat := 0x1_0000_0000

  datatype Result = FLASH_OK | FLASH_ERROR

  /** The first group of a write ends where its page does, or where the words do. */
  function FirstOf(from: nat, n: nat): (k: nat)
    ensures n > 0 ==> 0 < k <= n
  {
    if n < 1024 - from % 1024 then n else 1024 - from % 1024
  }

  /** The groups of a write of `n` words from `from` on. */
  function GroupsOf(from: nat, n: nat): seq<Group>
    decreases n
  {
    if n == 0 then []
    else
      var k := FirstOf(from, n);
      [Group(from, k)] + GroupsOf(from + k, n - k)
  }

  /** The groups cover the words from `from` to `to` in order without gap or
      overlap, each within one page. */
  ghost predicate Partition(gs: seq<Group>, from: nat, to: nat) {
    if gs == [] then from == to
    else
      var g := gs[|gs| - 1];
      && Partition(gs[..|gs| - 1], from, g.start) && g.start + g.n == to
      && 1 <= g.n <= PAGE_WORDS && PageAddr(g.start) == PageAddr(g.start + g.n - 1)
  }

  lemma PartitionAppend(gs: seq<Group>, from: nat, mid: nat, n: nat)
    requires Partition(gs, from, mid) && 1 <= n <= PAGE_WORDS && PageAddr(mid) == PageAddr(mid + n - 1)
    ensures Partition(gs + [Group(mid, n)], from, mid + n)
  {
    assert (gs + [Group(mid, n)])[..|gs|] == gs;
  }

  lemma ProgramAppend(mem: seq<word>, start: nat, a: seq<word>, b: seq<word>)
    ensures Program(Program(mem, start, a), start + |a|, b) == Program(mem, start, a + b)
  {
    var r, s := Program(Program(mem, start, a), start + |a|, b), Program(mem, start, a + b);
    forall i | 0 <= i < |mem| ensures r[i] == s[i] {
    }
  }

  /** Words written to erased flash read back as written. */
  lemma ReadBack(mem: seq<word>, start: nat, data: seq<word>)
    requires start + |data| <= |mem| && forall i :: start <= i < start + |data| ==> mem[i] == ERASED
    ensures Program(mem, start, data)[start..start + |data|] == data
  {
    var r := Program(mem, start, data);
    forall i | 0 <= i < |data| ensures r[start + i] == data[i] {
      AndErased(data[i]);
    }
  }

  // ----- the commands a driver should store -----

  lemma Joined<T>(a: seq<T>, b: seq<T>, c: seq<T>, e: seq<T>, f: seq<T>)
    ensures a + b + c + e + f == a + (b + c + e + f)
  {
  }

  datatype Out = Out(addr: nat, v: word)

  /** Status polls. */
  ghost function Polls(blk: nat, n: nat): seq<Out> {
    seq(n, _ => Out(blk, CMD_READ_STATUS))
  }

  lemma PollsGrow(blk: nat, n: nat)
    ensures Polls(blk, 0) == [] && Polls(blk, n + 1) == Polls(blk, n) + [Out(blk, CMD_READ_STATUS)]
  {
  }

  /** The words themselves, to consecutive addresses. */
  ghost function Words(start: nat, data: seq<word>): seq<Out> {
    seq(|data|, i requires 0 <= i < |data| => Out(start + i, data[i]))
  }

  lemma WordsGrow(start: nat, data: seq<word>, n: nat)
    requires n < |data|
    ensures Words(start, data[..0]) == [] && data[..|data|] == data
    ensures Words(start, data[..n + 1]) == Words(start, data[..n]) + [Out(start + n, data[n])]
  {
  }

  /** A buffered write: command, count less one, words, confirmation, polls. */
  ghost function GroupScript(start: nat, data: seq<word>, polls: nat): seq<Out>
    requires 1 <= |data| <= PAGE_WORDS
  {
    var blk := BlockAddr(start);
    [Out(blk, CMD_BUFWRITE), Out(blk, |data| - 1)] + Words(start, data) + [Out(blk, CMD_CONFIRM)] + Polls(blk, polls)
  }

  ghost function EraseScript(blk: nat, polls: nat): seq<Out> {
    [Out(blk, CMD_ERASE), Out(blk, CMD_CONFIRM)] + Polls(blk, polls)
  }

  /** The stores of a buffered write and of an erase, by their values. */
  lemma StoredValues(start: nat, data: seq<word>, n: nat)
    requires 1 <= |data| <= 1024
    ensures var blk := start - start % 65536;
            && GroupScript(start, data, n)
               == [Out(blk, 0xE8), Out(blk, |data| - 1)] + Words(start, data) + [Out(blk, 0xD0)]
                  + seq(n, _ => Out(blk, 0x70))
            && EraseScript(blk, n) == [Out(blk, 0x20), Out(blk, 0xD0)] + seq(n, _ => Out(blk, 0x70))
            && CMD_CLEAR_STATUS == 0x50 && STATUS_READY == 0x80
  {
    assert Polls(start - start % 65536, n) == seq(n, _ => Out(start - start % 65536, 0x70));
  }

  /** From its store `k` on, `out` is the buffered write of the words of the last
      group, with `n` polls; word `from` is the first of `data`. */
  ghost predicate GroupAt(out: seq<Out>, k: nat, n: nat, gs: seq<Group>, from: nat, data: seq<word>)
    requires gs != []
  {
    var g := gs[|gs| - 1];
    && 1 <= g.n <= PAGE_WORDS && from <= g.start && g.start - from + g.n <= |data|
    && k <= |out| && n > 0 && out[k..] == GroupScript(g.start, data[g.start - from..g.start - from + g.n], n)
  }

  /** `out` is, for each of the groups in order, the buffered write of its words,
      and nothing else. */
  ghost predicate Script(out: seq<Out>, gs: seq<Group>, from: nat, data: seq<word>)
    decreases |gs|
  {
    if gs == [] then out == []
    else
      exists k: nat, n: nat :: GroupAt(out, k, n, gs, from, data) && Script(out[..k], gs[..|gs| - 1], from, data)
  }

  lemma ScriptAppend(out: seq<Out>, gs: seq<Group>, from: nat, data: seq<word>, done: nat, count: nat, n: nat)
    requires Script(out, gs, from, data) && 1 <= count <= PAGE_WORDS && done + count <= |data| && n > 0
    ensures Script(out + GroupScript(from + done, data[done..done + count], n),
                   gs + [Group(from + done, count)], from, data)
  {
    hide GroupScript;
    var g := GroupScript(from + done, data[done..done + count], n);
    assert (gs + [Group(from + done, count)])[..|gs|] == gs;
    assert (out + g)[..|out|] == out;
    assert GroupAt(out + g, |out|, n, gs + [Group(from + done, count)], from, data);
  }

  /** Since `before`, exactly these groups have been stored, and then the command
      that clears the status. */
  ghost predicate Wrote(before: seq<Out>, stores: seq<Out>, gs: seq<Group>, from: nat, data: seq<word>) {
    && |before| < |stores| && before <= stores && stores[|stores| - 1] == Out(0, CMD_CLEAR_STATUS)
    && Script(stores[|before|..|stores| - 1], gs, from, data)
  }

  /** The first `done` words have been written, in these groups. */
  ghost predicate Progress(c0: Chip, c: Chip, before: seq<Out>, stores: seq<Out>, gs: seq<Group>, from: nat,
                           data: seq<word>, done: nat) {
    && done <= |data| && c.mem == Program(c0.mem, from, data[..done])
    && c.groups == c0.groups + gs && c.faults == c0.faults && Partition(gs, from, from + done)
    && before <= stores && Script(stores[|before|..], gs, from, data)
  }

  lemma ProgressNone(c: Chip, stores: seq<Out>, from: nat, data: seq<word>)
    ensures Progress(c, c, stores, stores, [], from, data, 0)
  {
    assert data[..0] == [] && Program(c.mem, from, []) == c.mem;
  }

  lemma ProgressNext(c0: Chip, c: Chip, c': Chip, before: seq<Out>, stores: seq<Out>, stores': seq<Out>,
                     gs: seq<Group>, from: nat, data: seq<word>, done: nat, n: nat, polls: nat)
    requires Progress(c0, c, before, stores, gs, from, data, done) && polls > 0
    requires 1 <= n <= PAGE_WORDS && done + n <= |data| && PageAddr(from + done) == PageAddr(from + done + n - 1)
    requires c'.mem == Program(c.mem, from + done, data[done..done + n]) && c'.faults == c.faults
    requires c'.groups == c.groups + [Group(from + done, n)]
    requires stores' == stores + GroupScript(from + done, data[done..done + n], polls)
    ensures Progress(c0, c', before, stores', gs + [Group(from + done, n)], from, data, done + n)
  {
    hide Program, PageAddr, Partition, Script, GroupScript;
    ScriptAppend(stores[|before|..], gs, from, data, done, n, polls);
    assert stores'[|before|..] == stores[|before|..] + GroupScript(from + done, data[done..done + n], polls);
    ProgramAppend(c0.mem, from, data[..done], data[done..done + n]);
    assert data[..done] + data[done..done + n] == data[..done + n];
    PartitionAppend(gs, from, from + done, n);
  }

  lemma ProgressDone(c0: Chip, c: Chip, before: seq<Out>, stores: seq<Out>, gs: seq<Group>, from: nat, data: seq<word>)
    requires Progress(c0, c, before, stores, gs, from, data, |data|)
    ensures c.mem == Program(c0.mem, from, data) && c0.groups <= c.groups && c.faults == c0.faults
    ensures c.groups[|c0.groups|..] == gs && Partition(gs, from, from + |data|)
    ensures Wrote(before, stores + [Out(0, CMD_CLEAR_STATUS)], gs, from, data)
  {
    hide Program, Partition, Script;
    assert data[..|data|] == data;
    assert (stores + [Out(0, CMD_CLEAR_STATUS)])[|before|..|stores|] == stores[|before|..];
  }

  /** The board's two chips.  In the driver's address space the second lies right
      behind the first: their base addresses differ by the capacity of one. */
  class Board {
    var first: Chip
    var second: Chip

    constructor (mem0: seq<word>, mem1: seq<word>)
      requires |mem0| == |mem1| == WORDS
      ensures first == FreshChip(mem0) && second == FreshChip(mem1)
    {
      first, second := FreshChip(mem0), FreshChip(mem1);
    }
  }

  function FreshChip(mem: seq<word>): (c: Chip)
    ensures |mem| == WORDS ==> Idle(c)
  {
    Chip(mem, ReadArray, 0, [], 0, false, 0, [])
  }

  /** The driver with one of the two drives, as its pointer reaches them. */
  class Flash {
    const board: Board
    const drive: nat             // pdrv, 0 or 1
    ghost var stores: seq<Out>   // history: stores through the driver's pointer

    constructor (board: Board, drive: nat)
      requires drive < 2
      ensures this.board == board && this.drive == drive && stores == []
    {
      this.board, this.drive, stores := board, drive, [];
    }

    function Own(): Chip
      reads board
    {
      if drive == 0 then board.first else board.second
    }

    function Other(): Chip
      reads board
    {
      if drive == 0 then board.second else board.first
    }

    /** Words from the drive's base to the end of the flash memory. */
    function Reach(): nat {
      if drive == 0 then 2 * WORDS else WORDS
    }

    /** The chip that answers at an address. */
    function ChipAt(addr: nat): Chip
      reads board
    {
      if addr < WORDS then Own() else Other()
    }

    /** `p[addr] = v`. */
    method Store(addr: nat, v: word) returns (ghost slow: nat)
      requires addr < Reach()
      modifies this, board
      ensures Own() == if addr < WORDS then Write(old(Own()), addr, v, slow) else old(Own())
      ensures Other() == if addr < WORDS then old(Other()) else Write(old(Other()), addr - WORDS, v, slow)
      ensures stores == old(stores) + [Out(addr, v)]
    {
      hide Write;
      var time: nat := *;
      slow := time;
      if addr >= WORDS {
        board.second := Write(board.second, addr - WORDS, v, time);
      } else if drive == 0 {
        board.first := Write(board.first, addr, v, time);
      } else {
        board.second := Write(board.second, addr, v, time);
      }
      stores := stores + [Out(addr, v)];
    }

    /** `p[addr]`. */
    method Load(addr: nat) returns (v: word)
      requires addr < Reach() && |ChipAt(addr).mem| == WORDS
      modifies board
      ensures ChipAt(addr) == AfterLoad(old(ChipAt(addr)))
      ensures addr < WORDS ==> Other() == old(Other())
      ensures addr >= WORDS ==> Own() == old(Own())
      ensures v == Loaded(old(ChipAt(addr)), if addr < WORDS then addr else addr - WORDS)
    {
      var c := ChipAt(addr);
      v := Loaded(c, if addr < WORDS then addr else addr - WORDS);
      if drive == 0 && addr < WORDS {
        board.first := AfterLoad(c);
      } else {
        board.second := AfterLoad(c);
      }
    }

    /** `CfiFlashIsReady`. */
    method IsReady(addr: nat) returns (ready: bool)
      requires addr < Reach() && |ChipAt(addr).mem| == WORDS && ChipAt(addr).mode == ReadStatus
      modifies this, board
      ensures stores == old(stores) + [Out(addr, CMD_READ_STATUS)]
      ensures ready <==> old(ChipAt(addr)).busy == 0
      ensures ChipAt(addr) == if ready then old(ChipAt(addr))
                              else old(ChipAt(addr)).(busy := old(ChipAt(addr)).busy - 1)
      ensures addr < WORDS ==> Other() == old(Other())
      ensures addr >= WORDS ==> Own() == old(Own())
    {
      AndSelf(STATUS_READY);
      ghost var s := Store(addr, CMD_READ_STATUS);
      var v := Load(addr);
      ready := And(v, STATUS_READY) != 0;
    }

    /** `while (!CfiFlashIsReady(...)) { }`. */
    method WaitReady(addr: nat) returns (ghost n: nat)
      requires addr < Reach() && |ChipAt(addr).mem| == WORDS && ChipAt(addr).mode == ReadStatus
      modifies this, board
      ensures ChipAt(addr) == old(ChipAt(addr)).(busy := 0)
      ensures addr < WORDS ==> Other() == old(Other())
      ensures addr >= WORDS ==> Own() == old(Own())
      ensures n > 0 && stores == old(stores) + Polls(addr, n)
    {
      hide Polls;
      n := 1;
      PollsGrow(addr, 0);
      var ready := IsReady(addr);
      assert old(stores) + Polls(addr, 0) + [Out(addr, CMD_READ_STATUS)] == old(stores) + Polls(addr, 1);
      while !ready
        invariant |ChipAt(addr).mem| == WORDS && ChipAt(addr).mode == ReadStatus
        invariant ChipAt(addr) == old(ChipAt(addr)).(busy := ChipAt(addr).busy)
        invariant addr < WORDS ==> Other() == old(Other())
        invariant addr >= WORDS ==> Own() == old(Own())
        invariant ready ==> ChipAt(addr).busy == 0
        invariant n > 0 && stores == old(stores) + Polls(addr, n)
        decreases !ready, ChipAt(addr).busy
      {
        ready := IsReady(addr);
        PollsGrow(addr, n);
        assert old(stores) + Polls(addr, n) + [Out(addr, CMD_READ_STATUS)] == old(stores) + Polls(addr, n + 1);
        n := n + 1;
      }
    }

    /** `p[0] = CFIFLASH_CMD_CLEAR_STATUS`. */
    method ClearStatus()
      requires Idle(Own())
      modifies this, board
      ensures Idle(Own()) && Own() == old(Own()).(mode := ReadArray) && Other() == old(Other())
      ensures stores == old(stores) + [Out(0, CMD_CLEAR_STATUS)]
    {
      hide Write;
      ghost var c := Own();
      ghost var s := Store(0, CMD_CLEAR_STATUS);
      ClearsStatus(c, s);
    }

    /** One group: command, count, words, confirm, wait. */
    method WriteGroup(wordOffset: nat, data: seq<word>) returns (ghost polls: nat)
      requires Idle(Own()) && 1 <= |data| <= PAGE_WORDS && wordOffset + |data| <= WORDS
      requires PageAddr(wordOffset) == PageAddr(wordOffset + |data| - 1)
      modifies this, board
      ensures Idle(Own()) && Own().mem == Program(old(Own()).mem, wordOffset, data) && Other() == old(Other())
      ensures Own().groups == old(Own()).groups + [Group(wordOffset, |data|)] && Own().faults == old(Own()).faults
      ensures polls > 0 && stores == old(stores) + GroupScript(wordOffset, data, polls)
    {
      hide Write, Program, EraseBlock, BlockAddr, PageAddr, Words, Polls;
      var blkAddr := BlockAddr(wordOffset);
      BlockIsAddr(wordOffset);
      ghost var s := Store(blkAddr, CMD_BUFWRITE);
      ghost var t := Store(blkAddr, |data| - 1);
      StartsBuffer(old(Own()), blkAddr, |data|, s, t);
      WordsGrow(wordOffset, data, 0);
      ghost var start0 := [Out(blkAddr, CMD_BUFWRITE), Out(blkAddr, |data| - 1)];
      assert stores == old(stores) + start0 + Words(wordOffset, data[..0]);
      var i := 0;
      while i < |data|
        invariant 0 <= i <= |data|
        invariant stores == old(stores) + start0 + Words(wordOffset, data[..i]) && Other() == old(Other())
        invariant Own() == Loading(old(Own()), wordOffset, data, i, Own().start)
      {
        ghost var start := Own().start;
        s := Store(wordOffset + i, data[i]);
        LoadsNext(old(Own()), wordOffset, data, i, start, s);
        WordsGrow(wordOffset, data, i);
        assert old(stores) + start0 + (Words(wordOffset, data[..i]) + [Out(wordOffset + i, data[i])])
            == old(stores) + start0 + Words(wordOffset, data[..i]) + [Out(wordOffset + i, data[i])];
        i := i + 1;
      }
      ghost var start := Own().start;
      s := Store(blkAddr, CMD_CONFIRM);
      Confirms(old(Own()), wordOffset, data, start, s);
      polls := WaitReady(blkAddr);
      Joined(old(stores), start0, Words(wordOffset, data), [Out(blkAddr, CMD_CONFIRM)], Polls(blkAddr, polls));
    }

    /** The group of the next `n` words. */
    method WriteNext(from: nat, data: seq<word>, done: nat, n: nat, ghost c0: Chip, ghost before: seq<Out>,
                     ghost gs: seq<Group>)
      requires Idle(Own()) && Progress(c0, Own(), before, stores, gs, from, data, done)
      requires 1 <= n <= PAGE_WORDS && done + n <= |data| && from + |data| <= WORDS
      requires PageAddr(from + done) == PageAddr(from + done + n - 1)
      modifies this, board
      ensures Idle(Own()) && Other() == old(Other())
      ensures Progress(c0, Own(), before, stores, gs + [Group(from + done, n)], from, data, done + n)
    {
      hide Program, EraseBlock, BlockAddr, PageAddr, Write, Partition, Script, GroupScript, Idle, Progress;
      ghost var c, st := Own(), stores;
      ghost var polls := WriteGroup(from + done, data[done..done + n]);
      ProgressNext(c0, c, Own(), before, st, stores, gs, from, data, done, n, polls);
    }

    /** `CfiFlashWriteBuf`: the first group may be short because it starts inside
        a page, the last because the words run out. */
    method WriteBuf(wordOffset: nat, buffer: seq<word>)
      requires Idle(Own()) && wordOffset + |buffer| <= WORDS
      modifies this, board
      ensures Idle(Own()) && Own().mode == ReadArray && Own().mem == Program(old(Own()).mem, wordOffset, buffer)
      ensures old(Own()).groups <= Own().groups && Own().faults == old(Own()).faults && Other() == old(Other())
      ensures Wrote(old(stores), stores, Own().groups[|old(Own()).groups|..], wordOffset, buffer)
      ensures Own().groups[|old(Own()).groups|..] == GroupsOf(wordOffset, |buffer|)
      ensures Partition(GroupsOf(wordOffset, |buffer|), wordOffset, wordOffset + |buffer|)
    {
      hide Program, EraseBlock, BlockAddr, PageAddr, Write, Partition, Script, GroupScript, Idle;
      hide Progress, GroupsOf, FirstOf;
      var i := PAGE_WORDS - PageOffset(wordOffset);
      var words: nat, done: nat := |buffer|, 0;
      var wordCount: nat := if i > words then words else i;
      FirstGroup(wordOffset, wordCount);
      FirstOfIs(wordOffset, words);
      ProgressNone(old(Own()), old(stores), wordOffset, buffer);
      ghost var gs: seq<Group> := [];
      while words > 0
        invariant 0 <= words <= |buffer| && done + words == |buffer|
        invariant words > 0 ==> 1 <= wordCount <= words && wordCount <= PAGE_WORDS
        invariant words > 0 ==> PageAddr(wordOffset + done) == PageAddr(wordOffset + done + wordCount - 1)
        invariant words > wordCount ==> PageAddr(wordOffset + done + wordCount) == wordOffset + done + wordCount
        invariant Idle(Own()) && Other() == old(Other())
        invariant words > 0 ==> wordCount == FirstOf(wordOffset + done, words)
        invariant gs + GroupsOf(wordOffset + done, words) == GroupsOf(wordOffset, |buffer|)
        invariant Progress(old(Own()), Own(), old(stores), stores, gs, wordOffset, buffer, done)
      {
        WriteNext(wordOffset, buffer, done, wordCount, old(Own()), old(stores), gs);
        GroupsNext(gs, wordOffset + done, words);
        gs := gs + [Group(wordOffset + done, wordCount)];
        done := done + wordCount;
        words := words - wordCount;
        wordCount := if words >= PAGE_WORDS then PAGE_WORDS else words;
        if words > 0 {
          NextGroup(wordOffset + done, wordCount);
          FirstOfPage(wordOffset + done, words);
        }
      }
      NoGroups(gs, wordOffset + done);
      ghost var c, st := Own(), stores;
      ClearStatus();
      ProgressDone(old(Own()), c, old(stores), st, gs, wordOffset, buffer);
    }

    /** `CfiFlashRead`: the range check is on 32-bit sums, so it is exact when
        `offset + nbytes` does not wrap.  A chip left showing its status gives the
        status for every word. */
    method CfiFlashRead(offset: nat, nbytes: nat) returns (r: Result, buffer: seq<word>)
      requires Idle(Own()) && offset + nbytes < U32
      modifies board
      ensures Own() == old(Own()) && Other() == old(Other())
      ensures r == FLASH_ERROR <==> offset + nbytes > CAPACITY
      ensures r == FLASH_OK ==>
                && offset / 4 + nbytes / 4 <= WORDS
                && buffer == if Own().mode == ReadArray then Own().mem[offset / 4..offset / 4 + nbytes / 4]
                             else seq(nbytes / 4, _ => 0x80)
    {
      buffer := [];
      if (offset + nbytes) % U32 > CAPACITY {
        return FLASH_ERROR, buffer;
      }
      var words, wordOffset := nbytes / 4, offset / 4;
      var i := 0;
      while i < words
        invariant 0 <= i <= words && Own() == old(Own()) && Other() == old(Other())
        invariant buffer == if Own().mode == ReadArray then Own().mem[wordOffset..wordOffset + i]
                            else seq(i, _ => 0x80)
      {
        var v := Load(wordOffset + i);
        buffer := buffer + [v];
        i := i + 1;
      }
      r := FLASH_OK;
    }

    /** `CfiFlashWrite` of the words of `buffer` that `nbytes` covers. */
    method CfiFlashWrite(buffer: seq<word>, offset: nat, nbytes: nat) returns (r: Result)
      requires Idle(Own()) && offset + nbytes < U32 && |buffer| >= nbytes / 4
      modifies this, board
      ensures Idle(Own()) && (r == FLASH_ERROR <==> offset + nbytes > CAPACITY)
      ensures Own().faults == old(Own()).faults && Other() == old(Other())
      ensures r == FLASH_ERROR ==> Own() == old(Own()) && stores == old(stores)
      ensures r == FLASH_OK ==>
                Own().mode == ReadArray && Own().mem == Program(old(Own()).mem, offset / 4, buffer[..nbytes / 4])
      ensures r == FLASH_OK ==> old(Own()).groups <= Own().groups
      ensures r == FLASH_OK ==>
                && Wrote(old(stores), stores, Own().groups[|old(Own()).groups|..], offset / 4, buffer[..nbytes / 4])
                && Own().groups[|old(Own()).groups|..] == GroupsOf(offset / 4, nbytes / 4)
                && Partition(GroupsOf(offset / 4, nbytes / 4), offset / 4, offset / 4 + nbytes / 4)
    {
      if (offset + nbytes) % U32 > CAPACITY {
        return FLASH_ERROR;
      }
      hide Program, Partition, Wrote;
      WriteBuf(offset / 4, buffer[..nbytes / 4]);
      r := FLASH_OK;
    }

    /** `CfiFlashErase`.  The check lets `offset == CAPACITY` through, one byte past
        the last block (see `EraseGuardIff`).  For the first drive the commands then
        go to the second chip: its first block is erased, and it is left showing its
        status, because the last command goes to the first.  Behind the second
        drive there is nothing to answer. */
    method CfiFlashErase(offset: nat) returns (r: Result, ghost n: nat)
      requires Idle(Own()) && offset < U32
      requires offset == CAPACITY ==> drive == 0 && Idle(Other())
      modifies this, board
      ensures Idle(Own()) && (r == FLASH_ERROR <==> offset > CAPACITY)
      ensures r == FLASH_ERROR ==> Own() == old(Own()) && stores == old(stores)
      ensures r == FLASH_OK ==>
                Own() == old(Own()).(mode := ReadArray,
                                     mem := if offset < CAPACITY then EraseBlock(old(Own()).mem, BlockAddr(offset / 4))
                                            else old(Own()).mem)
      ensures Other() == if offset == CAPACITY
                         then old(Other()).(mode := ReadStatus, mem := EraseBlock(old(Other()).mem, 0))
                         else old(Other())
      ensures r == FLASH_OK ==>
                n > 0 && stores == old(stores) + EraseScript(BlockAddr(offset / 4), n) + [Out(0, CMD_CLEAR_STATUS)]
    {
      if !EraseAccepts(offset) {
        return FLASH_ERROR, 0;
      }
      var blkAddr := BlockAddr(offset / 4);
      EraseGuardIff(offset);
      assert offset == CAPACITY ==> blkAddr == WORDS;
      assert BlockAddr(0) == 0;
      hide Program, EraseBlock, BlockAddr, Write, Polls;
      BlockIsAddr(offset / 4);
      ghost var s := Store(blkAddr, CMD_ERASE);
      ghost var t := Store(blkAddr, CMD_CONFIRM);
      if offset < CAPACITY {
        Erases(old(Own()), blkAddr, s, t);
      } else {
        Erases(old(Other()), 0, s, t);
      }
      n := WaitReady(blkAddr);
      ClearStatus();
      r := FLASH_OK;
    }

    /** A word-aligned write to erased flash reads back as written. */
    method WriteThenRead(buffer: seq<word>, offset: nat) returns (back: seq<word>)
      requires Idle(Own()) && offset % 4 == 0 && offset + 4 * |buffer| <= CAPACITY
      requires forall i :: offset / 4 <= i < offset / 4 + |buffer| ==> Own().mem[i] == ERASED
      modifies this, board
      ensures Idle(Own()) && back == buffer && Other() == old(Other())
      ensures forall i :: 0 <= i < WORDS && !(offset / 4 <= i < offset / 4 + |buffer|) ==>
                Own().mem[i] == old(Own()).mem[i]
    {
      ReadBack(Own().mem, offset / 4, buffer);
      assert buffer[..|buffer|] == buffer;
      var w := CfiFlashWrite(buffer, offset, 4 * |buffer|);
      var r;
      r, back := CfiFlashRead(offset, 4 * |buffer|);
    }
  }

  /** An erase of the first drive at its capacity, and a read of the second after
      it: the second drive has lost its first block, and gives the chip's status
      instead of what it holds, until it is written to or erased. */
  method EraseNextDoor(slot0: Flash, slot1: Flash, offset: nat, nbytes: nat) returns (r: Result, back: seq<word>)
    requires slot0 != slot1 && slot0.board == slot1.board && slot0.drive == 0 && slot1.drive == 1
    requires Idle(slot0.Own()) && Idle(slot1.Own()) && offset + nbytes <= CAPACITY
    modifies slot0, slot1, slot0.board
    ensures r == FLASH_OK && slot0.Own().mem == old(slot0.Own()).mem
    ensures slot1.Own().mem == EraseBlock(old(slot1.Own()).mem, 0)
    ensures back == seq(nbytes / 4, _ => 0x80)
  {
    var e, n := slot0.CfiFlashErase(CAPACITY);
    assert slot0.Other() == slot1.Own();
    r, back := slot1.CfiFlashRead(offset, nbytes);
  }

  /** `wordOffset & CFIFLASH_PAGE_WORDS_MASK`. */
  function PageOffset(w: nat): (r: nat)
    ensures w == PageAddr(w) + r && r < PAGE_WORDS
  {
    w % PAGE_WORDS
  }

  /** The range check of `CfiFlashErase`. */
  predicate EraseAccepts(offset: nat) {
    !(offset > CAPACITY)
  }

  /** An accepted erase addresses a block of the chip unless the offset is the
      capacity itself. */
  lemma EraseGuardIff(offset: nat)
    requires EraseAccepts(offset)
    ensures BlockAddr(offset / 4) + BLOCK_WORDS <= WORDS <==> offset < CAPACITY
    ensures offset <= 32 * 1024 * 1024 == CAPACITY
  {
  }

  lemma FirstOfIs(w: nat, n: nat)
    ensures FirstOf(w, n) == if PAGE_WORDS - PageOffset(w) > n then n else PAGE_WORDS - PageOffset(w)
  {
  }

  lemma FirstOfPage(w: nat, n: nat)
    requires PageAddr(w) == w
    ensures FirstOf(w, n) == if n >= PAGE_WORDS then PAGE_WORDS else n
  {
  }

  lemma NoGroups(gs: seq<Group>, from: nat)
    ensures gs + GroupsOf(from, 0) == gs && [] + GroupsOf(from, 0) == []
  {
  }

  lemma GroupsNext(gs: seq<Group>, from: nat, n: nat)
    requires n > 0
    ensures var k := FirstOf(from, n);
            0 < k <= n && gs + GroupsOf(from, n) == gs + [Group(from, k)] + GroupsOf(from + k, n - k)
  {
    var k := FirstOf(from, n);
    assert GroupsOf(from, n) == [Group(from, k)] + GroupsOf(from + k, n - k);
    assert gs + ([Group(from, k)] + GroupsOf(from + k, n - k)) == gs + [Group(from, k)] + GroupsOf(from + k, n - k);
  }

  lemma FirstGroup(w: nat, n: nat)
    requires n <= PAGE_WORDS - PageOffset(w)
    ensures n > 0 ==> PageAddr(w) == PageAddr(w + n - 1)
    ensures n == PAGE_WORDS - PageOffset(w) ==> PageAddr(w + n) == w + n
  {
  }

  lemma NextGroup(w: nat, n: nat)
    requires PageAddr(w) == w && 1 <= n <= PAGE_WORDS
    ensures PageAddr(w) == PageAddr(w + n - 1)
    ensures n == PAGE_WORDS ==> PageAddr(w + n) == w + n
  {
  }

  lemma ClearsStatus(c: Chip, s: nat)
    requires Idle(c)
    ensures Write(c, 0, CMD_CLEAR_STATUS, s) == c.(mode := ReadArray, error := false)
  {
  }

  lemma Erases(c: Chip, blk: nat, s: nat, t: nat)
    requires Idle(c) && BlockAddr(blk) == blk
    ensures Write(Write(c, blk, CMD_ERASE, s), blk, CMD_CONFIRM, t)
         == c.(mode := ReadStatus, mem := EraseBlock(c.mem, blk), busy := t)
  {
    hide BlockAddr, EraseBlock;
  }

  /** The chip after the command, the count and `i` of the words of a group. */
  function Loading(c: Chip, w: nat, data: seq<word>, i: nat, start: nat): Chip
    requires i <= |data|
  {
    var blk := BlockAddr(w);
    c.(mode := if i == |data| then BufConfirm(blk) else BufData(blk, |data| - i),
       start := if i == 0 then start else w, loaded := data[..i])
  }

  lemma BlockIsAddr(w: nat)
    ensures BlockAddr(BlockAddr(w)) == BlockAddr(w) && BlockAddr(w) <= w
  {
  }

  /** A block holds whole pages. */
  lemma PageInBlock(w: nat, i: nat)
    requires PageAddr(w + i) == PageAddr(w)
    ensures BlockAddr(w + i) == BlockAddr(w)
  {
    var b, p := BlockAddr(w), PageAddr(w);
    assert b <= p && p + PAGE_WORDS <= b + BLOCK_WORDS;
  }

  lemma PageBetween(w: nat, i: nat, j: nat)
    requires i <= j && PageAddr(w + j) == PageAddr(w)
    ensures PageAddr(w + i) == PageAddr(w)
  {
  }

  lemma StartsBuffer(c: Chip, blk: nat, n: nat, s: nat, t: nat)
    requires Idle(c) && BlockAddr(blk) == blk && 1 <= n <= PAGE_WORDS
    ensures Write(Write(c, blk, CMD_BUFWRITE, s), blk, n - 1, t) == c.(mode := BufData(blk, n), loaded := [])
  {
    hide BlockAddr;
  }

  lemma LoadsNext(c: Chip, w: nat, data: seq<word>, i: nat, start: nat, s: nat)
    requires i < |data| && PageAddr(w + |data| - 1) == PageAddr(w)
    ensures Write(Loading(c, w, data, i, start), w + i, data[i], s) == Loading(c, w, data, i + 1, start)
  {
    PageBetween(w, i, |data| - 1);
    PageInBlock(w, i);
    assert data[..i] + [data[i]] == data[..i + 1];
    hide BlockAddr, PageAddr;
  }

  lemma Confirms(c: Chip, w: nat, data: seq<word>, start: nat, s: nat)
    requires data != []
    ensures Write(Loading(c, w, data, |data|, start), BlockAddr(w), CMD_CONFIRM, s)
         == c.(mode := ReadStatus, mem := Program(c.mem, w, data), busy := s, start := w, loaded := data,
               groups := c.groups + [Group(w, |data|)])
  {
    BlockIsAddr(w);
    assert data[..|data|] == data;
    hide BlockAddr, Program;
  }
}
