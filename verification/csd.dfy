/** The 128-bit card registers CID and CSD of the MMC commands, kept as four words
    with the most significant first, and the packing of fields into them. */
module CardRegister {

  type Register = s: seq<bv32> | |s| == 4 witness [0, 0, 0, 0]   // CID_LEN words

  /** A field of `bits` bits from bit `start`, and a value for it. */
  datatype Field = Field(start: bv8, bits: bv8, value: bv32)

  predicate NoWider(v: bv32, bits: bv8) {
    bits <= 32 && v >> bits == 0
  }

  predicate Inside(start: bv8, bits: bv8) {
    0 < bits <= 32 && start < 128 && bits <= 128 - start
  }

  /** The field lies inside the register and the value inside the field. */
  predicate Fits(f: Field) {
    Inside(f.start, f.bits) && NoWider(f.value, f.bits)
  }

  function Up(v: bv32, s: bv8): bv32
    requires s <= 32
  {
    v << s
  }

  function Down(v: bv32, s: bv8): bv32
    requires s <= 32
  {
    v >> s
  }

  function Or(a: bv32, b: bv32): bv32 {
    a | b
  }

  /** The word that holds bit `i`. */
  function WordOf(i: bv8): (k: nat)
    requires i < 128
    ensures k < 4
  {
    if i < 32 then 3 else if i < 64 then 2 else if i < 96 then 1 else 0
  }

  /** Bit `j` of a word. */
  function WordBit(w: bv32, j: bv8): bv32
    requires j < 32
  {
    (w >> j) & 1
  }

  /** Bit `i` of a register. */
  function Bit(r: Register, i: bv8): bv32
    requires i < 128
  {
    WordBit(r[WordOf(i)], i % 32)
  }

  predicate InField(f: Field, i: bv8)
    requires f.start < 128 && i < 128
  {
    f.start <= i && i - f.start < f.bits
  }

  /** What writing the field puts at bit `i`. */
  function FieldBit(f: Field, i: bv8): bv32
    requires Fits(f) && i < 128
  {
    if InField(f, i) then WordBit(f.value, i - f.start) else 0
  }

  predicate Crosses(f: Field) {
    f.start % 32 + f.bits > 32
  }

  /** The two words that `FillCidCsdBits` ORs into the register. */
  function LowPart(f: Field): bv32 {
    Up(f.value, f.start % 32)
  }

  function HighPart(f: Field): bv32
    requires Crosses(f) && f.bits <= 32
  {
    Down(f.value, 32 - f.start % 32)
  }

  lemma CrossingStaysInside(f: Field)
    requires Inside(f.start, f.bits) && Crosses(f)
    ensures WordOf(f.start) > 0
  {
  }

  /** The register after `FillCidCsdBits`, also for a value that does not fit. */
  function Fill(r: Register, f: Field): Register
    requires Inside(f.start, f.bits)
  {
    var k := WordOf(f.start);
    var low := r[k := Or(r[k], LowPart(f))];
    if Crosses(f) then
      CrossingStaysInside(f);
      low[k - 1 := Or(low[k - 1], HighPart(f))]
    else low
  }

  // ----- one bit at a time -----

  lemma OrBitRaw(a: bv32, b: bv32, j: bv8)
    requires j < 32
    ensures WordBit(a | b, j) == WordBit(a, j) | WordBit(b, j)
  {
  }

  lemma OrBit(a: bv32, b: bv32, j: bv8)
    requires j < 32
    ensures WordBit(Or(a, b), j) == Or(WordBit(a, j), WordBit(b, j))
  {
    hide WordBit;
    OrBitRaw(a, b, j);
  }

  lemma ShiftedUpRaw(v: bv32, lsb: bv8, bits: bv8, j: bv8)
    requires lsb < 32 && 0 < bits <= 32 && v >> bits == 0 && j < 32
    ensures WordBit(v << lsb, j) == if lsb <= j && j - lsb < bits then WordBit(v, j - lsb) else 0
  {
  }

  lemma ShiftedUp(v: bv32, lsb: bv8, bits: bv8, j: bv8)
    requires lsb < 32 && 0 < bits <= 32 && NoWider(v, bits) && j < 32
    ensures WordBit(Up(v, lsb), j) == if lsb <= j && j - lsb < bits then WordBit(v, j - lsb) else 0
  {
    hide WordBit;
    ShiftedUpRaw(v, lsb, bits, j);
  }

  lemma ShiftedDownRaw(v: bv32, lsb: bv8, bits: bv8, j: bv8)
    requires 0 < lsb < 32 && 0 < bits <= 32 && v >> bits == 0 && j < 32
    ensures WordBit(v >> (32 - lsb), j) == if j + 32 - lsb < bits then WordBit(v, j + 32 - lsb) else 0
  {
  }

  lemma ShiftedDown(v: bv32, lsb: bv8, bits: bv8, j: bv8)
    requires 0 < lsb < 32 && 0 < bits <= 32 && NoWider(v, bits) && j < 32
    ensures WordBit(Down(v, 32 - lsb), j) == if j + 32 - lsb < bits then WordBit(v, j + 32 - lsb) else 0
  {
    hide WordBit;
    ShiftedDownRaw(v, lsb, bits, j);
  }

  lemma SameWord(s: bv8, i: bv8)
    requires s < 128 && i < 128 && WordOf(i) == WordOf(s)
    ensures s <= i <==> s % 32 <= i % 32
    ensures s <= i ==> i - s == i % 32 - s % 32
  {
  }

  lemma NextWord(s: bv8, i: bv8)
    requires s < 128 && i < 128 && WordOf(i) + 1 == WordOf(s)
    ensures s <= i && i - s == i % 32 + 32 - s % 32
  {
  }

  lemma SameWordIn(f: Field, i: bv8)
    requires Inside(f.start, f.bits) && i < 128 && WordOf(i) == WordOf(f.start)
    ensures InField(f, i) <==> f.start % 32 <= i % 32 && i % 32 - f.start % 32 < f.bits
    ensures InField(f, i) ==> i - f.start == i % 32 - f.start % 32
  {
    hide WordOf;
    SameWord(f.start, i);
  }

  lemma NextWordIn(f: Field, i: bv8)
    requires Inside(f.start, f.bits) && i < 128 && WordOf(i) + 1 == WordOf(f.start) && Crosses(f)
    ensures InField(f, i) <==> i % 32 + 32 - f.start % 32 < f.bits
    ensures f.start % 32 > 0 && i - f.start == i % 32 + 32 - f.start % 32
  {
    hide WordOf;
    NextWord(f.start, i);
  }

  lemma LowBit(f: Field, i: bv8)
    requires Fits(f) && i < 128 && WordOf(i) == WordOf(f.start)
    ensures WordBit(LowPart(f), i % 32) == FieldBit(f, i)
  {
    hide WordBit, Up, NoWider, InField, WordOf;
    ShiftedUp(f.value, f.start % 32, f.bits, i % 32);
    SameWordIn(f, i);
  }

  lemma HighBit(f: Field, i: bv8)
    requires Fits(f) && i < 128 && Crosses(f) && WordOf(i) + 1 == WordOf(f.start)
    ensures WordBit(HighPart(f), i % 32) == FieldBit(f, i)
  {
    hide WordBit, Down, NoWider, InField, WordOf, Crosses;
    NextWordIn(f, i);
    ShiftedDown(f.value, f.start % 32, f.bits, i % 32);
  }

  lemma NotInField(f: Field, i: bv8)
    requires Fits(f) && i < 128 && WordOf(i) != WordOf(f.start) && (Crosses(f) ==> WordOf(i) + 1 != WordOf(f.start))
    ensures !InField(f, i)
  {
  }

  /** Filling a field ORs its bits into their places and touches no other,
      whichever words it lies in. */
  lemma FillBit(r: Register, f: Field, i: bv8)
    requires Fits(f) && i < 128
    ensures Bit(Fill(r, f), i) == Or(Bit(r, i), FieldBit(f, i))
  {
    hide NoWider, WordBit, Crosses, Or, LowPart, HighPart, InField, FieldBit, WordOf;
    var k, w := WordOf(f.start), WordOf(i);
    if w == k {
      OrBit(r[k], LowPart(f), i % 32);
      LowBit(f, i);
    } else if Crosses(f) && w + 1 == k {
      OrBit(r[w], HighPart(f), i % 32);
      HighBit(f, i);
    } else {
      NotInField(f, i);
      OutsideIsZero(f, i, WordBit(r[w], i % 32));
    }
  }

  lemma OutsideIsZero(f: Field, i: bv8, b: bv32)
    requires Fits(f) && i < 128 && !InField(f, i)
    ensures Or(b, FieldBit(f, i)) == b
  {
  }

  // ----- reading a field back -----

  function Kept(x: bv32, bits: bv8): bv32
    requires 0 < bits <= 32
  {
    (x << (32 - bits)) >> (32 - bits)
  }

  /** The field of `bits` bits from bit `start`, as section 7 of JESD84-B51 reads it. */
  function Get(r: Register, start: bv8, bits: bv8): bv32
    requires Inside(start, bits)
  {
    var k, lsb := WordOf(start), start % 32;
    if lsb + bits > 32 then
      InsideToo(start, bits);
      Kept(Or(Down(r[k], lsb), Up(r[k - 1], 32 - lsb)), bits)
    else Kept(Down(r[k], lsb), bits)
  }

  lemma InsideToo(start: bv8, bits: bv8)
    requires bits <= 32 && start < 128 && bits <= 128 - start && start % 32 + bits > 32
    ensures WordOf(start) > 0 && start % 32 > 0
  {
  }

  lemma KeptBitRaw(x: bv32, bits: bv8, j: bv8)
    requires 0 < bits <= 32 && j < 32
    ensures WordBit((x << (32 - bits)) >> (32 - bits), j) == if j < bits then WordBit(x, j) else 0
  {
  }

  lemma KeptBit(x: bv32, bits: bv8, j: bv8)
    requires 0 < bits <= 32 && j < 32
    ensures WordBit(Kept(x, bits), j) == if j < bits then WordBit(x, j) else 0
  {
    hide WordBit;
    KeptBitRaw(x, bits, j);
  }

  lemma DownBitRaw(x: bv32, s: bv8, j: bv8)
    requires s < 32 && j < 32
    ensures WordBit(x >> s, j) == if j + s < 32 then WordBit(x, j + s) else 0
  {
  }

  lemma DownBit(x: bv32, s: bv8, j: bv8)
    requires s < 32 && j < 32
    ensures WordBit(Down(x, s), j) == if j + s < 32 then WordBit(x, j + s) else 0
  {
    hide WordBit;
    DownBitRaw(x, s, j);
  }

  lemma UpBitRaw(x: bv32, s: bv8, j: bv8)
    requires 0 < s < 32 && j < 32
    ensures WordBit(x << (32 - s), j) == if j + s < 32 then 0 else WordBit(x, j + s - 32)
  {
  }

  lemma UpBit(x: bv32, s: bv8, j: bv8)
    requires 0 < s < 32 && j < 32
    ensures WordBit(Up(x, 32 - s), j) == if j + s < 32 then 0 else WordBit(x, j + s - 32)
  {
    hide WordBit;
    UpBitRaw(x, s, j);
  }

  lemma PlaceOf(start: bv8, bits: bv8, j: bv8)
    requires Inside(start, bits) && j < bits
    ensures start + j < 128
    ensures start % 32 + j < 32 ==> WordOf(start + j) == WordOf(start) && (start + j) % 32 == start % 32 + j
    ensures start % 32 + j >= 32 ==> WordOf(start + j) + 1 == WordOf(start) && (start + j) % 32 == start % 32 + j - 32
  {
  }

  lemma OrNothing(x: bv32)
    ensures Or(x, 0) == x && Or(0, x) == x
  {
  }

  lemma GetBit(r: Register, start: bv8, bits: bv8, j: bv8)
    requires Inside(start, bits) && j < 32
    ensures j >= bits ==> WordBit(Get(r, start, bits), j) == 0
    ensures j < bits ==> start + j < 128 && WordBit(Get(r, start, bits), j) == Bit(r, start + j)
  {
    hide WordBit, Kept, WordOf, Up, Down, Or;
    var k, lsb := WordOf(start), start % 32;
    if j < bits {
      PlaceOf(start, bits, j);
    }
    if lsb + bits > 32 {
      InsideToo(start, bits);
      GetBitCrossing(r[k], r[k - 1], lsb, bits, j);
    } else {
      KeptBit(Down(r[k], lsb), bits, j);
      DownBit(r[k], lsb, j);
    }
  }

  lemma GetBitCrossing(low: bv32, high: bv32, lsb: bv8, bits: bv8, j: bv8)
    requires 0 < lsb < 32 && 0 < bits <= 32 && j < 32 && lsb + bits > 32
    ensures WordBit(Kept(Or(Down(low, lsb), Up(high, 32 - lsb)), bits), j)
            == if j >= bits then 0 else if j + lsb < 32 then WordBit(low, j + lsb) else WordBit(high, j + lsb - 32)
  {
    hide WordBit, Kept, Up, Down, Or;
    KeptBit(Or(Down(low, lsb), Up(high, 32 - lsb)), bits, j);
    OrBit(Down(low, lsb), Up(high, 32 - lsb), j);
    DownBit(low, lsb, j);
    UpBit(high, lsb, j);
    OrNothing(WordBit(Down(low, lsb), j));
    OrNothing(WordBit(Up(high, 32 - lsb), j));
  }

  ghost predicate SameBits(a: bv32, b: bv32, n: bv8)
    requires n <= 32
  {
    forall j: bv8 :: j < n ==> WordBit(a, j) == WordBit(b, j)
  }

  /** The lowest `n` bits, moved to the top. */
  function Lowest(a: bv32, n: bv8): bv32
    requires n <= 32
  {
    a << (32 - n)
  }

  lemma OneMoreBit(a: bv32, b: bv32, n: bv8)
    requires n < 32 && Lowest(a, n) == Lowest(b, n) && WordBit(a, n) == WordBit(b, n)
    ensures Lowest(a, n + 1) == Lowest(b, n + 1)
  {
  }

  lemma {:induction false} LowestBits(a: bv32, b: bv32, n: bv8)
    requires n <= 32 && SameBits(a, b, n)
    ensures Lowest(a, n) == Lowest(b, n)
    decreases n
  {
    if n == 0 {
    } else {
      LowestButOne(a, b, n);
    }
  }

  lemma LowestButOne(a: bv32, b: bv32, n: bv8)
    requires 0 < n <= 32 && SameBits(a, b, n)
    ensures Lowest(a, n) == Lowest(b, n)
    decreases n, 0
  {
    hide WordBit, Lowest;
    LowestBits(a, b, n - 1);
    OneMoreBit(a, b, n - 1);
  }

  /** A word is its bits. */
  lemma Extensional(a: bv32, b: bv32)
    requires SameBits(a, b, 32)
    ensures a == b
  {
    LowestBits(a, b, 32);
  }

  // ----- what filling means for reading -----

  predicate Clear(r: Register, f: Field)
    requires Inside(f.start, f.bits)
  {
    Get(r, f.start, f.bits) == 0
  }

  /** No bit is in both fields. */
  ghost predicate Apart(f: Field, g: Field)
    requires f.start < 128 && g.start < 128
  {
    forall i: bv8 :: i < 128 && InField(f, i) ==> !InField(g, i)
  }

  lemma WideBit(v: bv32, bits: bv8, j: bv8)
    requires NoWider(v, bits) && bits <= j < 32
    ensures WordBit(v, j) == 0
  {
  }

  lemma ZeroBit(j: bv8)
    requires j < 32
    ensures WordBit(0, j) == 0
  {
  }

  lemma FieldBitAt(f: Field, j: bv8)
    requires Fits(f) && j < f.bits
    ensures f.start + j < 128 && FieldBit(f, f.start + j) == WordBit(f.value, j)
  {
    hide WordBit, NoWider;
  }

  lemma InsideBit(g: Field, j: bv8)
    requires Inside(g.start, g.bits) && j < g.bits
    ensures g.start + j < 128 && InField(g, g.start + j)
  {
  }

  lemma ApartBit(f: Field, g: Field, j: bv8)
    requires Inside(f.start, f.bits) && Inside(g.start, g.bits) && Apart(f, g) && j < g.bits
    ensures g.start + j < 128 && !InField(f, g.start + j)
  {
    hide InField;
    InsideBit(g, j);
  }

  lemma BitKept(r: Register, f: Field, i: bv8)
    requires Fits(f) && i < 128 && !InField(f, i)
    ensures Bit(Fill(r, f), i) == Bit(r, i)
  {
    hide Fits, WordBit, Fill, Bit, FieldBit, Or, InField;
    FillBit(r, f, i);
    OutsideIsZero(f, i, Bit(r, i));
  }

  lemma BitFilled(r: Register, f: Field, i: bv8)
    requires Fits(f) && i < 128 && Bit(r, i) == 0
    ensures Bit(Fill(r, f), i) == FieldBit(f, i)
  {
    hide Fits, WordBit, Fill, Bit, FieldBit, Or, InField;
    FillBit(r, f, i);
    OrNothing(FieldBit(f, i));
  }

  /** A field that was clear reads back what was filled in, even across a word
      boundary. */
  lemma GetFilled(r: Register, f: Field)
    requires Fits(f) && Clear(r, f)
    ensures Get(Fill(r, f), f.start, f.bits) == f.value
  {
    hide WordBit, NoWider, Fill, Get, Bit, FieldBit, InField, Inside;
    var x := Get(Fill(r, f), f.start, f.bits);
    forall j: bv8 | j < 32 ensures WordBit(x, j) == WordBit(f.value, j) {
      GetFilledBit(r, f, j);
    }
    Extensional(x, f.value);
  }

  lemma GetFilledBit(r: Register, f: Field, j: bv8)
    requires Fits(f) && Clear(r, f) && j < 32
    ensures WordBit(Get(Fill(r, f), f.start, f.bits), j) == WordBit(f.value, j)
  {
    hide WordBit, NoWider, Fill, Get, Inside;
    if j < f.bits {
      GetFilledWithin(r, f, j);
    } else {
      GetBit(Fill(r, f), f.start, f.bits, j);
      WideBit(f.value, f.bits, j);
    }
  }

  lemma GetFilledWithin(r: Register, f: Field, j: bv8)
    requires Fits(f) && Clear(r, f) && j < f.bits && j < 32
    ensures WordBit(Get(Fill(r, f), f.start, f.bits), j) == WordBit(f.value, j)
  {
    hide WordBit, NoWider, Fill, Get, Bit, FieldBit, InField, Inside;
    GetBit(Fill(r, f), f.start, f.bits, j);
    GetBit(r, f.start, f.bits, j);
    ZeroBit(j);
    FieldBitAt(f, j);
    BitFilled(r, f, f.start + j);
  }

  /** Every other field reads as before. */
  lemma GetOther(r: Register, f: Field, g: Field)
    requires Fits(f) && Inside(g.start, g.bits) && Apart(f, g)
    ensures Get(Fill(r, f), g.start, g.bits) == Get(r, g.start, g.bits)
  {
    hide WordBit, NoWider, Fill, Get, Bit, FieldBit, InField, Inside, Apart;
    var x, y := Get(Fill(r, f), g.start, g.bits), Get(r, g.start, g.bits);
    forall j: bv8 | j < 32 ensures WordBit(x, j) == WordBit(y, j) {
      GetOtherBit(r, f, g, j);
    }
    Extensional(x, y);
  }

  lemma GetOtherBit(r: Register, f: Field, g: Field, j: bv8)
    requires Fits(f) && Inside(g.start, g.bits) && Apart(f, g) && j < 32
    ensures WordBit(Get(Fill(r, f), g.start, g.bits), j) == WordBit(Get(r, g.start, g.bits), j)
  {
    hide WordBit, NoWider, Fill, Get, Inside, Apart;
    if j < g.bits {
      GetOtherWithin(r, f, g, j);
    } else {
      GetBit(Fill(r, f), g.start, g.bits, j);
      GetBit(r, g.start, g.bits, j);
    }
  }

  lemma GetOtherWithin(r: Register, f: Field, g: Field, j: bv8)
    requires Fits(f) && Inside(g.start, g.bits) && Apart(f, g) && j < g.bits && j < 32
    ensures WordBit(Get(Fill(r, f), g.start, g.bits), j) == WordBit(Get(r, g.start, g.bits), j)
  {
    hide WordBit, NoWider, Fill, Get, Bit, InField, Inside, Apart;
    ApartBit(f, g, j);
    BitKept(r, f, g.start + j);
    GetBit(Fill(r, f), g.start, g.bits, j);
    GetBit(r, g.start, g.bits, j);
  }

  // ----- many fields -----

  predicate AllFit(fs: seq<Field>) {
    forall k :: 0 <= k < |fs| ==> Fits(fs[k])
  }

  ghost predicate AllApart(fs: seq<Field>)
    requires AllInside(fs)
  {
    forall k, l :: 0 <= k < l < |fs| ==> Apart(fs[k], fs[l])
  }

  predicate AllInside(fs: seq<Field>) {
    forall k :: 0 <= k < |fs| ==> Inside(fs[k].start, fs[k].bits)
  }

  function FillAll(r: Register, fs: seq<Field>): Register
    requires AllInside(fs)
  {
    if |fs| == 0 then r else Fill(FillAll(r, fs[..|fs| - 1]), fs[|fs| - 1])
  }

  lemma {:induction false} GetUntouched(r: Register, fs: seq<Field>, g: Field)
    requires AllFit(fs) && Inside(g.start, g.bits) && forall k :: 0 <= k < |fs| ==> Apart(fs[k], g)
    ensures Get(FillAll(r, fs), g.start, g.bits) == Get(r, g.start, g.bits)
  {
    hide Inside, NoWider, Apart, Get, Fill;
    if |fs| > 0 {
      var n := |fs| - 1;
      GetUntouched(r, fs[..n], g);
      GetOther(FillAll(r, fs[..n]), fs[n], g);
    }
  }

  /** However many fields are filled in, each reads back its value. */
  lemma {:induction false} GetAllFilled(r: Register, fs: seq<Field>, k: nat)
    requires AllFit(fs) && AllApart(fs) && k < |fs| && forall l :: 0 <= l < |fs| ==> Clear(r, fs[l])
    ensures Get(FillAll(r, fs), fs[k].start, fs[k].bits) == fs[k].value
  {
    hide Inside, NoWider, Apart, Get, Fill;
    var n := |fs| - 1;
    var r1 := FillAll(r, fs[..n]);
    if k < n {
      GetAllFilled(r, fs[..n], k);
      ApartBothWays(fs[k], fs[n]);
      GetOther(r1, fs[n], fs[k]);
    } else {
      GetUntouched(r, fs[..n], fs[n]);
      GetFilled(r1, fs[n]);
    }
  }

  lemma ApartBothWays(f: Field, g: Field)
    requires Inside(f.start, f.bits) && Inside(g.start, g.bits) && Apart(f, g)
    ensures Apart(g, f)
  {
    hide InField;
  }

  /** And every bit outside them stays as it was. */
  lemma {:induction false} BitUntouched(r: Register, fs: seq<Field>, i: bv8)
    requires AllFit(fs) && i < 128 && forall k :: 0 <= k < |fs| ==> !InField(fs[k], i)
    ensures Bit(FillAll(r, fs), i) == Bit(r, i)
  {
    hide Inside, NoWider, InField, Bit, Fill;
    if |fs| > 0 {
      var n := |fs| - 1;
      BitUntouched(r, fs[..n], i);
      BitKept(FillAll(r, fs[..n]), fs[n], i);
    }
  }

  /** `FillCidCsdBits`. */
  method FillCidCsdBits(resp: array<bv32>, f: Field)
    requires resp.Length == 4 && Inside(f.start, f.bits)
    modifies resp
    ensures resp[..] == Fill(old(resp[..]), f)
  {
    hide NoWider, Or, Up, Down;
    var index := WordOf(f.start);
    resp[index] := Or(resp[index], LowPart(f));
    if Crosses(f) {
      CrossingStaysInside(f);
      resp[index - 1] := Or(resp[index - 1], HighPart(f));
    }
  }

  /** Filling may be resumed where it stopped. */
  lemma {:induction false} FillRest(r: Register, fs: seq<Field>, k: nat)
    requires AllInside(fs) && k <= |fs|
    ensures FillAll(r, fs) == FillAll(FillAll(r, fs[..k]), fs[k..])
  {
    hide Fill, Inside;
    if k < |fs| {
      var n := |fs| - 1;
      FillRest(r, fs[..n], k);
      assert fs[..n][..k] == fs[..k] && fs[..n][k..] == fs[k..][..|fs[k..]| - 1];
    } else {
      assert fs[..k] == fs;
    }
  }

  lemma OneThenRest(r: Register, fs: seq<Field>)
    requires AllInside(fs) && fs != []
    ensures FillAll(r, fs) == FillAll(Fill(r, fs[0]), fs[1..])
  {
    hide Fill, Inside;
    FillRest(r, fs, 1);
    assert fs[..1][..0] == [] && fs[..1][0] == fs[0];
  }

  lemma FillNext(r: Register, fs: seq<Field>, k: nat)
    requires AllInside(fs) && k < |fs|
    ensures FillAll(r, fs[..k + 1]) == Fill(FillAll(r, fs[..k]), fs[k])
  {
    hide Fill, Inside;
    assert fs[..k + 1][..k] == fs[..k];
  }
}

/** The CSD register that the block driver answers with. */
module CardSpecificData {

  import opened CardRegister

  /** Values that come from the MMC headers. */
  datatype Header = Header(structure: bv32, version: bv32, ccc: bv32)

  const CAPACITY_2G: bv64 := 0x40_0000      // in sectors of 512 bytes
  const READ_BL_LEN: bv32 := 11
  const C_SIZE_MULT: bv32 := 7
  const C_SIZE_MAX: bv32 := 0xFFF

  const FIELDS := 16
  const AT_READ_BL_LEN := 7
  const AT_WRITE_BL_LEN := 8
  const AT_C_SIZE := 9
  const AT_C_SIZE_MULT := 10

  predicate HeaderFits(h: Header) {
    NoWider(h.structure, 2) && NoWider(h.version, 4) && NoWider(h.ccc, 12)
  }

  /** `U32_BITS - __builtin_clz(b) - 1`. */
  function Log2(b: bv32): bv8
    requires b != 0
    decreases b
  {
    if b == 1 then 0 else
      Halved(b);
      Log2(Down(b, 1)) + 1
  }

  lemma Halved(b: bv32)
    requires b > 1
    ensures 0 < Down(b, 1) < b && Down(b, 1) <= 0x7FFF_FFFF
  {
  }

  lemma NibbleBelow(b: bv32, r: bv8)
    requires r < 32
    ensures Down(b, r) == 1 ==> (NoWider(r as bv32, 4) <==> b < 0x1_0000)
    ensures Down(1, 0) == 1
  {
  }

  lemma HalfTop(x: bv32, r: bv8)
    requires r < 32 && x <= 0x7FFF_FFFF && x >> r == 1
    ensures r < 31
  {
  }

  lemma HalfTopDown(x: bv32, r: bv8)
    requires r < 32 && x <= 0x7FFF_FFFF && Down(x, r) == 1
    ensures r < 31
  {
    HalfTop(x, r);
  }

  lemma TwiceRaw(b: bv32, r: bv8)
    requires r < 31
    ensures (b >> 1) >> r == b >> (r + 1)
  {
  }

  lemma Twice(b: bv32, r: bv8)
    requires r < 31
    ensures Down(Down(b, 1), r) == Down(b, r + 1)
  {
    TwiceRaw(b, r);
  }

  lemma OneUp(b: bv32, r: bv8)
    requires b > 1 && r < 32 && Down(Down(b, 1), r) == 1
    ensures r < 31 && Down(b, r + 1) == 1
  {
    hide Down;
    Halved(b);
    HalfTopDown(Down(b, 1), r);
    Twice(b, r);
  }

  /** The logarithm is where the top bit is; it fits the field of the block length
      exactly for blocks below 64 KiB. */
  lemma {:induction false} Log2Is(b: bv32)
    requires b != 0
    ensures Log2(b) < 32 && Down(b, Log2(b)) == 1
    ensures NoWider(Log2(b) as bv32, 4) <==> b < 0x1_0000
    decreases b
  {
    hide Down, NoWider;
    NibbleBelow(b, 0);
    if b != 1 {
      Halved(b);
      Log2Is(Down(b, 1));
      OneUp(b, Log2(Down(b, 1)));
      NibbleBelow(b, Log2(Down(b, 1)) + 1);
    }
  }

  lemma Log2Fits(b: bv32)
    requires b != 0
    ensures NoWider(Log2(b) as bv32, 4) <==> b < 0x1_0000
  {
    hide Down, NoWider, Log2;
    Log2Is(b);
  }

  function BlockLen(capacity: bv64, blkSize: bv32): bv32
    requires blkSize != 0
  {
    if capacity > CAPACITY_2G then Log2(blkSize) as bv32 else READ_BL_LEN
  }

  /** The size in mebibytes less one, truncated to 32 bits. */
  function MebiLessOne(capacity: bv64): bv32 {
    ((capacity * 512 / 2048 / 512 - 1) & 0xFFFF_FFFF) as bv32
  }

  function CSize(capacity: bv64): bv32 {
    if capacity > CAPACITY_2G then C_SIZE_MAX else MebiLessOne(capacity)
  }

  /** Where the fields lie, in the order they are filled in. */
  function StartOf(k: nat): bv8 {
    if k == 0 then 126 else if k == 1 then 122 else if k == 2 then 84 else if k == 3 then 79
    else if k == 4 then 78 else if k == 5 then 77 else if k == 6 then 76 else if k == AT_READ_BL_LEN then 80
    else if k == AT_WRITE_BL_LEN then 22 else if k == AT_C_SIZE then 62 else if k == AT_C_SIZE_MULT then 47
    else if k == 11 then 42 else if k == 12 then 37 else if k == 13 then 21 else if k == 14 then 15 else 10
  }

  function BitsOf(k: nat): bv8 {
    if k == 0 then 2 else if k == 1 then 4 else if k == 2 then 12 else if k <= 6 then 1
    else if k <= AT_WRITE_BL_LEN then 4 else if k == AT_C_SIZE then 12 else if k == AT_C_SIZE_MULT then 3
    else if k <= 12 then 5 else if k <= 14 then 1 else 2
  }

  function ValueOf(k: nat, capacity: bv64, blkSize: bv32, h: Header): bv32
    requires blkSize != 0
  {
    if k == 0 then h.structure else if k == 1 then h.version else if k == 2 then h.ccc else if k <= 6 then 0
    else if k <= AT_WRITE_BL_LEN then BlockLen(capacity, blkSize) else if k == AT_C_SIZE then CSize(capacity)
    else if k == AT_C_SIZE_MULT then C_SIZE_MULT else if k == 11 then 31 else if k == 12 then 15 else 0
  }

  function CsdField(k: nat, capacity: bv64, blkSize: bv32, h: Header): Field
    requires blkSize != 0
  {
    Field(StartOf(k), BitsOf(k), ValueOf(k, capacity, blkSize, h))
  }

  function CsdFields(capacity: bv64, blkSize: bv32, h: Header): (fs: seq<Field>)
    requires blkSize != 0
    ensures |fs| == FIELDS && forall k :: 0 <= k < FIELDS ==> fs[k] == CsdField(k, capacity, blkSize, h)
  {
    seq(FIELDS, k requires 0 <= k < FIELDS => CsdField(k, capacity, blkSize, h))
  }

  lemma FieldsInside(capacity: bv64, blkSize: bv32, h: Header)
    requires blkSize != 0
    ensures AllInside(CsdFields(capacity, blkSize, h))
  {
    hide ValueOf;
  }

  /** Which field bit `i` belongs to. */
  function OwnerOf(i: bv8): nat {
    if i >= 126 then 0 else if i >= 122 then 1 else if i >= 84 then 2 else if i >= 80 then AT_READ_BL_LEN
    else if i == 79 then 3
    else if i == 78 then 4 else if i == 77 then 5 else if i == 76 then 6 else if i >= 62 then AT_C_SIZE
    else if i >= 47 then AT_C_SIZE_MULT else if i >= 42 then 11 else if i >= 37 then 12
    else if i >= 22 then AT_WRITE_BL_LEN
    else if i == 21 then 13 else if i >= 15 then 14 else 15
  }

  lemma Owned(k: nat, f: Field, i: bv8)
    requires k < FIELDS && f.start == StartOf(k) && f.bits == BitsOf(k) && i < 128 && InField(f, i)
    ensures OwnerOf(i) == k
  {
  }

  lemma FieldsApart(capacity: bv64, blkSize: bv32, h: Header)
    requires blkSize != 0 && AllInside(CsdFields(capacity, blkSize, h))
    ensures AllApart(CsdFields(capacity, blkSize, h))
  {
    hide ValueOf, StartOf, BitsOf, OwnerOf, InField, CsdFields;
    var fs := CsdFields(capacity, blkSize, h);
    forall k, l | 0 <= k < l < |fs| ensures Apart(fs[k], fs[l]) {
      forall i: bv8 | i < 128 && InField(fs[k], i) ensures !InField(fs[l], i) {
        Owned(k, fs[k], i);
        if InField(fs[l], i) {
          Owned(l, fs[l], i);
        }
      }
    }
  }

  // ----- which values fit -----

  lemma SizeFitsIff(capacity: bv64)
    requires capacity <= CAPACITY_2G
    ensures NoWider(MebiLessOne(capacity), 12) <==> 2048 <= capacity
  {
  }

  /** Every value the driver fills in fits its field exactly under this guard. */
  predicate Supported(capacity: bv64, blkSize: bv32) {
    if capacity > CAPACITY_2G then blkSize < 0x1_0000 else 2048 <= capacity
  }

  lemma ConstantsFit()
    ensures NoWider(0, 1) && NoWider(0, 2) && NoWider(READ_BL_LEN, 4) && NoWider(C_SIZE_MAX, 12)
    ensures NoWider(C_SIZE_MULT, 3) && NoWider(31, 5) && NoWider(15, 5)
  {
  }

  lemma FieldFits(k: nat, capacity: bv64, blkSize: bv32, h: Header)
    requires k < FIELDS && blkSize != 0 && HeaderFits(h) && Supported(capacity, blkSize)
    ensures Fits(CsdField(k, capacity, blkSize, h))
  {
    hide NoWider, Log2, MebiLessOne, Down;
    ConstantsFit();
    Log2Fits(blkSize);
    if capacity <= CAPACITY_2G {
      SizeFitsIff(capacity);
    }
  }

  lemma OtherFieldFits(k: nat, capacity: bv64, blkSize: bv32, h: Header)
    requires k < FIELDS && k != AT_C_SIZE && blkSize != 0 && HeaderFits(h) && capacity <= CAPACITY_2G
    ensures Fits(CsdField(k, capacity, blkSize, h))
  {
    hide NoWider, Log2, MebiLessOne;
    ConstantsFit();
  }

  lemma AllFitIff(capacity: bv64, blkSize: bv32, h: Header)
    requires blkSize != 0 && HeaderFits(h)
    ensures AllFit(CsdFields(capacity, blkSize, h)) <==> Supported(capacity, blkSize)
  {
    hide NoWider, Log2, MebiLessOne, StartOf, Down;
    var fs := CsdFields(capacity, blkSize, h);
    if Supported(capacity, blkSize) {
      forall k | 0 <= k < FIELDS ensures Fits(fs[k]) {
        FieldFits(k, capacity, blkSize, h);
      }
    } else if capacity > CAPACITY_2G {
      Log2Fits(blkSize);
      assert !Fits(fs[AT_READ_BL_LEN]);
    } else {
      SizeFitsIff(capacity);
      assert !Fits(fs[AT_C_SIZE]);
    }
  }

  // ----- the register built -----

  /** The first `n` fields have been filled in. */
  ghost predicate FilledTo(now: Register, r: Register, capacity: bv64, blkSize: bv32, h: Header, n: nat)
    requires blkSize != 0
  {
    n <= FIELDS && AllInside(CsdFields(capacity, blkSize, h)) && now == FillAll(r, CsdFields(capacity, blkSize, h)[..n])
  }

  /** `VirtMmcFillRespCsd`, up to the block lengths. */
  method FillHead(resp: array<bv32>, capacity: bv64, blkSize: bv32, h: Header, ghost r: Register)
    requires resp.Length == 4 && blkSize != 0 && FilledTo(resp[..], r, capacity, blkSize, h, 0)
    modifies resp
    ensures FilledTo(resp[..], r, capacity, blkSize, h, 7)
  {
    hide Fill, FillAll, CsdFields, MebiLessOne, Log2, NoWider;
    ghost var fs := CsdFields(capacity, blkSize, h);
    FillCidCsdBits(resp, Field(126, 2, h.structure));   // CSD_STRUCTURE
    FillNext(r, fs, 0);
    FillCidCsdBits(resp, Field(122, 4, h.version));   // SPEC_VERS
    FillNext(r, fs, 1);
    FillCidCsdBits(resp, Field(84, 12, h.ccc));   // CCC
    FillNext(r, fs, 2);
    FillCidCsdBits(resp, Field(79, 1, 0));   // READ_BL_PARTIAL
    FillNext(r, fs, 3);
    FillCidCsdBits(resp, Field(78, 1, 0));   // WRITE_BLK_MISALIGN
    FillNext(r, fs, 4);
    FillCidCsdBits(resp, Field(77, 1, 0));   // READ_BLK_MISALIGN
    FillNext(r, fs, 5);
    FillCidCsdBits(resp, Field(76, 1, 0));   // DSR_IMP
    FillNext(r, fs, 6);
  }

  /** `VirtMmcFillRespCsd`, block lengths and size. */
  method FillSize(resp: array<bv32>, capacity: bv64, blkSize: bv32, h: Header, ghost r: Register)
    requires resp.Length == 4 && blkSize != 0 && FilledTo(resp[..], r, capacity, blkSize, h, 7)
    modifies resp
    ensures FilledTo(resp[..], r, capacity, blkSize, h, 10)
  {
    hide Fill, FillAll, CsdFields, MebiLessOne, Log2, NoWider;
    ghost var fs := CsdFields(capacity, blkSize, h);
    if capacity > CAPACITY_2G {
      var e := Log2(blkSize) as bv32;
      FillCidCsdBits(resp, Field(80, 4, e));   // READ_BL_LEN
      FillNext(r, fs, 7);
      FillCidCsdBits(resp, Field(22, 4, e));   // WRITE_BL_LEN
      FillNext(r, fs, 8);
      FillCidCsdBits(resp, Field(62, 12, C_SIZE_MAX));   // C_SIZE
      FillNext(r, fs, 9);
    } else {
      FillCidCsdBits(resp, Field(80, 4, READ_BL_LEN));   // READ_BL_LEN
      FillNext(r, fs, 7);
      FillCidCsdBits(resp, Field(22, 4, READ_BL_LEN));   // WRITE_BL_LEN
      FillNext(r, fs, 8);
      var size := MebiLessOne(capacity);
      FillCidCsdBits(resp, Field(62, 12, size));   // C_SIZE
      FillNext(r, fs, 9);
    }
  }

  /** `VirtMmcFillRespCsd`, the rest. */
  method FillTail(resp: array<bv32>, capacity: bv64, blkSize: bv32, h: Header, ghost r: Register)
    requires resp.Length == 4 && blkSize != 0 && FilledTo(resp[..], r, capacity, blkSize, h, 10)
    modifies resp
    ensures FilledTo(resp[..], r, capacity, blkSize, h, 16)
  {
    hide Fill, FillAll, CsdFields, MebiLessOne, Log2, NoWider;
    ghost var fs := CsdFields(capacity, blkSize, h);
    FillCidCsdBits(resp, Field(47, 3, C_SIZE_MULT));   // C_SIZE_MULT
    FillNext(r, fs, 10);
    FillCidCsdBits(resp, Field(42, 5, 31));   // ERASE_GRP_SIZE
    FillNext(r, fs, 11);
    FillCidCsdBits(resp, Field(37, 5, 15));   // ERASE_GRP_MULT
    FillNext(r, fs, 12);
    FillCidCsdBits(resp, Field(21, 1, 0));   // WRITE_BL_PARTIAL
    FillNext(r, fs, 13);
    FillCidCsdBits(resp, Field(15, 1, 0));   // FILE_FORMAT_GRP
    FillNext(r, fs, 14);
    FillCidCsdBits(resp, Field(10, 2, 0));   // FILE_FORMAT
    FillNext(r, fs, 15);
  }

  /** `VirtMmcFillRespCsd`. */
  method VirtMmcFillRespCsd(resp: array<bv32>, capacity: bv64, blkSize: bv32, h: Header)
    requires resp.Length == 4 && blkSize != 0
    modifies resp
    ensures AllInside(CsdFields(capacity, blkSize, h))
    ensures resp[..] == FillAll(old(resp[..]), CsdFields(capacity, blkSize, h))
  {
    hide FillAll, CsdFields, AllInside;
    ghost var r := resp[..];
    FieldsInside(capacity, blkSize, h);
    FillNone(r, CsdFields(capacity, blkSize, h));
    FillHead(resp, capacity, blkSize, h, r);
    FillSize(resp, capacity, blkSize, h, r);
    FillTail(resp, capacity, blkSize, h, r);
    assert CsdFields(capacity, blkSize, h)[..FIELDS] == CsdFields(capacity, blkSize, h);
  }

  lemma FillNone(r: Register, fs: seq<Field>)
    requires AllInside(fs)
    ensures FillAll(r, fs[..0]) == r
  {
  }

  /** Reading a field of the register gives what the driver put there, if the
      field was clear before. */
  lemma CsdReads(r: Register, capacity: bv64, blkSize: bv32, h: Header, k: nat)
    requires blkSize != 0 && HeaderFits(h) && Supported(capacity, blkSize) && k < FIELDS
    requires AllInside(CsdFields(capacity, blkSize, h))
    requires forall l :: 0 <= l < FIELDS ==> Clear(r, CsdFields(capacity, blkSize, h)[l])
    ensures Inside(StartOf(k), BitsOf(k))
    ensures Get(FillAll(r, CsdFields(capacity, blkSize, h)), StartOf(k), BitsOf(k)) == ValueOf(k, capacity, blkSize, h)
  {
    hide Inside, NoWider, Get, FillAll, StartOf, BitsOf, ValueOf, Clear;
    AllFitIff(capacity, blkSize, h);
    FieldsApart(capacity, blkSize, h);
    GetAllFilled(r, CsdFields(capacity, blkSize, h), k);
  }

  /** A field of the register by its place and value. */
  lemma ReadsAt(r: Register, capacity: bv64, blkSize: bv32, h: Header, k: nat, start: bv8, bits: bv8, value: bv32)
    requires blkSize != 0 && HeaderFits(h) && Supported(capacity, blkSize) && k < FIELDS
    requires AllInside(CsdFields(capacity, blkSize, h))
    requires forall l :: 0 <= l < FIELDS ==> Clear(r, CsdFields(capacity, blkSize, h)[l])
    requires StartOf(k) == start && BitsOf(k) == bits && ValueOf(k, capacity, blkSize, h) == value
    ensures Inside(start, bits) && Get(FillAll(r, CsdFields(capacity, blkSize, h)), start, bits) == value
  {
    hide Inside, NoWider, Get, FillAll, StartOf, BitsOf, ValueOf, Clear;
    CsdReads(r, capacity, blkSize, h, k);
  }

  /** The fields that do not depend on the card, wherever all values fit. */
  lemma ConstantFields(r: Register, capacity: bv64, blkSize: bv32, h: Header)
    requires blkSize != 0 && HeaderFits(h) && Supported(capacity, blkSize)
    requires AllInside(CsdFields(capacity, blkSize, h))
    requires forall l :: 0 <= l < FIELDS ==> Clear(r, CsdFields(capacity, blkSize, h)[l])
    ensures var csd := FillAll(r, CsdFields(capacity, blkSize, h));
            && Get(csd, 126, 2) == h.structure && Get(csd, 122, 4) == h.version && Get(csd, 84, 12) == h.ccc
            && Get(csd, 79, 1) == 0 && Get(csd, 78, 1) == 0 && Get(csd, 77, 1) == 0 && Get(csd, 76, 1) == 0
            && Get(csd, 47, 3) == 7 && Get(csd, 42, 5) == 31 && Get(csd, 37, 5) == 15
            && Get(csd, 21, 1) == 0 && Get(csd, 15, 1) == 0 && Get(csd, 10, 2) == 0
  {
    hide NoWider, Get, FillAll, Clear, BlockLen, CSize, CsdFields, AllInside, HeaderFits, Supported;
    ReadsAt(r, capacity, blkSize, h, 0, 126, 2, h.structure);
    ReadsAt(r, capacity, blkSize, h, 1, 122, 4, h.version);
    ReadsAt(r, capacity, blkSize, h, 2, 84, 12, h.ccc);
    ReadsAt(r, capacity, blkSize, h, 3, 79, 1, 0);
    ReadsAt(r, capacity, blkSize, h, 4, 78, 1, 0);
    ReadsAt(r, capacity, blkSize, h, 5, 77, 1, 0);
    ReadsAt(r, capacity, blkSize, h, 6, 76, 1, 0);
    ReadsAt(r, capacity, blkSize, h, 10, 47, 3, 7);
    ReadsAt(r, capacity, blkSize, h, 11, 42, 5, 31);
    ReadsAt(r, capacity, blkSize, h, 12, 37, 5, 15);
    ReadsAt(r, capacity, blkSize, h, 13, 21, 1, 0);
    ReadsAt(r, capacity, blkSize, h, 14, 15, 1, 0);
    ReadsAt(r, capacity, blkSize, h, 15, 10, 2, 0);
  }

  lemma TopBitRaw(b: bv32, e: bv8)
    requires e < 16 && b < 0x1_0000 && b >> e == 1
    ensures ((1 as bv32) << e) <= b < ((1 as bv32) << (e + 1))
  {
  }

  lemma TopBitSmall(b: bv32, e: bv8)
    requires e < 32 && b < 0x1_0000 && b >> e == 1
    ensures e < 16
  {
  }

  lemma TopBitAt(b: bv32, e: bv8)
    requires e < 32 && b < 0x1_0000 && Down(b, e) == 1
    ensures e < 16 && ((1 as bv32) << e) <= b < ((1 as bv32) << (e + 1))
  {
    TopBitSmall(b, e);
    TopBitRaw(b, e);
  }

  lemma TopBit(b: bv32)
    requires b != 0 && b < 0x1_0000
    ensures var e := Log2(b); e < 16 && ((1 as bv32) << e) <= b < ((1 as bv32) << (e + 1))
  {
    hide NoWider, Log2, Down;
    Log2Is(b);
    TopBitAt(b, Log2(b));
  }

  /** Above 2 GiB, for blocks below 64 KiB, the register says that the size is in the
      extended CSD, by all ones, and gives the logarithm of the block size. */
  lemma LargeCardReads(r: Register, capacity: bv64, blkSize: bv32, h: Header) returns (e: bv8)
    requires blkSize != 0 && HeaderFits(h) && capacity > 0x40_0000 && blkSize < 0x1_0000
    requires AllInside(CsdFields(capacity, blkSize, h))
    requires forall l :: 0 <= l < FIELDS ==> Clear(r, CsdFields(capacity, blkSize, h)[l])
    ensures var csd := FillAll(r, CsdFields(capacity, blkSize, h));
            Get(csd, 62, 12) == 0xFFF && Get(csd, 80, 4) == e as bv32 && Get(csd, 22, 4) == e as bv32
    ensures e < 16 && ((1 as bv32) << e) <= blkSize < ((1 as bv32) << (e + 1))
  {
    e := Log2(blkSize);
    TopBit(blkSize);
    hide NoWider, Get, FillAll, Clear, Log2, CsdFields, AllInside, HeaderFits, MebiLessOne;
    ReadsAt(r, capacity, blkSize, h, AT_C_SIZE, 62, 12, 0xFFF);
    ReadsAt(r, capacity, blkSize, h, AT_READ_BL_LEN, 80, 4, e as bv32);
    ReadsAt(r, capacity, blkSize, h, AT_WRITE_BL_LEN, 22, 4, e as bv32);
  }

  /** Up to 2 GiB both block lengths are 2 KiB. */
  lemma SmallCardReads(r: Register, capacity: bv64, blkSize: bv32, h: Header)
    requires blkSize != 0 && HeaderFits(h) && 2048 <= capacity <= 0x40_0000
    requires AllInside(CsdFields(capacity, blkSize, h))
    requires forall l :: 0 <= l < FIELDS ==> Clear(r, CsdFields(capacity, blkSize, h)[l])
    ensures var csd := FillAll(r, CsdFields(capacity, blkSize, h));
            Get(csd, 80, 4) == 11 && Get(csd, 22, 4) == 11
  {
    hide NoWider, Get, FillAll, Clear, Log2, CsdFields, AllInside, HeaderFits, MebiLessOne;
    ReadsAt(r, capacity, blkSize, h, AT_READ_BL_LEN, 80, 4, 11);
    ReadsAt(r, capacity, blkSize, h, AT_WRITE_BL_LEN, 22, 4, 11);
  }

  /** The capacity in bytes that section 7.3 of JESD84-B51 reads from a CSD. */
  function DecodedBytes(cSize: bv32, cSizeMult: bv32, readBlLen: bv32): bv64
    requires cSizeMult < 8 && readBlLen < 16
  {
    (((cSize as bv64) + 1) << (cSizeMult + 2)) << readBlLen
  }

  lemma SizeDecodes(capacity: bv64)
    requires 2048 <= capacity <= CAPACITY_2G
    ensures OneMebiBelow(DecodedBytes(MebiLessOne(capacity), C_SIZE_MULT, READ_BL_LEN), capacity)
  {
  }

  /** `bytes` is at most the capacity and less than 1 MiB below it. */
  predicate OneMebiBelow(bytes: bv64, capacity: bv64) {
    bytes <= capacity * 512 && capacity * 512 - bytes < 0x10_0000
  }

  predicate Decodes(csd: Register, capacity: bv64) {
    && Get(csd, 47, 3) < 8 && Get(csd, 80, 4) < 16
    && OneMebiBelow(DecodedBytes(Get(csd, 62, 12), Get(csd, 47, 3), Get(csd, 80, 4)), capacity)
  }

  /** Up to 2 GiB, the register built from a clear one decodes to a capacity at most
      the true one and less than 1 MiB below it exactly from 1 MiB on. */
  lemma CsdDecodes(r: Register, capacity: bv64, blkSize: bv32, h: Header)
    requires blkSize != 0 && HeaderFits(h) && capacity <= CAPACITY_2G
    requires AllInside(CsdFields(capacity, blkSize, h))
    requires forall l :: 0 <= l < FIELDS ==> Clear(r, CsdFields(capacity, blkSize, h)[l])
    ensures Decodes(FillAll(r, CsdFields(capacity, blkSize, h)), capacity) <==> 2048 <= capacity
  {
    hide NoWider, Get, FillAll, Clear, MebiLessOne, DecodedBytes, OneMebiBelow, Log2, CsdFields, AllInside;
    if 2048 <= capacity {
      SizeDecodes(capacity);
      SizeReads(r, capacity, blkSize, h);
    } else {
      SmallCapacitySpoils(r, capacity, blkSize, h);
      SpoiltDecodes(capacity);
    }
  }

  lemma SpoiltDecodes(capacity: bv64)
    requires capacity < 2048
    ensures DecodedBytes(0xFFF, C_SIZE_MULT, 15) == 0x10_0000_0000
    ensures !OneMebiBelow(DecodedBytes(0xFFF, C_SIZE_MULT, 15), capacity)
  {
  }

  lemma SizeReads(r: Register, capacity: bv64, blkSize: bv32, h: Header)
    requires blkSize != 0 && HeaderFits(h) && 2048 <= capacity <= CAPACITY_2G
    requires AllInside(CsdFields(capacity, blkSize, h))
    requires forall l :: 0 <= l < FIELDS ==> Clear(r, CsdFields(capacity, blkSize, h)[l])
    ensures Get(FillAll(r, CsdFields(capacity, blkSize, h)), 62, 12) == MebiLessOne(capacity)
    ensures Get(FillAll(r, CsdFields(capacity, blkSize, h)), 47, 3) == C_SIZE_MULT
    ensures Get(FillAll(r, CsdFields(capacity, blkSize, h)), 80, 4) == READ_BL_LEN
  {
    hide NoWider, Get, FillAll, Clear, MebiLessOne, Log2, CsdFields, AllInside;
    CsdReads(r, capacity, blkSize, h, AT_C_SIZE);
    CsdReads(r, capacity, blkSize, h, AT_C_SIZE_MULT);
    CsdReads(r, capacity, blkSize, h, AT_READ_BL_LEN);
  }

  /** Below 1 MiB the size wraps, and its excess bits spoil the block length: the
      register built reads 64 GiB. */
  lemma SmallCapacitySpoils(r: Register, capacity: bv64, blkSize: bv32, h: Header)
    requires blkSize != 0 && HeaderFits(h) && capacity < 2048
    requires AllInside(CsdFields(capacity, blkSize, h))
    requires forall l :: 0 <= l < FIELDS ==> Clear(r, CsdFields(capacity, blkSize, h)[l])
    ensures var csd := FillAll(r, CsdFields(capacity, blkSize, h));
            Get(csd, 62, 12) == 0xFFF && Get(csd, 47, 3) == C_SIZE_MULT && Get(csd, 80, 4) == 15
  {
    hide NoWider, Get, Fill, FillAll, Clear, MebiLessOne, Log2, CsdFields, Inside, Apart, ValueOf;
    var fs := CsdFields(capacity, blkSize, h);
    var r9 := BeforeSize(r, capacity, blkSize, h);
    var r10 := Fill(r9, fs[AT_C_SIZE]);
    SizeWraps(capacity);
    SizeFieldIs(capacity, blkSize, h);
    AllOnesSpoil(r9);
    AfterSize(r10, capacity, blkSize, h);
    FillNext(r, fs, AT_C_SIZE);
    FillRest(r, fs, AT_C_SIZE + 1);
  }

  lemma SizeFieldIs(capacity: bv64, blkSize: bv32, h: Header)
    requires blkSize != 0 && capacity <= CAPACITY_2G
    ensures CsdField(AT_C_SIZE, capacity, blkSize, h) == Field(62, 12, MebiLessOne(capacity))
    ensures CsdField(AT_C_SIZE_MULT, capacity, blkSize, h) == Field(47, 3, C_SIZE_MULT)
    ensures CsdField(AT_READ_BL_LEN, capacity, blkSize, h) == Field(80, 4, READ_BL_LEN)
  {
    hide MebiLessOne, Log2;
  }

  /** Before the size is filled in, its multiplier is still clear. */
  lemma BeforeSize(r: Register, capacity: bv64, blkSize: bv32, h: Header) returns (r9: Register)
    requires blkSize != 0 && HeaderFits(h) && capacity <= CAPACITY_2G
    requires AllInside(CsdFields(capacity, blkSize, h))
    requires forall l :: 0 <= l < FIELDS ==> Clear(r, CsdFields(capacity, blkSize, h)[l])
    ensures r9 == FillAll(r, CsdFields(capacity, blkSize, h)[..AT_C_SIZE]) && Get(r9, 47, 3) == 0
  {
    hide NoWider, Get, Fill, MebiLessOne, Log2, CsdFields, Apart, StartOf, BitsOf, ValueOf;
    var fs := CsdFields(capacity, blkSize, h);
    FieldsApart(capacity, blkSize, h);
    var head, g := fs[..AT_C_SIZE], fs[AT_C_SIZE_MULT];
    forall k | 0 <= k < |head| ensures Fits(head[k]) && Apart(head[k], g) {
      OtherFieldFits(k, capacity, blkSize, h);
      assert head[k] == fs[k] && Apart(fs[k], fs[AT_C_SIZE_MULT]);
    }
    r9 := FillAll(r, head);
    SizeFieldIs(capacity, blkSize, h);
    assert Clear(r, g);
    GetUntouched(r, head, g);
  }

  /** After it, only the multiplier is still filled in. */
  lemma AfterSize(r: Register, capacity: bv64, blkSize: bv32, h: Header)
    requires blkSize != 0 && HeaderFits(h) && capacity <= CAPACITY_2G && Get(r, 47, 3) == 0
    requires AllInside(CsdFields(capacity, blkSize, h))
    ensures var csd := FillAll(r, CsdFields(capacity, blkSize, h)[AT_C_SIZE + 1..]);
            Get(csd, 62, 12) == Get(r, 62, 12) && Get(csd, 47, 3) == C_SIZE_MULT && Get(csd, 80, 4) == Get(r, 80, 4)
  {
    hide NoWider, Get, Fill, MebiLessOne, Log2, CsdFields, Apart, StartOf, BitsOf, ValueOf;
    var fs := CsdFields(capacity, blkSize, h);
    FieldsApart(capacity, blkSize, h);
    SizeFieldIs(capacity, blkSize, h);
    var tail, mult := fs[AT_C_SIZE + 1..], fs[AT_C_SIZE_MULT];
    var rest := tail[1..];
    assert tail[0] == mult;
    forall k | 0 <= k < |tail|
      ensures Fits(tail[k]) && Apart(tail[k], fs[AT_C_SIZE]) && Apart(tail[k], fs[AT_READ_BL_LEN])
    {
      assert tail[k] == fs[AT_C_SIZE + 1 + k];
      OtherFieldFits(AT_C_SIZE + 1 + k, capacity, blkSize, h);
      ApartBothWays(fs[AT_C_SIZE], tail[k]);
      ApartBothWays(fs[AT_READ_BL_LEN], tail[k]);
    }
    GetUntouched(r, tail, fs[AT_C_SIZE]);
    GetUntouched(r, tail, fs[AT_READ_BL_LEN]);
    forall k | 0 <= k < |rest| ensures Fits(rest[k]) && Apart(rest[k], mult) {
      assert rest[k] == tail[1 + k] == fs[AT_C_SIZE_MULT + 1 + k];
      ApartBothWays(mult, rest[k]);
    }
    OneThenRest(r, tail);
    GetFilled(r, mult);
    GetUntouched(Fill(r, mult), rest, mult);
  }

  lemma SizeWraps(capacity: bv64)
    requires capacity < 2048
    ensures MebiLessOne(capacity) == 0xFFFF_FFFF
  {
  }

  lemma AllOnesSpoil(r: Register)
    ensures var s := Fill(r, Field(62, 12, 0xFFFF_FFFF));
            Get(s, 62, 12) == 0xFFF && Get(s, 80, 4) == 15 && Get(s, 47, 3) == Get(r, 47, 3)
  {
  }
}
