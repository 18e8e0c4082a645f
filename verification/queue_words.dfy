/** What the device is told of a queue: its size, and its three addresses in two
    halves each (`WriteQueueAddr`). */
module QueueWords {

  import opened InitRules
  import opened QueueLayout

  const U32: nat := 0x1_0000_0000

  /** The binary digits of `n`. */
  function Bits(n: nat): bv32 {
    if n == 0 then 0 else Digit(Bits(n / 2), n % 2)
  }

  function Digit(b: bv32, d: nat): bv32 {
    if d == 0 then b << 1 else (b << 1) | 1
  }

  function ValueOf(b: bv32): nat {
    b as nat
  }

  function ToWord(n: nat): Word {
    Word(Bits(n))
  }

  function ToNat(w: Word): nat {
    ValueOf(w.bits)
  }

  lemma Doubled(b: bv32)
    requires b < 0x8000_0000
    ensures (b << 1) as nat == 2 * (b as nat)
  {
  }

  lemma DoubledAndOne(b: bv32)
    requires b < 0x8000_0000
    ensures ((b << 1) | 1) as nat == 2 * (b as nat) + 1
  {
  }

  lemma NoHighBit(b: bv32)
    requires ValueOf(b) < 0x8000_0000
    ensures b < 0x8000_0000
  {
  }

  lemma ValueOfZero()
    ensures ValueOf(0) == 0
  {
  }

  lemma DigitAdds(b: bv32, d: nat)
    requires ValueOf(b) < 0x8000_0000 && d < 2
    ensures ValueOf(Digit(b, d)) == 2 * ValueOf(b) + d
  {
    NoHighBit(b);
    if d == 0 {
      Doubled(b);
    } else {
      DoubledAndOne(b);
    }
  }

  lemma {:induction false} BitsBack(n: nat)
    requires n < U32
    ensures ValueOf(Bits(n)) == n
  {
    hide Digit, ValueOf;
    ValueOfZero();
    if n > 0 {
      BitsBack(n / 2);
      DigitAdds(Bits(n / 2), n % 2);
    }
  }

  lemma WordBack(n: nat)
    requires n < U32
    ensures ToNat(ToWord(n)) == n
  {
    hide Bits;
    BitsBack(n);
  }

  function Low(addr: nat): Word {
    ToWord(addr % U32)
  }

  function High(addr: nat): Word {
    ToWord(addr / U32 % U32)
  }

  /** The address the device puts together from two halves. */
  function Address(low: Word, high: Word): nat {
    ToNat(high) * 0x1_0000_0000 + ToNat(low)
  }

  lemma HalvesBack(addr: nat)
    requires addr < U32 * U32
    ensures Address(Low(addr), High(addr)) == addr
  {
    hide ToWord, ToNat;
    WordBack(addr % U32);
    WordBack(addr / U32 % U32);
  }

  /** The six words written for a queue. */
  function Parts(p: Placed): (s: seq<Word>)
    ensures |s| == ADDR_PARTS
  {
    [Low(p.desc), High(p.desc), Low(p.avail), High(p.avail), Low(p.used), High(p.used)]
  }

  /** The queue as the device understands it. */
  function Understood(parts: seq<Word>, size: Word): Placed
    requires |parts| == ADDR_PARTS
  {
    Placed(Address(parts[0], parts[1]), Address(parts[2], parts[3]), Address(parts[4], parts[5]), ToNat(size))
  }

  /** The device takes a queue to be exactly where the driver has placed it. */
  lemma UnderstoodAsPlaced(p: Placed)
    requires p.desc < 0x1_0000_0000_0000_0000 && p.avail < 0x1_0000_0000_0000_0000
    requires p.used < 0x1_0000_0000_0000_0000 && p.qsz < 0x1_0000_0000
    ensures Understood(Parts(p), ToWord(p.qsz)) == p
  {
    hide Low, High, Address, ToWord, ToNat;
    HalvesBack(p.desc);
    HalvesBack(p.avail);
    HalvesBack(p.used);
    WordBack(p.qsz);
  }
}
