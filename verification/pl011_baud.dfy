/** The baud rate divisor of the PL011: integer part IBRD and, in 64ths, the
    fractional part FBRD of CLK / (16 * baud) (sections 3.3.5 and 3.3.6 of
    ARM DDI 0183). */
module Pl011Baud {
  const CLK: nat := 24000000
  const U32: nat := 0x1_0000_0000

  type uint32 = x: int | 0 <= x < 0x1_0000_0000

  /** `Pl011ConfigBaudrate`, with every product reduced to 32 bits as in C. */
  method ConfigBaudrate(baudrate: uint32) returns (written: bool, ibrd: uint32, fbrd: uint32)
    ensures written <==> 0 < 16 * baudrate < 0x1_0000_0000
    ensures written ==> Nearest(ibrd, fbrd, baudrate) && fbrd <= 64
    ensures written ==> ibrd == 24000000 / (16 * baudrate)
    ensures written ==> (fbrd == 64 <==> 8 * (24000000 % (16 * baudrate)) >= 127 * baudrate)
  {
    hide Nearest;
    var tmp := 16 * baudrate;
    if tmp == 0 || tmp > U32 - 1 {
      return false, 0, 0;
    }
    var value := (16 * baudrate) % U32;
    var divider, remainder := DivideClock(value);
    var fraction; ghost var v;
    fraction, v := Fraction(remainder, baudrate);
    Rounding(baudrate, divider, remainder, v, fraction);
    return true, divider, fraction;
  }

  method DivideClock(value: uint32) returns (d: uint32, r: uint32)
    requires value > 0
    ensures d == 24000000 / value && r == 24000000 % value && CLK == d * value + r && r < value
  {
    DivMod(CLK, value);
    d, r := CLK / value, CLK % value;
  }

  /** The remainder in 64ths: eighths of eighths, rounded up. */
  method Fraction(remainder: uint32, baudrate: uint32) returns (f: uint32, ghost v: nat)
    requires baudrate > 0 && remainder < 16 * baudrate && remainder <= CLK
    ensures f == v / 2 + v % 2 && v * baudrate <= 8 * remainder < v * baudrate + baudrate
    ensures v >= 127 <==> 8 * remainder >= 127 * baudrate
  {
    assert (8 * remainder) % U32 == 8 * remainder;
    var eighths := ((8 * remainder) % U32) / baudrate;
    Quotient(8 * remainder, baudrate, 127);
    DivMod(8 * remainder, baudrate);
    f, v := eighths / 2 + eighths % 2, eighths;
  }

  /** 64 * ibrd + fbrd is the integer nearest to 64 * CLK / (16 * baud), halves
      rounded up. */
  ghost predicate Nearest(ibrd: int, fbrd: int, baud: int) {
    var n := 64 * ibrd + fbrd;
    2 * (n * (16 * baud)) <= 2 * (64 * 24000000) + 16 * baud < 2 * ((n + 1) * (16 * baud))
  }

  lemma DivMod(x: nat, q: nat)
    requires q > 0
    ensures x == (x / q) * q + x % q && 0 <= x % q < q && x % q <= x && x / q >= 0
  {
    assert (x / q) * q >= 0;
  }

  /** `x / q` reaches `k` exactly when `x` reaches `k * q`. */
  lemma Quotient(x: nat, q: nat, k: nat)
    requires q > 0
    ensures x / q >= k <==> x >= k * q
  {
    DivMod(x, q);
    if x / q >= k {
      assert (x / q - k) * q >= 0;
    } else {
      assert (k - 1 - x / q) * q >= 0;
    }
  }

  /** Halving a count of eighths, rounding up. */
  lemma HalfUp(v: nat, f: nat, b: nat)
    requires f == v / 2 + v % 2
    ensures v * b <= 2 * (f * b) <= v * b + b
  {
    if v % 2 == 0 {
      assert v == 2 * f;
    } else {
      assert v + 1 == 2 * f;
      assert (v + 1) * b == v * b + b;
    }
  }

  /** The product the divisor stands for, split at the point. */
  lemma Scaled(b: nat, d: nat, f: nat)
    ensures (64 * d + f) * (16 * b) == 64 * (d * (16 * b)) + 16 * (f * b)
    ensures (64 * d + f + 1) * (16 * b) == 64 * (d * (16 * b)) + 16 * (f * b) + 16 * b
  {
  }

  lemma MulMonotone(b: nat, v: nat, k: nat)
    ensures v >= k ==> v * b >= k * b
  {
    if v >= k {
      assert v * b == k * b + (v - k) * b;
    }
  }

  lemma Rounding(b: nat, d: nat, r: nat, v: nat, f: nat)
    requires b > 0 && CLK == d * (16 * b) + r && r < 16 * b
    requires v * b <= 8 * r < v * b + b && f == v / 2 + v % 2
    ensures Nearest(d, f, b) && v < 128 && f <= 64 && (f == 64 <==> v >= 127)
  {
    HalfUp(v, f, b);
    Scaled(b, d, f);
    MulMonotone(b, v, 128);
  }

  /** The registers hold 16 and 6 bits. */
  function HeldByHardware(ibrd: nat, fbrd: nat): nat {
    64 * (ibrd % 0x1_0000) + fbrd % 64
  }

  /** The divisor the hardware uses is the one computed exactly when the baud
      rate is at least 23 and the fraction does not round up to a whole. */
  lemma HardwareAgreesIff(b: nat, ibrd: nat, fbrd: nat)
    requires 0 < 16 * b < U32 && ibrd == CLK / (16 * b) && fbrd <= 64
    requires fbrd == 64 <==> 8 * (CLK % (16 * b)) >= 127 * b
    ensures HeldByHardware(ibrd, fbrd) == 64 * ibrd + fbrd <==> b >= 23 && 8 * (CLK % (16 * b)) < 127 * b
  {
    Quotient(CLK, 16 * b, 0x1_0000);
    DivMod(ibrd, 0x1_0000);
  }

  /** 750001 baud, below the driver's limit of 921600, is accepted, and FBRD is
      written as 64, of which the register keeps 0. */
  method FractionOverflowExample() returns (written: bool, ibrd: uint32, fbrd: uint32)
    ensures written && ibrd == 1 && fbrd == 64 && HeldByHardware(ibrd, fbrd) != 64 * ibrd + fbrd
  {
    written, ibrd, fbrd := ConfigBaudrate(750001);
    HardwareAgreesIff(750001, ibrd, fbrd);
  }
}
