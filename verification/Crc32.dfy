/** The IEEE CRC-32 of section 8 of RFC 1952, and why one changed byte always changes it. */
module Crc32 {
  import opened Prelude

  const POLYNOMIAL: bv32 := 0xEDB8_8320

  function ShiftBit(c: bv32): bv32 {
    if c & 1 == 1 then (c >> 1) ^ POLYNOMIAL else c >> 1
  }

  /** The top bit of the polynomial is set, so the top bit tells which way ShiftBit went. */
  function UnshiftBit(r: bv32): bv32 {
    if r & 0x8000_0000 != 0 then ((r ^ POLYNOMIAL) << 1) | 1 else r << 1
  }

  lemma UnshiftShift(c: bv32)
    ensures UnshiftBit(ShiftBit(c)) == c
  {}

  /** One shift for each listed bit of the register. */
  function ShiftBits(c: bv32, bits: seq<nat>): bv32
    decreases |bits|
  {
    if bits == [] then c else ShiftBits(ShiftBit(c), bits[1..])
  }

  lemma {:induction false} ShiftBitsInjective(c: bv32, d: bv32, bits: seq<nat>)
    requires c != d
    ensures ShiftBits(c, bits) != ShiftBits(d, bits)
    decreases |bits|
  {
    if bits != [] {
      UnshiftShift(c);
      UnshiftShift(d);
      ShiftBitsInjective(ShiftBit(c), ShiftBit(d), bits[1..]);
    }
  }

  const BYTE_BITS: seq<nat> := [0, 1, 2, 3, 4, 5, 6, 7]

  /** One byte enters the register. */
  function Step(c: bv32, b: byte): bv32 {
    ShiftBits(Mix(c, b), BYTE_BITS)
  }

  // ---- bytes as bits

  datatype Octet = Octet(b0: bool, b1: bool, b2: bool, b3: bool, b4: bool, b5: bool, b6: bool, b7: bool)

  predicate Odd(n: nat) { n % 2 == 1 }

  function Half(n: nat): nat { n / 2 }

  function Bits(n: byte): Octet {
    var n1 := Half(n);
    var n2 := Half(n1);
    var n3 := Half(n2);
    var n4 := Half(n3);
    var n5 := Half(n4);
    var n6 := Half(n5);
    var n7 := Half(n6);
    Octet(Odd(n), Odd(n1), Odd(n2), Odd(n3), Odd(n4), Odd(n5), Odd(n6), Odd(n7))
  }

  function Digit(b: bool, rest: nat): nat { (if b then 1 else 0) + 2 * rest }

  /** The value of the bits from the one given up to the top one. */
  function From6(o: Octet): nat { Digit(o.b6, Digit(o.b7, 0)) }

  function From4(o: Octet): nat { Digit(o.b4, Digit(o.b5, From6(o))) }

  function From2(o: Octet): nat { Digit(o.b2, Digit(o.b3, From4(o))) }

  function Value(o: Octet): byte {
    Digit(o.b0, Digit(o.b1, From2(o)))
  }

  lemma DigitHalf(n: nat)
    ensures Digit(Odd(n), Half(n)) == n
  {}

  lemma EighthHalf(n: byte)
    ensures Half(Half(Half(Half(Half(Half(Half(Half(n)))))))) == 0
  {
    var n2 := Half(Half(n));
    assert n2 < 64;
    var n4 := Half(Half(n2));
    assert n4 < 16;
    var n6 := Half(Half(n4));
    assert n6 < 4;
  }

  lemma ValueOfBits(n: byte)
    ensures Value(Bits(n)) == n
  {
    hide Odd, Half, Digit;
    EighthHalf(n);
    DigitHalf(n);
    DigitHalf(Half(n));
    DigitHalf(Half(Half(n)));
    DigitHalf(Half(Half(Half(n))));
    DigitHalf(Half(Half(Half(Half(n)))));
    DigitHalf(Half(Half(Half(Half(Half(n))))));
    DigitHalf(Half(Half(Half(Half(Half(Half(n)))))));
    DigitHalf(Half(Half(Half(Half(Half(Half(Half(n))))))));
  }

  lemma DigitInjective(b: bool, c: bool, m: nat, n: nat)
    requires Digit(b, m) == Digit(c, n)
    ensures b == c && m == n
  {}

  lemma ValueInjective(o: Octet, p: Octet)
    requires Value(o) == Value(p)
    ensures o == p
  {
    hide Digit;
    DigitInjective(o.b0, p.b0, Digit(o.b1, From2(o)), Digit(p.b1, From2(p)));
    DigitInjective(o.b1, p.b1, From2(o), From2(p));
    DigitInjective(o.b2, p.b2, Digit(o.b3, From4(o)), Digit(p.b3, From4(p)));
    DigitInjective(o.b3, p.b3, From4(o), From4(p));
    DigitInjective(o.b4, p.b4, Digit(o.b5, From6(o)), Digit(p.b5, From6(p)));
    DigitInjective(o.b5, p.b5, From6(o), From6(p));
    DigitInjective(o.b6, p.b6, Digit(o.b7, 0), Digit(p.b7, 0));
    DigitInjective(o.b7, p.b7, 0, 0);
  }

  function Pack(o: Octet): bv32 {
    (if o.b0 then 1 else 0) | (if o.b1 then 2 else 0) | (if o.b2 then 4 else 0) | (if o.b3 then 8 else 0)
    | (if o.b4 then 16 else 0) | (if o.b5 then 32 else 0) | (if o.b6 then 64 else 0) | (if o.b7 then 128 else 0)
  }

  function LowOctet(x: bv32): Octet {
    Octet(x & 1 != 0, x & 2 != 0, x & 4 != 0, x & 8 != 0, x & 16 != 0, x & 32 != 0, x & 64 != 0, x & 128 != 0)
  }

  lemma LowOctetPack(o: Octet)
    ensures LowOctet(Pack(o)) == o
  {}

  lemma LowOctetInjective(x: bv32, y: bv32)
    requires LowOctet(x) == LowOctet(y)
    ensures Low(x) == Low(y)
  {}

  function Mix(c: bv32, b: byte): bv32 { c ^ Pack(Bits(b)) }

  lemma XorInjective(c: bv32, d: bv32, x: bv32)
    ensures c ^ x == d ^ x ==> c == d
    ensures x ^ c == x ^ d ==> c == d
  {}

  lemma PackBitsInjective(a: byte, b: byte)
    requires Pack(Bits(a)) == Pack(Bits(b))
    ensures a == b
  {
    hide *;
    LowOctetPack(Bits(a));
    LowOctetPack(Bits(b));
    ValueOfBits(a);
    ValueOfBits(b);
  }

  lemma MixInjective(c: bv32, d: bv32, a: byte, b: byte)
    ensures c != d ==> Mix(c, a) != Mix(d, a)
    ensures a != b ==> Mix(c, a) != Mix(c, b)
  {
    hide Pack, Bits;
    XorInjective(c, d, Pack(Bits(a)));
    XorInjective(Pack(Bits(a)), Pack(Bits(b)), c);
    if Pack(Bits(a)) == Pack(Bits(b)) { PackBitsInjective(a, b); }
  }

  lemma ShiftByteInjective(x: bv32, y: bv32)
    ensures x != y ==> ShiftBits(x, BYTE_BITS) != ShiftBits(y, BYTE_BITS)
  {
    if x != y { ShiftBitsInjective(x, y, BYTE_BITS); }
  }

  /** The register after one byte determines the byte, and determines the register before it. */
  lemma StepInjective(c: bv32, d: bv32, a: byte, b: byte)
    ensures c != d ==> Step(c, a) != Step(d, a)
    ensures a != b ==> Step(c, a) != Step(c, b)
  {
    hide Mix, ShiftBits;
    MixInjective(c, d, a, b);
    ShiftByteInjective(Mix(c, a), Mix(d, a));
    ShiftByteInjective(Mix(c, a), Mix(c, b));
  }

  function Feed(c: bv32, data: Bytes): bv32
    decreases |data|
  {
    if data == [] then c else Feed(Step(c, data[0]), data[1..])
  }

  function BigEndian(x: bv32): (r: Bytes)
    ensures |r| == 4
  {
    [Value(LowOctet(x >> 24)), Value(LowOctet(x >> 16)), Value(LowOctet(x >> 8)), Value(LowOctet(x))]
  }

  function Low(x: bv32): bv32 { x & 0xFF }

  lemma FourOctets(x: bv32, y: bv32)
    requires Low(x >> 24) == Low(y >> 24) && Low(x >> 16) == Low(y >> 16)
    requires Low(x >> 8) == Low(y >> 8) && Low(x) == Low(y)
    ensures x == y
  {}

  lemma OctetInjective(x: bv32, y: bv32)
    requires Value(LowOctet(x)) == Value(LowOctet(y))
    ensures Low(x) == Low(y)
  {
    hide Value, LowOctet;
    ValueInjective(LowOctet(x), LowOctet(y));
    LowOctetInjective(x, y);
  }

  lemma BigEndianInjective(x: bv32, y: bv32)
    requires BigEndian(x) == BigEndian(y)
    ensures x == y
  {
    BigEndianAt(x, y);
    hide *;
    OctetInjective(x >> 24, y >> 24);
    OctetInjective(x >> 16, y >> 16);
    OctetInjective(x >> 8, y >> 8);
    OctetInjective(x, y);
    FourOctets(x, y);
  }

  lemma BigEndianAt(x: bv32, y: bv32)
    requires BigEndian(x) == BigEndian(y)
    ensures Value(LowOctet(x >> 24)) == Value(LowOctet(y >> 24))
    ensures Value(LowOctet(x >> 16)) == Value(LowOctet(y >> 16))
    ensures Value(LowOctet(x >> 8)) == Value(LowOctet(y >> 8))
    ensures Value(LowOctet(x)) == Value(LowOctet(y))
  {
    hide Value, LowOctet;
    assert BigEndian(x)[0] == BigEndian(y)[0] && BigEndian(x)[1] == BigEndian(y)[1];
    assert BigEndian(x)[2] == BigEndian(y)[2] && BigEndian(x)[3] == BigEndian(y)[3];
  }

  /** The final register as the four big-endian bytes that a record header stores. */
  function Seal(c: bv32): (r: Bytes)
    ensures |r| == 4
  {
    BigEndian(c ^ 0xFFFF_FFFF)
  }

  lemma SealInjective(c: bv32, d: bv32)
    requires Seal(c) == Seal(d)
    ensures c == d
  {
    hide BigEndian;
    BigEndianInjective(c ^ 0xFFFF_FFFF, d ^ 0xFFFF_FFFF);
    XorInjective(c, d, 0xFFFF_FFFF);
  }

  function Crc(data: Bytes): (r: Bytes)
    ensures |r| == 4
  {
    Seal(Feed(0xFFFF_FFFF, data))
  }

  lemma {:induction false} FeedInjective(c: bv32, d: bv32, data: Bytes)
    requires c != d
    ensures Feed(c, data) != Feed(d, data)
    decreases |data|
  {
    if data != [] {
      StepInjective(c, d, data[0], data[0]);
      FeedInjective(Step(c, data[0]), Step(d, data[0]), data[1..]);
    }
  }

  lemma {:induction false} FeedDetectsByte(c: bv32, data: Bytes, i: nat, b: byte)
    requires i < |data| && data[i] != b
    ensures Feed(c, data) != Feed(c, data[i := b])
    decreases |data|
  {
    if i == 0 {
      assert data[0 := b][1..] == data[1..];
      StepInjective(c, c, data[0], b);
      FeedInjective(Step(c, data[0]), Step(c, b), data[1..]);
    } else {
      assert data[i := b][1..] == data[1..][i - 1 := b];
      FeedDetectsByte(Step(c, data[0]), data[1..], i - 1, b);
    }
  }

  /** No single-byte change goes unnoticed, at any position, in data of any length. */
  lemma CrcDetectsByte(data: Bytes, i: nat, b: byte)
    requires i < |data| && data[i] != b
    ensures Crc(data) != Crc(data[i := b])
  {
    hide Feed, Seal;
    FeedDetectsByte(0xFFFF_FFFF, data, i, b);
    if Crc(data) == Crc(data[i := b]) {
      SealInjective(Feed(0xFFFF_FFFF, data), Feed(0xFFFF_FFFF, data[i := b]));
    }
  }

  // ---- the published check value

  function Shifts(c: bv32, n: nat): bv32
    decreases n
  {
    if n == 0 then c else Shifts(ShiftBit(c), n - 1)
  }

  lemma {:induction false} ShiftBitsCount(c: bv32, bits: seq<nat>)
    ensures ShiftBits(c, bits) == Shifts(c, |bits|)
    decreases |bits|
  {
    hide ShiftBit;
    if bits != [] { ShiftBitsCount(ShiftBit(c), bits[1..]); }
  }

  lemma FourShifts(c: bv32, n: nat)
    ensures Shifts(c, n + 4) == Shifts(ShiftBit(ShiftBit(ShiftBit(ShiftBit(c)))), n)
  {
    hide ShiftBit;
    NextShift(c, n + 3);
    NextShift(ShiftBit(c), n + 2);
    NextShift(ShiftBit(ShiftBit(c)), n + 1);
    NextShift(ShiftBit(ShiftBit(ShiftBit(c))), n);
  }

  lemma NextShift(c: bv32, n: nat)
    ensures Shifts(c, n + 1) == Shifts(ShiftBit(c), n)
  {}

  /** One step is eight shifts of the register with the byte mixed in. */
  lemma StepIs(c: bv32, b: byte, packed: bv32)
    requires Pack(Bits(b)) == packed
    ensures var half := ShiftBit(ShiftBit(ShiftBit(ShiftBit(c ^ packed))));
            Step(c, b) == ShiftBit(ShiftBit(ShiftBit(ShiftBit(half))))
  {
    hide ShiftBit, Pack, Bits;
    ShiftBitsCount(Mix(c, b), BYTE_BITS);
    FourShifts(Mix(c, b), 4);
    FourShifts(ShiftBit(ShiftBit(ShiftBit(ShiftBit(Mix(c, b))))), 0);
  }

  /** The register before and after each of the nine digits. */
  const REGISTERS: seq<bv32> := [
    0xFFFF_FFFF, 0x7C23_1048, 0xB0AC_BB32, 0x77B7_9C2D, 0x641C_1F5C,
    0x340A_C5E3, 0xF68D_2C9E, 0xAFFC_9660, 0x651F_2550, 0x340B_C6D9]

  lemma PackedLow()
    ensures Pack(Bits(0x31)) == 0x31 && Pack(Bits(0x32)) == 0x32 && Pack(Bits(0x33)) == 0x33
  {
    hide Step;
  }

  lemma PackedMiddle()
    ensures Pack(Bits(0x34)) == 0x34 && Pack(Bits(0x35)) == 0x35 && Pack(Bits(0x36)) == 0x36
  {
    hide Step;
  }

  lemma PackedHigh()
    ensures Pack(Bits(0x37)) == 0x37 && Pack(Bits(0x38)) == 0x38 && Pack(Bits(0x39)) == 0x39
  {
    hide Step;
  }

  lemma RegisterStep(i: nat)
    requires i < 9
    ensures Step(REGISTERS[i], 0x31 + i) == REGISTERS[i + 1]
  {
    hide Step, Pack, Bits;
    PackedLow();
    PackedMiddle();
    PackedHigh();
    StepIs(0xFFFF_FFFF, 0x31, 0x31);
    StepIs(0x7C23_1048, 0x32, 0x32);
    StepIs(0xB0AC_BB32, 0x33, 0x33);
    StepIs(0x77B7_9C2D, 0x34, 0x34);
    StepIs(0x641C_1F5C, 0x35, 0x35);
    StepIs(0x340A_C5E3, 0x36, 0x36);
    StepIs(0xF68D_2C9E, 0x37, 0x37);
    StepIs(0xAFFC_9660, 0x38, 0x38);
    StepIs(0x651F_2550, 0x39, 0x39);
  }

  const DIGITS: Bytes := [0x31, 0x32, 0x33, 0x34, 0x35, 0x36, 0x37, 0x38, 0x39]

  lemma DigitAt(i: nat)
    requires i < 9
    ensures DIGITS[i] == 0x31 + i && DIGITS[i..][1..] == DIGITS[i + 1..]
  {}

  lemma {:induction false} FeedDigits(i: nat)
    requires i <= 9
    ensures Feed(REGISTERS[i], DIGITS[i..]) == REGISTERS[9]
    decreases 9 - i
  {
    hide Step;
    if i < 9 {
      RegisterStep(i);
      FeedDigits(i + 1);
      DigitAt(i);
    }
  }

  /** The checksum of the nine ASCII digits is the one that is published for CRC-32. */
  lemma CheckValue()
    ensures Crc(DIGITS) == [0xCB, 0xF4, 0x39, 0x26]
  {
    hide Feed;
    FeedDigits(0);
    assert DIGITS[0..] == DIGITS;
    assert 0x340B_C6D9 ^ 0xFFFF_FFFF == 0xCBF4_3926 as bv32;
  }
}
