/** CRC-16/CCITT-FALSE (polynomial 0x1021, initial register 0xFFFF, no reflection, no final xor): the checksum that
    protects every serial frame between the PC and the ESP32.  The register is sixteen bits, most significant first;
    a byte enters at the high end and is followed by eight polynomial division steps. */
module Crc {

  type Byte = x: int | 0 <= x < 256

  type Word = w: seq<bool> | |w| == 16 witness seq(16, i => false)

  const POLYNOMIAL: Word :=
    [false, false, false, true, false, false, false, false, false, false, true, false, false, false, false, true]
  const INITIAL: Word :=
    [true, true, true, true, true, true, true, true, true, true, true, true, true, true, true, true]
  const ZERO_BYTE := [false, false, false, false, false, false, false, false]

  function Xor(x: Word, y: Word): Word {
    seq(16, i requires 0 <= i < 16 => x[i] != y[i])
  }

  /** The n low bits of a number, most significant first. */
  function BitsOf(v: nat, n: nat): (r: seq<bool>)
    ensures |r| == n
  {
    if n == 0 then [] else BitsOf(v / 2, n - 1) + [v % 2 == 1]
  }

  function Number(bits: seq<bool>): nat {
    if bits == [] then 0 else 2 * Number(bits[..|bits| - 1]) + if bits[|bits| - 1] then 1 else 0
  }

  function Pow2(n: nat): nat {
    if n == 0 then 1 else 2 * Pow2(n - 1)
  }

  function Bits(b: Byte): (r: seq<bool>)
    ensures |r| == 8
  {
    BitsOf(b, 8)
  }

  /** A byte placed in the high half of a word. */
  function High(b: Byte): Word {
    Bits(b) + ZERO_BYTE
  }

  /** A byte placed in the low half of a word. */
  function Low(b: Byte): Word {
    ZERO_BYTE + Bits(b)
  }

  function Shift(c: Word): Word {
    c[1..] + [false]
  }

  /** One division step: shift left, and subtract the polynomial when a one falls out. */
  function BitStep(c: Word): Word {
    if c[0] then Xor(Shift(c), POLYNOMIAL) else Shift(c)
  }

  function Steps(c: Word, n: nat): Word {
    if n == 0 then c else BitStep(Steps(c, n - 1))
  }

  function ByteStep(c: Word, b: Byte): Word {
    Steps(Xor(c, High(b)), 8)
  }

  /** The register after the bytes of data, started from c. */
  function Register(c: Word, data: seq<Byte>): Word
    decreases |data|
  {
    if data == [] then c else Register(ByteStep(c, data[0]), data[1..])
  }

  function Crc16(data: seq<Byte>): nat {
    Number(Register(INITIAL, data))
  }

  // ----- bytes and bits

  lemma {:induction false} NumberOfBits(v: nat, n: nat)
    requires v < Pow2(n)
    ensures Number(BitsOf(v, n)) == v
  {
    if n > 0 {
      NumberOfBits(v / 2, n - 1);
      assert BitsOf(v, n)[..n - 1] == BitsOf(v / 2, n - 1);
    }
  }

  lemma {:induction false} BitsOfNumber(x: seq<bool>)
    ensures BitsOf(Number(x), |x|) == x
  {
    if x != [] {
      BitsOfNumber(x[..|x| - 1]);
    }
  }

  lemma {:induction false} NumberBound(x: seq<bool>)
    ensures Number(x) < Pow2(|x|)
  {
    if x != [] {
      NumberBound(x[..|x| - 1]);
    }
  }

  lemma Crc16Fits(data: seq<Byte>)
    ensures Crc16(data) < 65536
  {
    NumberBound(Register(INITIAL, data));
    assert Pow2(16) == 65536 by { assert Pow2(4) == 16; assert Pow2(8) == 256; assert Pow2(12) == 4096; }
  }

  lemma BitsInjective(a: Byte, b: Byte)
    requires Bits(a) == Bits(b)
    ensures a == b
  {
    assert Pow2(8) == 256 by { assert Pow2(4) == 16; }
    NumberOfBits(a, 8);
    NumberOfBits(b, 8);
  }

  lemma XorCommutes(x: Word, y: Word)
    ensures Xor(x, y) == Xor(y, x)
  {
  }

  lemma XorCancels(c: Word, x: Word, y: Word)
    requires Xor(c, x) == Xor(c, y)
    ensures x == y
  {
    forall i | 0 <= i < 16 ensures x[i] == y[i] {
      assert Xor(c, x)[i] == Xor(c, y)[i];
    }
  }

  lemma WordFromBytes(a: Byte, b: Byte, a': Byte, b': Byte)
    requires Xor(High(a), Low(b)) == Xor(High(a'), Low(b'))
    ensures a == a' && b == b'
  {
    var w, w' := Xor(High(a), Low(b)), Xor(High(a'), Low(b'));
    assert Bits(a) == w[..8] == w'[..8] == Bits(a');
    assert Bits(b) == w[8..] == w'[8..] == Bits(b');
    BitsInjective(a, a');
    BitsInjective(b, b');
  }

  // ----- the division step is linear and can be undone

  lemma BitStepLinear(c: Word, d: Word)
    ensures BitStep(Xor(c, d)) == Xor(BitStep(c), BitStep(d))
  {
    forall i | 0 <= i < 16 ensures BitStep(Xor(c, d))[i] == Xor(BitStep(c), BitStep(d))[i] {}
  }

  /** The low bit of the polynomial is set, so the low bit of the result tells whether a one fell out. */
  lemma BitStepInjective(c: Word, d: Word)
    requires BitStep(c) == BitStep(d)
    ensures c == d
  {
    assert BitStep(c)[15] == c[0] && BitStep(d)[15] == d[0];
    var s, t := Shift(c), Shift(d);
    if c[0] {
      XorCommutes(s, POLYNOMIAL);
      XorCommutes(t, POLYNOMIAL);
      XorCancels(POLYNOMIAL, s, t);
    }
    assert s == t;
    forall i | 1 <= i < 16 ensures c[i] == d[i] { assert s[i - 1] == t[i - 1]; }
  }

  lemma {:induction false} StepsInjective(c: Word, d: Word, n: nat)
    requires Steps(c, n) == Steps(d, n)
    ensures c == d
  {
    if n > 0 {
      BitStepInjective(Steps(c, n - 1), Steps(d, n - 1));
      StepsInjective(c, d, n - 1);
    }
  }

  lemma {:induction false} StepsLinear(c: Word, d: Word, n: nat)
    ensures Steps(Xor(c, d), n) == Xor(Steps(c, n), Steps(d, n))
  {
    if n > 0 {
      StepsLinear(c, d, n - 1);
      BitStepLinear(Steps(c, n - 1), Steps(d, n - 1));
    }
  }

  /** No one falls out while the high zeros last. */
  lemma {:induction false} ZerosFallOut(c: Word, n: nat)
    requires n <= 8 && forall i :: 0 <= i < 8 ==> !c[i]
    ensures Steps(c, n) == c[n..] + seq(n, i => false)
  {
    if n > 0 {
      ZerosFallOut(c, n - 1);
      assert !Steps(c, n - 1)[0];
    }
  }

  // ----- two bytes act on the register like one 16-bit word

  lemma TwoBytesAreOneWord(c: Word, a: Byte, b: Byte)
    ensures ByteStep(ByteStep(c, a), b) == Steps(Steps(Xor(c, Xor(High(a), Low(b))), 8), 8)
  {
    ZerosFallOut(Low(b), 8);
    assert Steps(Low(b), 8) == High(b);
    StepsLinear(Xor(c, High(a)), Low(b), 8);
    assert Xor(Xor(c, High(a)), Low(b)) == Xor(c, Xor(High(a), Low(b)));
  }

  /** For a fixed byte the register step is a bijection of the register. */
  lemma ByteStepInjective(c: Word, d: Word, b: Byte)
    requires ByteStep(c, b) == ByteStep(d, b)
    ensures c == d
  {
    StepsInjective(Xor(c, High(b)), Xor(d, High(b)), 8);
    XorCommutes(c, High(b));
    XorCommutes(d, High(b));
    XorCancels(High(b), c, d);
  }

  /** From a fixed register, two successive bytes are determined by the register they lead to. */
  lemma TwoBytesInjective(c: Word, a: Byte, b: Byte, a': Byte, b': Byte)
    requires ByteStep(ByteStep(c, a), b) == ByteStep(ByteStep(c, a'), b')
    ensures a == a' && b == b'
  {
    var w, w' := Xor(High(a), Low(b)), Xor(High(a'), Low(b'));
    TwoBytesAreOneWord(c, a, b);
    TwoBytesAreOneWord(c, a', b');
    StepsInjective(Steps(Xor(c, w), 8), Steps(Xor(c, w'), 8), 8);
    StepsInjective(Xor(c, w), Xor(c, w'), 8);
    XorCancels(c, w, w');
    WordFromBytes(a, b, a', b');
  }

  lemma {:induction false} RegisterInjective(c: Word, d: Word, data: seq<Byte>)
    requires Register(c, data) == Register(d, data)
    ensures c == d
    decreases |data|
  {
    if data != [] {
      RegisterInjective(ByteStep(c, data[0]), ByteStep(d, data[0]), data[1..]);
      ByteStepInjective(c, d, data[0]);
    }
  }

  lemma {:induction false} RegisterConcat(c: Word, x: seq<Byte>, y: seq<Byte>)
    ensures Register(c, x + y) == Register(Register(c, x), y)
    decreases |x|
  {
    if x == [] {
      assert x + y == y;
    } else {
      assert (x + y)[1..] == x[1..] + y;
      RegisterConcat(ByteStep(c, x[0]), x[1..], y);
    }
  }

  /** Same length, and equal everywhere except possibly at i and i + 1. */
  ghost predicate DifferOnlyAt(x: seq<Byte>, y: seq<Byte>, i: nat) {
    |x| == |y| && i + 1 < |x| && x[..i] == y[..i] && x[i + 2..] == y[i + 2..]
  }

  /** Any change confined to two adjacent bytes changes the checksum. */
  lemma AdjacentChangeDetected(x: seq<Byte>, y: seq<Byte>, i: nat)
    requires DifferOnlyAt(x, y, i) && x != y
    ensures Crc16(x) != Crc16(y)
  {
    var p, s := x[..i], x[i + 2..];
    assert x == p + ([x[i], x[i + 1]] + s) && y == p + ([y[i], y[i + 1]] + s);
    var c := Register(INITIAL, p);
    RegisterConcat(INITIAL, p, [x[i], x[i + 1]] + s);
    RegisterConcat(INITIAL, p, [y[i], y[i + 1]] + s);
    TwoBytesThen(c, x[i], x[i + 1], s);
    TwoBytesThen(c, y[i], y[i + 1], s);
    if Crc16(x) == Crc16(y) {
      var w, v := Register(INITIAL, x), Register(INITIAL, y);
      BitsOfNumber(w);
      BitsOfNumber(v);
      RegisterInjective(ByteStep(ByteStep(c, x[i]), x[i + 1]), ByteStep(ByteStep(c, y[i]), y[i + 1]), s);
      TwoBytesInjective(c, x[i], x[i + 1], y[i], y[i + 1]);
    }
  }

  lemma TwoBytesThen(c: Word, a: Byte, b: Byte, s: seq<Byte>)
    ensures Register(c, [a, b] + s) == Register(ByteStep(ByteStep(c, a), b), s)
  {
    assert ([a, b] + s)[1..] == [b] + s && ([b] + s)[1..] == s;
  }

  // ----- the same checksum on numbers

  /** Exclusive or of two numbers. */
  function XorNumbers(a: nat, b: nat): nat {
    if a == 0 && b == 0 then 0 else 2 * XorNumbers(a / 2, b / 2) + if a % 2 != b % 2 then 1 else 0
  }

  /** One division step on a number of sixteen bits. */
  function NumberStep(v: nat): nat {
    if v >= 0x8000 then XorNumbers(2 * v - 0x1_0000, 0x1021) else 2 * v
  }

  function NumberSteps(v: nat, n: nat): nat {
    if n == 0 then v else NumberStep(NumberSteps(v, n - 1))
  }

  function NumberRegister(c: nat, data: seq<Byte>): nat
    decreases |data|
  {
    if data == [] then c
    else
      var b: nat := data[0];
      NumberRegister(NumberSteps(XorNumbers(c, 256 * b), 8), data[1..])
  }

  lemma {:induction false} NumberOfXor(x: seq<bool>, y: seq<bool>, z: seq<bool>)
    requires |x| == |y| == |z| && forall i :: 0 <= i < |x| ==> z[i] == (x[i] != y[i])
    ensures Number(z) == XorNumbers(Number(x), Number(y))
  {
    hide XorNumbers, Number;
    if x == [] {
      NumberOfNothing();
      XorNothing(0);
    } else {
      var n := |x| - 1;
      LastBit(x);
      LastBit(y);
      LastBit(z);
      NumberOfXor(x[..n], y[..n], z[..n]);
      XorOne(Number(x), Number(y));
    }
  }

  lemma LastBit(x: seq<bool>)
    requires x != []
    ensures Number(x) == 2 * Number(x[..|x| - 1]) + if x[|x| - 1] then 1 else 0
  {
  }

  lemma {:induction false} NumberOfConcat(x: seq<bool>, y: seq<bool>)
    ensures Number(x + y) == Number(x) * Pow2(|y|) + Number(y)
  {
    hide Number, Pow2;
    if y == [] {
      assert x + y == x;
      NumberOfNothing();
      NoPower();
    } else {
      var n := |y| - 1;
      var z := x + y;
      assert z[..|z| - 1] == x + y[..n];
      NumberOfConcat(x, y[..n]);
      LastBit(z);
      LastBit(y);
      NextPower(Number(x), n);
    }
  }

  lemma NoPower()
    ensures Pow2(0) == 1
  {
  }

  lemma NextPower(a: nat, n: nat)
    ensures 2 * (a * Pow2(n)) == a * Pow2(n + 1)
  {
    var p := Pow2(n);
    assert 2 * (a * p) == a * (2 * p);
  }

  lemma Powers()
    ensures Pow2(1) == 2 && Pow2(8) == 256 && Pow2(15) == 0x8000
  {
    assert Pow2(4) == 16;
    assert Pow2(12) == 4096;
  }

  lemma NumberOfBit(b: bool)
    ensures Number([b]) == if b then 1 else 0
  {
    assert [b][..0] == [];
  }

  lemma NumberOfShift(c: Word)
    ensures c[0] <==> Number(c) >= 0x8000
    ensures Number(Shift(c)) == 2 * Number(c) - if c[0] then 0x1_0000 else 0
  {
    Powers();
    assert c == [c[0]] + c[1..];
    NumberOfConcat([c[0]], c[1..]);
    NumberOfConcat(c[1..], [false]);
    NumberBound(c[1..]);
    NumberOfBit(c[0]);
    NumberOfBit(false);
    hide Number, Pow2;
  }

  lemma NumberOfFour(x: seq<bool>, a: bool, b: bool, c: bool, d: bool)
    ensures Number(x + [a, b, c, d])
         == 16 * Number(x) + (if a then 8 else 0) + (if b then 4 else 0) + (if c then 2 else 0) + (if d then 1 else 0)
  {
    hide Number, Pow2;
    assert x + [a, b, c, d] == x + [a] + [b] + [c] + [d];
    NumberOfConcat(x, [a]);
    NumberOfConcat(x + [a], [b]);
    NumberOfConcat(x + [a] + [b], [c]);
    NumberOfConcat(x + [a] + [b] + [c], [d]);
    NumberOfBit(a);
    NumberOfBit(b);
    NumberOfBit(c);
    NumberOfBit(d);
    Powers();
  }

  lemma NumberOfPolynomial()
    ensures Number(POLYNOMIAL) == 0x1021
  {
    hide Number;
    var z: seq<bool> := [];
    NumberOfNothing();
    NumberOfFour(z, false, false, false, true);
    NumberOfFour(z + [false, false, false, true], false, false, false, false);
    NumberOfFour(z + [false, false, false, true] + [false, false, false, false], false, false, true, false);
    NumberOfFour(z + [false, false, false, true] + [false, false, false, false] + [false, false, true, false],
                 false, false, false, true);
    assert POLYNOMIAL == z + [false, false, false, true] + [false, false, false, false] + [false, false, true, false]
                         + [false, false, false, true];
  }

  lemma NumberOfNothing()
    ensures Number([]) == 0
  {
  }

  lemma NumberOfInitial()
    ensures Number(INITIAL) == 0xFFFF
  {
    hide Number;
    var z, f: seq<bool> := [], [true, true, true, true];
    NumberOfNothing();
    NumberOfFour(z, true, true, true, true);
    NumberOfFour(z + f, true, true, true, true);
    NumberOfFour(z + f + f, true, true, true, true);
    NumberOfFour(z + f + f + f, true, true, true, true);
    assert INITIAL == z + f + f + f + f;
  }

  lemma NumberOfHigh(b: Byte)
    ensures var v: nat := b; Number(High(b)) == 256 * v
  {
    Powers();
    NumberOfBits(b, 8);
    NumberOfConcat(Bits(b), ZERO_BYTE);
    NumberOfNothing();
    var z: seq<bool> := [];
    NumberOfFour(z, false, false, false, false);
    NumberOfFour(z + [false, false, false, false], false, false, false, false);
    assert ZERO_BYTE == z + [false, false, false, false] + [false, false, false, false];
    hide Number, Pow2, BitsOf;
  }

  lemma NumberOfStep(c: Word)
    ensures Number(BitStep(c)) == NumberStep(Number(c))
  {
    NumberOfShift(c);
    NumberOfPolynomial();
    hide Number;
    if c[0] {
      NumberOfXor(Shift(c), POLYNOMIAL, BitStep(c));
    }
  }

  lemma {:induction false} NumberOfSteps(c: Word, n: nat)
    ensures Number(Steps(c, n)) == NumberSteps(Number(c), n)
  {
    hide Number, NumberStep, BitStep;
    if n > 0 {
      NumberOfSteps(c, n - 1);
      NumberOfStep(Steps(c, n - 1));
    }
  }

  lemma {:induction false} NumberOfRegister(c: Word, data: seq<Byte>)
    ensures Number(Register(c, data)) == NumberRegister(Number(c), data)
    decreases |data|
  {
    hide Number, Steps, NumberSteps, XorNumbers;
    if data != [] {
      var x := Xor(c, High(data[0]));
      NumberOfHigh(data[0]);
      NumberOfXor(c, High(data[0]), x);
      NumberOfSteps(x, 8);
      NumberOfRegister(ByteStep(c, data[0]), data[1..]);
    }
  }

  /** The checksum of any bytes is that of CRC-16/CCITT-FALSE computed on numbers: polynomial 0x1021, started from 0xFFFF. */
  lemma Crc16IsCcitt(data: seq<Byte>)
    ensures Crc16(data) == NumberRegister(0xFFFF, data)
  {
    hide Number, Register;
    NumberOfInitial();
    NumberOfRegister(INITIAL, data);
  }

  // ----- the published check value

  lemma XorEven(a: nat, b: nat)
    ensures XorNumbers(a, 2 * b) == 2 * XorNumbers(a / 2, b) + a % 2
  {
  }

  lemma XorOdd(a: nat, b: nat)
    ensures XorNumbers(a, 2 * b + 1) == 2 * XorNumbers(a / 2, b) + 1 - a % 2
  {
  }

  lemma {:induction false} XorNothing(a: nat)
    ensures XorNumbers(a, 0) == a
  {
    if a > 0 {
      XorNothing(a / 2);
    }
  }

  lemma XorSixteen(a: nat, b: nat)
    ensures XorNumbers(a, 16 * b) == 16 * XorNumbers(a / 16, b) + a % 16
  {
    hide XorNumbers;
    XorEven(a, 8 * b);
    XorEven(a / 2, 4 * b);
    XorEven(a / 2 / 2, 2 * b);
    XorEven(a / 2 / 2 / 2, b);
    assert a / 2 / 2 / 2 / 2 == a / 16;
  }

  lemma XorByte(a: nat, b: nat)
    ensures XorNumbers(a, 256 * b) == 256 * XorNumbers(a / 256, b) + a % 256
  {
    hide XorNumbers;
    XorSixteen(a, 16 * b);
    XorSixteen(a / 16, b);
    assert a / 16 / 16 == a / 256;
  }

  function Flip(v: int, p: int): int {
    if v % 2 == 0 then p else -p
  }

  lemma XorSixtyFour(a: nat, b: nat)
    ensures XorNumbers(a, 64 * b) == 64 * XorNumbers(a / 64, b) + a % 64
  {
    hide XorNumbers;
    XorSixteen(a, 4 * b);
    XorEven(a / 16, 2 * b);
    XorEven(a / 16 / 2, b);
    assert a / 16 / 2 / 2 == a / 64;
  }

  /** In an even number the polynomial flips the bits 0, 5 and 12. */
  lemma XorPolynomial(h: nat)
    ensures XorNumbers(2 * h, 0x1021) == 2 * h + 1 + Flip(h / 16, 32) + Flip(h / 2048, 4096)
  {
    hide XorNumbers;
    var c := h / 16;
    var d := c / 2;
    var e := d / 64;
    assert e == h / 2048;
    XorOdd(2 * h, 0x810);
    XorSixteen(h, 0x81);
    XorOdd(c, 0x40);
    XorSixtyFour(d, 1);
    XorOdd(e, 0);
    XorNothing(e / 2);
    Reassemble(h, c, d, e);
  }

  lemma Reassemble(h: nat, c: nat, d: nat, e: nat)
    requires c == h / 16 && d == c / 2 && e == d / 64
    ensures 2 * (16 * (2 * (64 * (2 * (e / 2) + 1 - e % 2) + d % 64) + 1 - c % 2) + h % 16) + 1
         == 2 * h + 1 + Flip(c, 32) + Flip(e, 4096)
  {
  }

  function Differ(a: nat, b: nat): nat {
    if a % 2 != b % 2 then 1 else 0
  }

  lemma XorOne(a: nat, b: nat)
    ensures XorNumbers(a, b) == 2 * XorNumbers(a / 2, b / 2) + Differ(a, b)
  {
  }

  /** The exclusive or of the four low bits. */
  function XorLow(a: nat, b: nat): nat {
    8 * Differ(a / 2 / 2 / 2, b / 2 / 2 / 2) + 4 * Differ(a / 2 / 2, b / 2 / 2) + 2 * Differ(a / 2, b / 2) + Differ(a, b)
  }

  lemma XorFour(a: nat, b: nat)
    ensures XorNumbers(a, b) == 16 * XorNumbers(a / 16, b / 16) + XorLow(a, b)
  {
    hide XorNumbers, Differ;
    XorOne(a, b);
    XorOne(a / 2, b / 2);
    XorOne(a / 2 / 2, b / 2 / 2);
    XorOne(a / 2 / 2 / 2, b / 2 / 2 / 2);
    assert a / 2 / 2 / 2 / 2 == a / 16 && b / 2 / 2 / 2 / 2 == b / 16;
  }

  /** NumberStep with the polynomial's three bits written out. */
  function StepByBits(v: int): int {
    if v < 0x8000 then 2 * v else 2 * v - 0xFFFF + Flip(v / 16, 32) + Flip(v / 2048, 4096)
  }

  lemma StepIsByBits(v: nat)
    ensures NumberStep(v) == StepByBits(v)
  {
    hide XorNumbers, Flip;
    if v >= 0x8000 {
      var h := v - 0x8000;
      XorPolynomial(h);
      SameBits(h);
    }
  }

  lemma SameBits(h: nat)
    ensures Flip((h + 0x8000) / 16, 32) == Flip(h / 16, 32) && Flip((h + 0x8000) / 2048, 4096) == Flip(h / 2048, 4096)
  {
    assert (h + 0x8000) / 16 == h / 16 + 2048 && (h + 0x8000) / 2048 == h / 2048 + 16;
  }

  lemma FourSteps(v: nat, n: nat)
    ensures NumberSteps(v, n + 4) == FourByBits(NumberSteps(v, n))
  {
    hide NumberStep, StepByBits;
    StepIsByBits(NumberSteps(v, n));
    StepIsByBits(NumberSteps(v, n + 1));
    StepIsByBits(NumberSteps(v, n + 2));
    StepIsByBits(NumberSteps(v, n + 3));
  }

  lemma EightSteps(v: nat)
    ensures NumberSteps(v, 8) == FourByBits(FourByBits(v))
  {
    hide FourByBits;
    FourSteps(v, 0);
    FourSteps(v, 4);
  }

  function FourByBits(v: int): int {
    StepByBits(StepByBits(StepByBits(StepByBits(v))))
  }

  lemma NextByte(c: nat, b: Byte, rest: seq<Byte>)
    ensures var v: nat := b;
      NumberRegister(c, [b] + rest) == NumberRegister(NumberSteps(256 * XorNumbers(c / 256, v) + c % 256, 8), rest)
  {
    assert ([b] + rest)[1..] == rest;
    XorByte(c, b);
  }

  lemma EightTo(v: nat, a: nat, b: nat, c: nat, d: nat, e: nat, f: nat, g: nat, h: nat)
    requires StepByBits(v) == a && StepByBits(a) == b && StepByBits(b) == c && StepByBits(c) == d
    requires StepByBits(d) == e && StepByBits(e) == f && StepByBits(f) == g && StepByBits(g) == h
    ensures NumberSteps(v, 8) == h
  {
    hide StepByBits, NumberSteps;
    EightSteps(v);
  }

  /** The exclusive or of two bytes, with its bits written out. */
  lemma XorTo(a: nat, b: nat, r: nat)
    requires a < 256 && b < 256 && r == 16 * XorLow(a / 16, b / 16) + XorLow(a, b)
    ensures XorNumbers(a, b) == r
  {
    hide XorNumbers, XorLow;
    XorFour(a, b);
    XorFour(a / 16, b / 16);
    XorNothing(0);
  }

  lemma DigitOne(rest: seq<Byte>)
    ensures NumberRegister(0xFFFF, [0x31] + rest) == NumberRegister(0xC782, rest)
  {
    hide XorNumbers, NumberSteps, NumberRegister, FourByBits;
    EightTo(0xCEFF, 0x8DDF, 0x0B9F, 0x173E, 0x2E7C, 0x5CF8, 0xB9F0, 0x63C1, 0xC782);
    hide StepByBits;
    XorTo(0xFF, 0x31, 0xCE);
    NextByte(0xFFFF, 0x31, rest);
  }

  lemma DigitTwo(rest: seq<Byte>)
    ensures NumberRegister(0xC782, [0x32] + rest) == NumberRegister(0x3DBA, rest)
  {
    hide XorNumbers, NumberSteps, NumberRegister, FourByBits;
    EightTo(0xF582, 0xFB25, 0xE66B, 0xDCF7, 0xA9CF, 0x43BF, 0x877E, 0x1EDD, 0x3DBA);
    hide StepByBits;
    XorTo(0xC7, 0x32, 0xF5);
    NextByte(0xC782, 0x32, rest);
  }

  lemma DigitThree(rest: seq<Byte>)
    ensures NumberRegister(0x3DBA, [0x33] + rest) == NumberRegister(0x5BCE, rest)
  {
    hide XorNumbers, NumberSteps, NumberRegister, FourByBits;
    EightTo(0x0EBA, 0x1D74, 0x3AE8, 0x75D0, 0xEBA0, 0xC761, 0x9EE3, 0x2DE7, 0x5BCE);
    hide StepByBits;
    XorTo(0x3D, 0x33, 0x0E);
    NextByte(0x3DBA, 0x33, rest);
  }

  lemma DigitFour(rest: seq<Byte>)
    ensures NumberRegister(0x5BCE, [0x34] + rest) == NumberRegister(0x5349, rest)
  {
    hide XorNumbers, NumberSteps, NumberRegister, FourByBits;
    EightTo(0x6FCE, 0xDF9C, 0xAF19, 0x4E13, 0x9C26, 0x286D, 0x50DA, 0xA1B4, 0x5349);
    hide StepByBits;
    XorTo(0x5B, 0x34, 0x6F);
    NextByte(0x5BCE, 0x34, rest);
  }

  lemma DigitFive(rest: seq<Byte>)
    ensures NumberRegister(0x5349, [0x35] + rest) == NumberRegister(0x4560, rest)
  {
    hide XorNumbers, NumberSteps, NumberRegister, FourByBits;
    EightTo(0x6649, 0xCC92, 0x8905, 0x022B, 0x0456, 0x08AC, 0x1158, 0x22B0, 0x4560);
    hide StepByBits;
    XorTo(0x53, 0x35, 0x66);
    NextByte(0x5349, 0x35, rest);
  }

  lemma DigitSix(rest: seq<Byte>)
    ensures NumberRegister(0x4560, [0x36] + rest) == NumberRegister(0x2EF4, rest)
  {
    hide XorNumbers, NumberSteps, NumberRegister, FourByBits;
    EightTo(0x7360, 0xE6C0, 0xDDA1, 0xAB63, 0x46E7, 0x8DCE, 0x0BBD, 0x177A, 0x2EF4);
    hide StepByBits;
    XorTo(0x45, 0x36, 0x73);
    NextByte(0x4560, 0x36, rest);
  }

  lemma DigitSeven(rest: seq<Byte>)
    ensures NumberRegister(0x2EF4, [0x37] + rest) == NumberRegister(0x7718, rest)
  {
    hide XorNumbers, NumberSteps, NumberRegister, FourByBits;
    EightTo(0x19F4, 0x33E8, 0x67D0, 0xCFA0, 0x8F61, 0x0EE3, 0x1DC6, 0x3B8C, 0x7718);
    hide StepByBits;
    XorTo(0x2E, 0x37, 0x19);
    NextByte(0x2EF4, 0x37, rest);
  }

  lemma DigitEight(rest: seq<Byte>)
    ensures NumberRegister(0x7718, [0x38] + rest) == NumberRegister(0xA12B, rest)
  {
    hide XorNumbers, NumberSteps, NumberRegister, FourByBits;
    EightTo(0x4F18, 0x9E30, 0x2C41, 0x5882, 0xB104, 0x7229, 0xE452, 0xD885, 0xA12B);
    hide StepByBits;
    XorTo(0x77, 0x38, 0x4F);
    NextByte(0x7718, 0x38, rest);
  }

  lemma DigitNine(rest: seq<Byte>)
    ensures NumberRegister(0xA12B, [0x39] + rest) == NumberRegister(0x29B1, rest)
  {
    hide XorNumbers, NumberSteps, NumberRegister, FourByBits;
    EightTo(0x982B, 0x2077, 0x40EE, 0x81DC, 0x1399, 0x2732, 0x4E64, 0x9CC8, 0x29B1);
    hide StepByBits;
    XorTo(0xA1, 0x39, 0x98);
    NextByte(0xA12B, 0x39, rest);
  }

  const DIGITS: seq<Byte> := [0x31, 0x32, 0x33, 0x34, 0x35, 0x36, 0x37, 0x38, 0x39]

  /** The check value the program documents for the digits 1 to 9, and the start value. */
  lemma CheckValue()
    ensures Crc16([]) == 0xFFFF && Crc16(DIGITS) == 0x29B1
  {
    hide NumberRegister, Crc16;
    Crc16IsCcitt([]);
    Crc16IsCcitt(DIGITS);
    DigitOne(DIGITS[1..]);
    DigitTwo(DIGITS[2..]);
    DigitThree(DIGITS[3..]);
    DigitFour(DIGITS[4..]);
    DigitFive(DIGITS[5..]);
    DigitSix(DIGITS[6..]);
    DigitSeven(DIGITS[7..]);
    DigitEight(DIGITS[8..]);
    DigitNine([]);
    assert DIGITS == [0x31] + DIGITS[1..] && DIGITS[1..] == [0x32] + DIGITS[2..] && DIGITS[2..] == [0x33] + DIGITS[3..]
        && DIGITS[3..] == [0x34] + DIGITS[4..] && DIGITS[4..] == [0x35] + DIGITS[5..] && DIGITS[5..] == [0x36] + DIGITS[6..]
        && DIGITS[6..] == [0x37] + DIGITS[7..] && DIGITS[7..] == [0x38] + DIGITS[8..] && DIGITS[8..] == [0x39] + [];
    NoBytes(0xFFFF);
    NoBytes(0x29B1);
  }

  lemma NoBytes(c: nat)
    ensures NumberRegister(c, []) == c
  {
  }
}
