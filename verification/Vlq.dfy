/**
 Base64 VLQ numbers as the source map format defines them, and as the bit operations of the
 encoder and the decoder loop compute them in 32-bit arithmetic.
 */
module Vlq {
  import opened Common

  const INT32: nat := 0x1_0000_0000

  /** What a bitwise operator makes of its operand. */
  function ToInt32(n: int): (r: int)
    ensures -0x8000_0000 <= r < 0x8000_0000
    ensures -0x8000_0000 <= n < 0x8000_0000 ==> r == n
  {
    var m := n % INT32;
    if m >= 0x8000_0000 then m - INT32 else m
  }

  function Pow2(n: nat): (p: nat)
    ensures p >= 1
  {
    if n == 0 then 1 else 2 * Pow2(n - 1)
  }

  /** `x << s` */
  function ShiftLeft(x: int, s: nat): int {
    ToInt32(ToInt32(x) * Pow2(s % 32))
  }

  lemma {:induction false} Pow2Adds(a: nat, b: nat)
    ensures Pow2(a + b) == Pow2(a) * Pow2(b)
  {
    if a > 0 {
      Pow2Adds(a - 1, b);
      assert 2 * (Pow2(a - 1) * Pow2(b)) == (2 * Pow2(a - 1)) * Pow2(b);
    }
  }

  lemma {:induction false} Pow2Grows(a: nat, b: nat)
    requires a <= b
    ensures Pow2(a) <= Pow2(b)
  {
    if a < b {
      Pow2Grows(a, b - 1);
    }
  }

  lemma Pow2Of32()
    ensures Pow2(5) == 32 && Pow2(32) == INT32 && Pow2(31) == 0x8000_0000
  {
    assert Pow2(5) == 32;
    Pow2Adds(5, 5);
    Pow2Adds(10, 10);
    Pow2Adds(20, 10);
    Pow2Adds(30, 1);
    Pow2Adds(31, 1);
    assert Pow2(1) == 2;
  }

  lemma AtLeastOnce(d: nat, p: nat)
    requires d >= 1
    ensures d * p >= p
  {
  }

  lemma ShiftIsSmall(d: nat, shift: nat)
    requires d >= 1 && d * Pow2(shift) < 0x8000_0000
    ensures shift < 32
  {
    hide Pow2;
    AtLeastOnce(d, Pow2(shift));
    if shift >= 32 {
      Pow2Of32();
      Pow2Grows(32, shift);
    }
  }

  lemma ShiftedZero(shift: nat)
    ensures ShiftLeft(0, shift) == 0 == 0 * Pow2(shift)
  {
    hide Pow2;
  }

  lemma ShiftedWithin(d: nat, shift: nat)
    requires shift < 32 && d < 32 && d * Pow2(shift) < 0x8000_0000
    ensures ShiftLeft(d, shift) == d * Pow2(shift)
  {
    hide Pow2, ToInt32;
    assert shift % 32 == shift && ToInt32(d) == d;
  }

  /** A digit shifted into place, as long as its place value fits 31 bits. */
  lemma ShiftedDigit(d: nat, shift: nat)
    requires d < 32 && d * Pow2(shift) < 0x8000_0000
    ensures ShiftLeft(d, shift) == d * Pow2(shift)
  {
    hide ShiftLeft;
    if d == 0 {
      ShiftedZero(shift);
    } else {
      ShiftIsSmall(d, shift);
      ShiftedWithin(d, shift);
    }
  }

  // ----- The alphabet

  predicate IsDigit(b: byte) {
    (65 <= b <= 90) || (97 <= b <= 122) || (48 <= b <= 57) || b == 43 || b == 47
  }

  const SEMICOLON: byte := 59
  const COMMA: byte := 44
  const PAD: byte := 61

  function IntegerToChar(i: nat): (b: byte)
    requires i < 64
    ensures IsDigit(b) && b != SEMICOLON && b != COMMA
  {
    if i < 26 then 65 + i else if i < 52 then 71 + i else if i < 62 then i - 4 else if i == 62 then 43 else 47
  }

  /** The table of the decoder: 64 for the padding sign, 255 for what is no digit. */
  function CharToInteger(b: byte): (i: nat)
    ensures i < 64 <==> IsDigit(b)
    ensures i == 255 || i <= 64
  {
    if 65 <= b <= 90 then b - 65
    else if 97 <= b <= 122 then b - 71
    else if 48 <= b <= 57 then b + 4
    else if b == 43 then 62
    else if b == 47 then 63
    else if b == PAD then 64
    else 255
  }

  const UPPER: string := "ABCDEFGHIJKLM" + "NOPQRSTUVWXYZ"
  const LOWER: string := "abcdefghijklm" + "nopqrstuvwxyz"
  const NUMERALS: string := "0123456789"

  /** The alphabet of section 4 of RFC 4648. */
  const ALPHABET: string := UPPER + LOWER + NUMERALS + "+/"

  lemma Letters(i: nat)
    requires i < 26
    ensures |UPPER| == |LOWER| == 26 && UPPER[i] as int == 65 + i && LOWER[i] as int == 97 + i
  {
  }

  lemma Numerals(i: nat)
    requires i < 10
    ensures |NUMERALS| == 10 && NUMERALS[i] as int == 48 + i
  {
  }

  /** Both tables agree with the alphabet, place by place. */
  lemma TablesFollowAlphabet(i: nat)
    requires i < 64
    ensures |ALPHABET| == 64 && IntegerToChar(i) == ALPHABET[i] as int && CharToInteger(ALPHABET[i] as int) == i
    ensures CharToInteger('=' as int) == 64 && SEMICOLON == ';' as int && COMMA == ',' as int
  {
    Letters(if i < 26 then i else if i < 52 then i - 26 else 0);
    Numerals(if 52 <= i < 62 then i - 52 else 0);
  }

  lemma AlphabetIsBijective(i: nat, b: byte)
    requires i < 64
    ensures CharToInteger(IntegerToChar(i)) == i
    ensures IsDigit(b) ==> IntegerToChar(CharToInteger(b)) == b
  {
  }

  // ----- Numbers

  /** A number with its sign in the lowest bit. */
  function Zigzag(n: int): nat {
    if n < 0 then -2 * n + 1 else 2 * n
  }

  function Signed(u: nat): int {
    if u % 2 == 1 then -(u / 2) else u / 2
  }

  /** Digits of five bits each, the lowest first; all but the last carry the continuation bit. */
  function Digits(u: nat): seq<byte> {
    if u < 32 then [IntegerToChar(u)] else [IntegerToChar(u % 32 + 32)] + Digits(u / 32)
  }

  function Encode(n: int): seq<byte> {
    Digits(Zigzag(n))
  }

  /** What the encoder computes before its loop. */
  function EncoderStart(n: int): int {
    if n < 0 then ShiftLeft(-n, 1) + 1 else ShiftLeft(n, 1)
  }

  /** What the loop of the encoder emits for a 32-bit number: a negative one ends it at once. */
  function Emitted(num: int): seq<byte>
    decreases if num > 0 then num else 0
  {
    if num / 32 > 0 then [IntegerToChar(num % 32 + 32)] + Emitted(num / 32) else [IntegerToChar(num % 32)]
  }

  lemma EmitNext(done: seq<byte>, num: int)
    ensures done + Emitted(num)
         == if num / 32 > 0 then (done + [IntegerToChar(num % 32 + 32)]) + Emitted(num / 32)
            else done + [IntegerToChar(num % 32)]
  {
  }

  function Encoded(n: int): seq<byte> {
    Emitted(EncoderStart(n))
  }

  lemma {:induction false} EmittedIsDigits(u: nat)
    ensures Emitted(u) == Digits(u)
  {
    if u >= 32 {
      EmittedIsDigits(u / 32);
    }
  }

  lemma SameRemainder(a: int, c: int)
    ensures (a + c * INT32) % INT32 == a % INT32
  {
  }

  lemma ShiftByOne(n: nat)
    ensures ShiftLeft(n, 1) == ToInt32(2 * n)
  {
    assert Pow2(1) == 2;
    var c := n / INT32 + if n % INT32 >= 0x8000_0000 then 1 else 0;
    assert n == ToInt32(n) + c * INT32;
    SameRemainder(2 * ToInt32(n), 2 * c);
  }

  /** Within 31 bits the encoder follows the format. */
  lemma EncodedInRange(n: int)
    requires -0x4000_0000 < n < 0x4000_0000
    ensures Encoded(n) == Encode(n)
  {
    ShiftByOne(if n < 0 then -n else n);
    EmittedIsDigits(Zigzag(n));
  }

  /** The number that digits stand for, the lowest first, without the continuation bits. */
  function PlaceSum(ds: seq<byte>): nat {
    if ds == [] then 0 else CharToInteger(ds[0]) % 32 + 32 * PlaceSum(ds[1..])
  }

  lemma {:induction false} DigitsStandFor(u: nat)
    ensures PlaceSum(Digits(u)) == u && |Digits(u)| >= 1
    ensures forall k | 0 <= k < |Digits(u)| :: CharToInteger(Digits(u)[k]) >= 32 <==> k < |Digits(u)| - 1
    ensures forall k | 0 <= k < |Digits(u)| :: IsDigit(Digits(u)[k])
  {
    if u < 32 {
      AlphabetIsBijective(u, 65);
      assert Digits(u)[1..] == [];
    } else {
      DigitsStandFor(u / 32);
      AlphabetIsBijective(u % 32 + 32, 65);
      assert Digits(u)[1..] == Digits(u / 32);
    }
  }

  /**
   What the encoder emits within 31 bits: digits whose continuation bit is set on all but the last,
   and that stand for twice the magnitude, plus one if the number is negative.
   */
  lemma EncodedStandsFor(n: int)
    requires -0x4000_0000 < n < 0x4000_0000
    ensures PlaceSum(Encoded(n)) == if n < 0 then 2 * -n + 1 else 2 * n
    ensures forall k | 0 <= k < |Encoded(n)| :: CharToInteger(Encoded(n)[k]) >= 32 <==> k < |Encoded(n)| - 1
  {
    EncodedInRange(n);
    DigitsStandFor(Zigzag(n));
  }

  lemma {:induction false} AtMostSevenDigits(u: nat, k: nat)
    requires u < Pow2(5 * k) && k >= 1
    ensures |Digits(u)| <= k
  {
    if u >= 32 {
      Pow2Adds(5, 5 * k - 5);
      Pow2Of32();
      assert k > 1;
      AtMostSevenDigits(u / 32, k - 1);
    }
  }

  lemma EncodedIsShort(n: int)
    requires -0x4000_0000 < n < 0x4000_0000
    ensures 1 <= |Encoded(n)| <= 7
  {
    EncodedInRange(n);
    Pow2Of32();
    Pow2Grows(31, 35);
    AtMostSevenDigits(Zigzag(n), 7);
  }

  lemma SignedOfZigzag(n: int)
    ensures Signed(Zigzag(n)) == n
  {
  }

  lemma PlaceValue(low: nat, high: nat, scale: nat)
    ensures low * scale + high * (scale * 32) == (low + 32 * high) * scale
  {
    assert high * (scale * 32) == (32 * high) * scale;
  }

  /** Out of range, the sign bit of the 32-bit number is set or its upper bits are lost. */
  lemma OutOfRange(n: int)
    requires !(-0x4000_0000 < n < 0x4000_0000)
    ensures var num := EncoderStart(n); num < 0 || num / 2 != (if n < 0 then -n else n)
  {
    ShiftByOne(if n < 0 then -n else n);
  }

  lemma NegativeIsOneDigit(num: int)
    requires num < 0
    ensures Emitted(num) == Digits(num % 32)
  {
  }

  function EncodeAll(ns: seq<int>): seq<byte> {
    if ns == [] then [] else Encoded(ns[0]) + EncodeAll(ns[1..])
  }
}
