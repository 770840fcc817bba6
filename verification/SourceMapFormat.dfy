/**
 The meaning of the "mappings" of a source map: lines separated by semicolons, segments by commas,
 fields in base64 VLQ relative to the previous segment, as in the section "Proposed Format" of the
 Source Map Revision 3 Proposal.
 */
module SourceMapFormat {
  import opened Common
  import opened Vlq

  datatype Origin = Origin(source: int, line: int, col: int)

  /** A generated position and where it comes from, if anywhere. */
  datatype Mapping = Mapping(line: nat, col: int, origin: Option<Origin>)

  /**
   A reader: the position it is at, the source position of the last segment, the fields of the
   segment under way, the digits of the number under way, and what it has read.
   */
  datatype Reader = Reader(
    line: nat, col: int, source: int, srcLine: int, srcCol: int,
    fields: seq<int>, acc: nat, scale: nat, out: seq<Mapping>, ok: bool)

  const START := Reader(0, 0, 0, 0, 0, [], 0, 1, [], true)

  /** Between numbers. */
  ghost predicate Clean(r: Reader) {
    r.acc == 0 && r.scale == 1 && r.ok
  }

  function Digit(r: Reader, d: nat): Reader
    requires d < 64
  {
    if d >= 32 then r.(acc := r.acc + (d - 32) * r.scale, scale := r.scale * 32)
    else r.(fields := r.fields + [Signed(r.acc + d * r.scale)], acc := 0, scale := 1)
  }

  /** The end of a segment. */
  function Flush(r: Reader): Reader {
    if r.scale != 1 then r.(ok := false)
    else if |r.fields| == 0 then r
    else if |r.fields| == 1 then
      var col := r.col + r.fields[0];
      r.(col := col, fields := [], out := r.out + [Mapping(r.line, col, None)])
    else if |r.fields| == 4 || |r.fields| == 5 then
      var col, source := r.col + r.fields[0], r.source + r.fields[1];
      var srcLine, srcCol := r.srcLine + r.fields[2], r.srcCol + r.fields[3];
      r.(col := col, source := source, srcLine := srcLine, srcCol := srcCol, fields := [],
         out := r.out + [Mapping(r.line, col, Some(Origin(source, srcLine, srcCol)))])
    else r.(ok := false)
  }

  function ReadByte(r: Reader, b: byte): Reader {
    if b == SEMICOLON then Flush(r).(line := r.line + 1, col := 0)
    else if b == COMMA then Flush(r)
    else if IsDigit(b) then Digit(r, CharToInteger(b))
    else r.(ok := false)
  }

  function ReadAll(r: Reader, s: seq<byte>): Reader
    decreases |s|
  {
    if s == [] then r else ReadAll(ReadByte(r, s[0]), s[1..])
  }

  /** All mappings of a map, in order. */
  function Mappings(s: seq<byte>): seq<Mapping> {
    Flush(ReadAll(START, s)).out
  }

  lemma {:induction false} ReadConcat(r: Reader, s: seq<byte>, t: seq<byte>)
    ensures ReadAll(r, s + t) == ReadAll(ReadAll(r, s), t)
    decreases |s|
  {
    if s == [] {
      assert s + t == t;
    } else {
      assert (s + t)[1..] == s[1..] + t;
      ReadConcat(ReadByte(r, s[0]), s[1..], t);
    }
  }

  lemma ReadOne(r: Reader, b: byte)
    ensures ReadAll(r, [b]) == ReadByte(r, b)
  {
    assert [b][1..] == [];
  }

  lemma {:induction false} ReadDigitsOf(r: Reader, u: nat)
    ensures ReadAll(r, Digits(u)) == r.(fields := r.fields + [Signed(r.acc + u * r.scale)], acc := 0, scale := 1)
    decreases u
  {
    var s := Digits(u);
    if u < 32 {
      AlphabetIsBijective(u, 0);
      ReadOne(r, s[0]);
    } else {
      AlphabetIsBijective(u % 32 + 32, 0);
      assert s[1..] == Digits(u / 32);
      ReadDigitsOf(ReadByte(r, s[0]), u / 32);
      PlaceValue(u % 32, u / 32, r.scale);
    }
  }

  const LIMIT := 0x4000_0000

  /** What the encoder wrote is read as the same number exactly if that fits 31 bits with its sign. */
  lemma RoundTripExactly(r: Reader, n: int)
    requires Clean(r)
    ensures ReadAll(r, Encoded(n)) == r.(fields := r.fields + [n]) <==> -LIMIT < n < LIMIT
  {
    hide ReadAll, Digits, Emitted, ShiftLeft;
    var num := EncoderStart(n);
    if -LIMIT < n < LIMIT {
      EncodedInRange(n);
      ReadDigitsOf(r, Zigzag(n));
      SignedOfZigzag(n);
    } else {
      OutOfRange(n);
      var u: nat := if num < 0 then num % 32 else num;
      if num < 0 {
        NegativeIsOneDigit(num);
      } else {
        EmittedIsDigits(num);
      }
      ReadDigitsOf(r, u);
      assert Signed(u) != n;
      assert (r.fields + [Signed(u)])[|r.fields|] != (r.fields + [n])[|r.fields|];
    }
  }

  /** The first number that does not fit is written as a single zero digit. */
  lemma FirstTooLarge(r: Reader)
    requires Clean(r)
    ensures Encoded(LIMIT) == [65] && ReadAll(r, Encoded(LIMIT)) == r.(fields := r.fields + [0])
  {
    hide ReadAll, ShiftLeft;
    ShiftByOne(LIMIT);
    assert EncoderStart(LIMIT) == -0x8000_0000;
    NegativeIsOneDigit(-0x8000_0000);
    ReadDigitsOf(r, 0);
  }

  ghost predicate AllSmall(ns: seq<int>) {
    forall i | 0 <= i < |ns| :: -LIMIT < ns[i] < LIMIT
  }

  /** Numbers need no separators: any concatenation of encodings reads back as the same list. */
  lemma {:induction false} ReadEncodedAll(r: Reader, ns: seq<int>)
    requires Clean(r) && AllSmall(ns)
    ensures ReadAll(r, EncodeAll(ns)) == r.(fields := r.fields + ns)
    decreases |ns|
  {
    if ns == [] {
      assert r.fields + ns == r.fields;
    } else {
      RoundTripExactly(r, ns[0]);
      ReadConcat(r, Encoded(ns[0]), EncodeAll(ns[1..]));
      ReadEncodedAll(r.(fields := r.fields + [ns[0]]), ns[1..]);
      assert r.fields + [ns[0]] + ns[1..] == r.fields + ns;
    }
  }
}
