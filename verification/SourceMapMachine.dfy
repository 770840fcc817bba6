/**
 The decoder loop of the builder as it computes on any bytes, in 32-bit arithmetic and with lookups
 that may find nothing; and why it does what the format asks for on maps that follow the format.
 */
module SourceMapMachines {
  import opened Common
  import opened Vlq
  import opened SourceMapFormat
  import opened SourceMapConcat

  // ----- Decoding

  /** The variables of the loop that belong to the input. */
  datatype Vars = Vars(
    outputCol: int, sourceIndex: int, sourceLine: int, sourceCol: int, shift: nat, value: int, valpos: nat)

  const NO_VARS := Vars(0, 0, 0, 0, 0, 0, 0)

  /** The next field of a segment is added to the variable it belongs to. */
  function AddField(v: Vars, value: int): Vars {
    var u := v.(valpos := v.valpos + 1, value := 0, shift := 0);
    match v.valpos
    case 0 => u.(outputCol := u.outputCol + value)
    case 1 => u.(sourceIndex := u.sourceIndex + value)
    case 2 => u.(sourceLine := u.sourceLine + value)
    case 3 => u.(sourceCol := u.sourceCol + value)
    case _ => u
  }

  /** An entry of the decoder's table: a digit and, if it is the last of its number, the next field. */
  function DecodeDigit(v: Vars, b: nat): Vars {
    var value := v.value + ShiftLeft(b % 32, v.shift);
    if b / 32 % 2 == 1 then v.(value := value, shift := v.shift + 5)
    else
      var half := ToInt32(value) / 2;
      AddField(v, if value % 2 == 1 then -half else half)
  }

  function Field(r: Reader, i: nat): int {
    if i < |r.fields| then r.fields[i] else 0
  }

  /** The loop adds up fields as they come, the reader when their segment ends. */
  ghost predicate Tracks(v: Vars, r: Reader) {
    && v.valpos == |r.fields|
    && v.outputCol == r.col + Field(r, 0)
    && v.sourceIndex == r.source + Field(r, 1)
    && v.sourceLine == r.srcLine + Field(r, 2)
    && v.sourceCol == r.srcCol + Field(r, 3)
    && v.value == r.acc && r.scale == Pow2(v.shift)
  }

  lemma StartTracks()
    ensures Tracks(NO_VARS, START)
  {
    assert Pow2(0) == 1;
  }

  lemma FieldTracks(v: Vars, r: Reader, value: int)
    requires Tracks(v, r)
    ensures Tracks(AddField(v, value), r.(fields := r.fields + [value], acc := 0, scale := 1))
  {
    assert Pow2(0) == 1;
  }

  lemma ContinuationTracks(v: Vars, r: Reader, acc: nat)
    requires Tracks(v, r)
    ensures Tracks(v.(value := acc, shift := v.shift + 5), r.(acc := acc, scale := r.scale * 32))
  {
    hide Pow2;
    Pow2Adds(v.shift, 5);
    Pow2Of32();
  }

  /** The 32-bit sum is the sum. */
  lemma DigitFits(v: Vars, b: nat, r: Reader, sources: nat)
    requires b < 64 && Tracks(v, r) && Good(Digit(r, b), sources)
    ensures v.value + ShiftLeft(b % 32, v.shift) == r.acc + (b % 32) * r.scale < 0x8000_0000
  {
    DigitIsSmall(r, b, sources);
    hide Pow2, ShiftLeft, Digit, Good;
    ShiftedDigit(b % 32, v.shift);
  }

  /** What a reader has added up stays below 2^31. */
  lemma DigitIsSmall(r: Reader, b: nat, sources: nat)
    requires b < 64 && Good(Digit(r, b), sources)
    ensures r.acc + (b % 32) * r.scale < 0x8000_0000 && (b % 32) * r.scale < 0x8000_0000
  {
    NoNegativeProduct(b % 32, r.scale);
    if b < 32 {
      var u := r.acc + b * r.scale;
      assert Digit(r, b).fields[|r.fields|] == Signed(u);
      SmallBeforeSign(u);
    }
  }

  lemma NoNegativeProduct(d: nat, scale: nat)
    ensures d * scale >= 0
  {
  }

  lemma SmallBeforeSign(u: nat)
    requires -LIMIT < Signed(u) < LIMIT
    ensures u < 0x8000_0000
  {
  }

  /** On maps that follow the format the loop keeps step with a reader that knows no word size. */
  lemma DigitTracks(v: Vars, b: nat, r: Reader, sources: nat)
    requires b < 64 && Tracks(v, r) && Good(Digit(r, b), sources)
    ensures Tracks(DecodeDigit(v, b), Digit(r, b))
  {
    hide Pow2, ShiftLeft, Good, Tracks, AddField;
    DigitFits(v, b, r, sources);
    var value := v.value + ShiftLeft(b % 32, v.shift);
    if b / 32 % 2 == 1 {
      ContinuationTracks(v, r, value);
    } else {
      FieldTracks(v, r, Signed(value));
    }
  }

  lemma SeparatorTracks(v: Vars, r: Reader, b: byte)
    requires Tracks(v, r) && (b == SEMICOLON || b == COMMA) && ReadByte(r, b).ok
    ensures Tracks(v.(valpos := 0, outputCol := if b == SEMICOLON then 0 else v.outputCol), ReadByte(r, b))
  {
  }

  // ----- Writing

  /** What the builder remembers of the last segment with an origin; its source may be undefined. */
  datatype Tail = Tail(source: Option<int>, line: int, col: int)

  /** A translation under way: bytes written, variables, column and origin written last, lines seen. */
  datatype Machine = Machine(bytes: seq<byte>, vars: Vars, lastCol: int, tail: Tail, line: nat)

  function StartWith(tail: Tail): Machine {
    Machine([], NO_VARS, 0, tail, 0)
  }

  /** An index outside of the list finds nothing. */
  function Lookup(remap: seq<int>, i: int): Option<int> {
    if 0 <= i < |remap| then Some(remap[i]) else None
  }

  /** A difference with something undefined is no number, and the encoder takes that for zero. */
  function Gap(a: Option<int>, b: Option<int>): int {
    if a.Some? && b.Some? then a.value - b.value else 0
  }

  predicate IsSeparator(b: byte) {
    b == SEMICOLON || b == COMMA
  }

  /** Writes the segment under way, relative to the one written last. */
  function Emit(m: Machine, remap: seq<int>): Machine {
    var v := m.vars;
    if v.valpos == 0 then m
    else
      var col := Encoded(v.outputCol - m.lastCol);
      var one := m.(bytes := m.bytes + col, lastCol := v.outputCol, vars := v.(valpos := 0));
      if v.valpos == 1 then one
      else
        var source := Lookup(remap, v.sourceIndex);
        one.(bytes := one.bytes + Encoded(Gap(source, m.tail.source)) + Encoded(v.sourceLine - m.tail.line)
                      + Encoded(v.sourceCol - m.tail.col),
             tail := Tail(source, v.sourceLine, v.sourceCol))
  }

  function StepByte(m: Machine, b: byte, remap: seq<int>): Machine {
    if b == SEMICOLON then
      var c := Emit(m, remap);
      c.(bytes := c.bytes + [b], vars := c.vars.(outputCol := 0), lastCol := 0, line := m.line + 1)
    else if b == COMMA then
      var c := Emit(m, remap);
      c.(bytes := c.bytes + [b])
    else m.(vars := DecodeDigit(m.vars, CharToInteger(b)))
  }

  function StepAll(m: Machine, s: seq<byte>, remap: seq<int>): Machine
    decreases |s|
  {
    if s == [] then m else StepAll(StepByte(m, s[0], remap), s[1..], remap)
  }

  /** Input up to the first byte that is rejected. */
  function Prefix(s: seq<byte>): seq<byte> {
    if s == [] || Rejected(s[0]) then [] else [s[0]] + Prefix(s[1..])
  }

  lemma {:induction false} PrefixOfAccepted(s: seq<byte>)
    ensures Accepted(s) <==> Prefix(s) == s
  {
    if s != [] && !Rejected(s[0]) {
      PrefixOfAccepted(s[1..]);
      assert s == [s[0]] + s[1..];
      AcceptedTail(s);
    }
  }

  lemma AcceptedTail(s: seq<byte>)
    requires s != [] && !Rejected(s[0])
    ensures Accepted(s) <==> Accepted(s[1..])
  {
    assert forall i | 0 <= i < |s[1..]| :: s[1..][i] == s[i + 1];
    assert forall i | 0 < i < |s| :: s[i] == s[1..][i - 1];
  }

  /** One byte of input: the loop either stops there or goes on with the rest. */
  lemma NextByte(m: Machine, s: seq<byte>, remap: seq<int>)
    requires s != []
    ensures Rejected(s[0]) ==> Prefix(s) == [] && !Accepted(s)
    ensures !Rejected(s[0]) ==>
              && StepAll(m, Prefix(s), remap) == StepAll(StepByte(m, s[0], remap), Prefix(s[1..]), remap)
              && (Accepted(s[1..]) <==> Accepted(s))
  {
    hide StepByte;
    if !Rejected(s[0]) {
      assert Prefix(s)[1..] == Prefix(s[1..]);
      AcceptedTail(s);
    }
  }

  // ----- The builder as a value

  datatype Raw = Raw(content: seq<byte>, sources: seq<string>, mappings: seq<byte>, tail: Tail)

  const NOTHING := Raw([], [], [], Tail(Some(0), 0, 0))

  /** Lines of a source beyond those that its map mentions. */
  function Missing(line: nat, lines: nat): nat {
    if line < lines then lines - line else 0
  }

  /** The builder after a source: complete, or as far as it got when a byte made it throw. */
  ghost function AddRaw(b: Raw, s: Source): Raw {
    var remap := RemapOf(b.sources, s.sources);
    var m := StepAll(StartWith(b.tail), Prefix(s.mappings), remap);
    var c := if Accepted(s.mappings) then Emit(m, remap) else m;
    var filler := if Accepted(s.mappings) then Semicolons(Missing(m.line, s.lines)) else [];
    Raw(b.content + s.content, Intern(b.sources, s.sources), b.mappings + c.bytes + filler, c.tail)
  }

  function AddRawLine(b: Raw, text: seq<byte>): Raw {
    b.(content := b.content + (text + [10]), mappings := b.mappings + [SEMICOLON])
  }

  ghost function AddRawAll(ss: seq<Source>): Raw {
    if ss == [] then NOTHING else AddRaw(AddRawAll(ss[..|ss| - 1]), ss[|ss| - 1])
  }

  // ----- Maps that follow the format

  function RawOf(b: Built): Raw {
    Raw(b.content, b.sources, b.mappings, Tail(Some(b.last.source), b.last.line, b.last.srcCol))
  }

  /** The loop is where a translation that follows the format is. */
  ghost predicate Mirrors(m: Machine, w: Walk) {
    && m.bytes == w.bytes && Tracks(m.vars, w.reader) && m.line == w.reader.line
    && m.lastCol == w.last.col
    && m.tail == Tail(Some(w.last.source), w.last.line, w.last.srcCol)
  }

  lemma EncodeOne(a: int)
    ensures EncodeAll([a]) == Encoded(a)
  {
    assert [a][1..] == [];
    assert EncodeAll([]) == [];
  }

  lemma EncodeFour(before: seq<byte>, a: int, b: int, c: int, d: int)
    ensures before + Encoded(a) + Encoded(b) + Encoded(c) + Encoded(d) == before + EncodeAll([a, b, c, d])
  {
    hide Encoded;
    assert [a, b, c, d][1..] == [b, c, d] && [b, c, d][1..] == [c, d] && [c, d][1..] == [d];
    EncodeOne(d);
    assert EncodeAll([c, d]) == Encoded(c) + EncodeAll([d]);
    assert EncodeAll([b, c, d]) == Encoded(b) + EncodeAll([c, d]);
    assert EncodeAll([a, b, c, d]) == Encoded(a) + EncodeAll([b, c, d]);
  }

  /** The segment that the loop writes is the one the format asks for. */
  lemma EmitIsCommit(m: Machine, w: Walk, remap: seq<int>)
    requires Mirrors(m, w) && Good(Flush(w.reader), |remap|)
    ensures var e, c := Emit(m, remap), Commit(w, remap);
            && e.bytes == c.bytes && e.lastCol == c.last.col && e.line == m.line
            && e.tail == Tail(Some(c.last.source), c.last.line, c.last.srcCol) && e.vars == m.vars.(valpos := 0)
  {
    hide Encoded, Pow2;
    var ds := Deltas(w.last, w.reader, remap);
    if m.vars.valpos == 0 {
      assert EncodeAll([]) == [];
    } else {
      FlushedIsOk(w.reader, |remap|);
      if m.vars.valpos == 1 {
        EncodeOne(ds[0]);
      } else {
        EncodeFour(w.bytes, ds[0], ds[1], ds[2], ds[3]);
      }
    }
  }

  lemma FlushIsGood(r: Reader, b: byte, sources: nat)
    requires (b == SEMICOLON || b == COMMA) && Good(ReadByte(r, b), sources)
    ensures Good(Flush(r), sources)
  {
  }

  lemma StepIsWalk(m: Machine, w: Walk, b: byte, remap: seq<int>)
    requires Mirrors(m, w) && Good(ReadByte(w.reader, b), |remap|)
    ensures Mirrors(StepByte(m, b, remap), WalkByte(w, b, remap))
    ensures WalkByte(w, b, remap).reader == ReadByte(w.reader, b)
  {
    hide Emit, Commit, Pow2, DecodeDigit;
    if b == SEMICOLON || b == COMMA {
      FlushIsGood(w.reader, b, |remap|);
      EmitIsCommit(m, w, remap);
      SeparatorTracks(m.vars, w.reader, b);
      hide Tracks;
    } else {
      DigitTracks(m.vars, CharToInteger(b), w.reader, |remap|);
    }
  }

  /** On a readable map the loop computes the translation that the format asks for. */
  lemma {:induction false} StepAllIsWalk(m: Machine, w: Walk, s: seq<byte>, remap: seq<int>)
    requires Mirrors(m, w) && Readable(w.reader, s, |remap|)
    ensures Mirrors(StepAll(m, Prefix(s), remap), WalkAll(w, Prefix(s), remap))
    ensures Accepted(s) ==> Good(Flush(WalkAll(w, Prefix(s), remap).reader), |remap|)
    decreases |s|
  {
    hide Mirrors, Good, StepByte, WalkByte, ReadByte;
    if s != [] && !Rejected(s[0]) {
      StepIsWalk(m, w, s[0], remap);
      StepAllIsWalk(StepByte(m, s[0], remap), WalkByte(w, s[0], remap), s[1..], remap);
      assert Prefix(s)[1..] == Prefix(s[1..]);
      AcceptedTail(s);
    }
  }

  /** What is left when the builder throws in the middle of a map. */
  ghost function Aborted(b: Built, s: Source): Built {
    var w := WalkAll(StartOf(b), Prefix(s.mappings), RemapOf(b.sources, s.sources));
    Built(b.content + s.content, Intern(b.sources, s.sources), b.mappings + w.bytes, w.last.(col := 0))
  }

  /** Adding a source with a readable map is what the format asks for. */
  lemma AddRawIsAdd(b: Built, s: Source)
    requires Readable(START, s.mappings, |s.sources|)
    ensures AddRaw(RawOf(b), s) == RawOf(if Accepted(s.mappings) then Add(b, s) else Aborted(b, s))
  {
    hide StepAll, WalkAll, Emit, Commit, Intern, RemapOf, Readable, Good, Tracks, Accepted;
    var remap := RemapOf(b.sources, s.sources);
    RemapLength(b.sources, s.sources);
    StartTracks();
    StepAllIsWalk(StartWith(RawOf(b).tail), StartOf(b), s.mappings, remap);
    var m := StepAll(StartWith(RawOf(b).tail), Prefix(s.mappings), remap);
    var w := WalkAll(StartOf(b), Prefix(s.mappings), remap);
    if Accepted(s.mappings) {
      PrefixOfAccepted(s.mappings);
      EmitIsCommit(m, w, remap);
    } else {
      assert b.mappings + m.bytes + [] == b.mappings + m.bytes;
    }
  }

  lemma RemapLength(all: seq<string>, names: seq<string>)
    ensures |RemapOf(all, names)| == |names|
  {
  }

  ghost predicate FollowsFormat(s: Source) {
    Accepted(s.mappings) && Readable(START, s.mappings, |s.sources|)
  }

  ghost predicate AllFollowFormat(ss: seq<Source>) {
    forall i | 0 <= i < |ss| :: FollowsFormat(ss[i])
  }

  /** So with any number of them. */
  lemma {:induction false} AddRawAllIsAddAll(ss: seq<Source>)
    requires AllFollowFormat(ss)
    ensures AddRawAll(ss) == RawOf(AddAll(EMPTY, ss))
    decreases |ss|
  {
    hide Accepted, Readable, AddRaw, Add;
    if ss != [] {
      AddRawAllIsAddAll(ss[..|ss| - 1]);
      AddRawIsAdd(AddAll(EMPTY, ss[..|ss| - 1]), ss[|ss| - 1]);
    }
  }
}
