/** What holds of the lines of a map that is built from any maps, whether they follow the format or not. */
module SourceMapLines {
  import opened Common
  import opened Vlq
  import opened SourceMapConcat
  import opened SourceMapMachines

  lemma {:induction false} CountNone(s: seq<byte>, x: byte)
    requires x !in s
    ensures Count(s, x) == 0
    decreases |s|
  {
    if s != [] {
      CountNone(s[..|s| - 1], x);
    }
  }

  lemma {:induction false} OnlyDigits(num: int)
    ensures SEMICOLON !in Emitted(num) && COMMA !in Emitted(num)
  {
    if num / 32 > 0 {
      OnlyDigits(num / 32);
    }
  }

  lemma CountEncoded(bytes: seq<byte>, n: int, x: byte)
    requires IsSeparator(x)
    ensures Count(bytes + Encoded(n), x) == Count(bytes, x)
  {
    hide Emitted, Count;
    CountConcat(bytes, Encoded(n), x);
    OnlyDigits(EncoderStart(n));
    CountNone(Encoded(n), x);
  }

  lemma EmitAddsNoSeparator(m: Machine, remap: seq<int>, x: byte)
    requires IsSeparator(x)
    ensures Count(Emit(m, remap).bytes, x) == Count(m.bytes, x) && Emit(m, remap).line == m.line
  {
    hide Encoded, Count;
    var v := m.vars;
    var source := Lookup(remap, v.sourceIndex);
    var one := m.bytes + Encoded(v.outputCol - m.lastCol);
    var two := one + Encoded(Gap(source, m.tail.source));
    var three := two + Encoded(v.sourceLine - m.tail.line);
    CountEncoded(m.bytes, v.outputCol - m.lastCol, x);
    CountEncoded(one, Gap(source, m.tail.source), x);
    CountEncoded(two, v.sourceLine - m.tail.line, x);
    CountEncoded(three, v.sourceCol - m.tail.col, x);
  }

  lemma CountLast(s: seq<byte>, b: byte, x: byte)
    ensures Count(s + [b], x) == Count(s, x) + if b == x then 1 else 0
  {
    assert (s + [b])[..|s + [b]| - 1] == s;
  }

  lemma CountFirst(s: seq<byte>, x: byte)
    requires s != []
    ensures Count(s, x) == Count(s[1..], x) + if s[0] == x then 1 else 0
  {
    assert s == [s[0]] + s[1..];
    CountConcat([s[0]], s[1..], x);
    CountLast([], s[0], x);
    assert [] + [s[0]] == [s[0]];
  }

  /** Whatever the input, each of its separators is written once and no other, and each `;` is counted. */
  lemma {:induction false} SeparatorsKept(m: Machine, s: seq<byte>, remap: seq<int>, x: byte)
    requires IsSeparator(x)
    ensures Count(StepAll(m, s, remap).bytes, x) == Count(m.bytes, x) + Count(s, x)
    ensures StepAll(m, s, remap).line == m.line + Count(s, SEMICOLON)
    decreases |s|
  {
    hide Count, Emit, DecodeDigit;
    if s == [] {
      CountNone(s, x);
      CountNone(s, SEMICOLON);
    } else {
      var c := Emit(m, remap);
      EmitAddsNoSeparator(m, remap, x);
      CountLast(c.bytes, s[0], x);
      CountFirst(s, x);
      CountFirst(s, SEMICOLON);
      SeparatorsKept(StepByte(m, s[0], remap), s[1..], remap, x);
    }
  }

  lemma {:induction false} CountSemicolons(n: nat)
    ensures Count(Semicolons(n), SEMICOLON) == n
  {
    if n > 0 {
      assert Semicolons(n)[..n - 1] == Semicolons(n - 1);
      CountSemicolons(n - 1);
    }
  }

  /** A source adds as many lines to the map as its own map or its content has, whichever are more. */
  lemma LinesAdded(b: Raw, s: Source)
    requires Accepted(s.mappings)
    ensures Count(AddRaw(b, s).mappings, SEMICOLON)
         == Count(b.mappings, SEMICOLON) + Max(Count(s.mappings, SEMICOLON), s.lines)
  {
    hide Count, Emit, StepAll, Intern, RemapOf, Accepted;
    PrefixOfAccepted(s.mappings);
    var remap := RemapOf(b.sources, s.sources);
    var start := StartWith(b.tail);
    var m := StepAll(start, s.mappings, remap);
    SeparatorsKept(start, s.mappings, remap, SEMICOLON);
    CountNone([], SEMICOLON);
    EmitAddsNoSeparator(m, remap, SEMICOLON);
    var n := Missing(m.line, s.lines);
    CountSemicolons(n);
    CountConcat(b.mappings, Emit(m, remap).bytes, SEMICOLON);
    CountConcat(b.mappings + Emit(m, remap).bytes, Semicolons(n), SEMICOLON);
  }

  /** The map has as many lines as the code. */
  predicate Aligned(b: Raw) {
    Count(b.mappings, SEMICOLON) == CountNL(b.content)
  }

  /** For all maps, readable or not: lines stay aligned exactly if the map has no more of them than the code. */
  lemma AlignedExactly(b: Raw, s: Source)
    requires Aligned(b) && Accepted(s.mappings) && s.lines == CountNL(s.content)
    ensures Aligned(AddRaw(b, s)) <==> Count(s.mappings, SEMICOLON) <= s.lines
  {
    hide Count;
    LinesAdded(b, s);
    CountConcat(b.content, s.content, 10);
  }
}
