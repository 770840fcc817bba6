/** The builder: code and mappings of many sources, appended to two growing buffers. */
module SourceMapBuilders {
  import opened Common
  import opened Vlq
  import opened DynamicBuffers
  import opened SourceMapFormat
  import opened SourceMapConcat
  import opened SourceMapMachines

  method CountNewlines(b: seq<byte>) returns (res: nat)
    ensures res == CountNL(b)
  {
    res := 0;
    for i := 0 to |b|
      invariant res == CountNL(b[..i])
    {
      assert b[..i + 1][..i] == b[..i];
      if b[i] == 10 {
        res := res + 1;
      }
    }
    assert b[..|b|] == b;
  }

  /** A source ends with a newline unless it is empty, and knows how many lines it has. */
  method MakeSource(content: seq<byte>, sources: seq<string>, mappings: seq<byte>) returns (s: Source)
    ensures s.lines == CountNL(s.content) && s.sources == sources && s.mappings == mappings
    ensures s.content == content || s.content == content + [10]
    ensures s.content != [] ==> s.content[|s.content| - 1] == 10
    ensures s.content == content <==> content == [] || content[|content| - 1] == 10
  {
    var sourceLines := CountNewlines(content);
    if |content| > 0 && content[|content| - 1] != 10 {
      assert (content + [10])[..|content|] == content;
      return Source(content + [10], sources, mappings, sourceLines + 1);
    }
    return Source(content, sources, mappings, sourceLines);
  }

  // ----- The builder

  lemma {:induction false} IndexIsStable(all: seq<string>, more: seq<string>, v: string)
    requires all <= more && v in all
    ensures IndexOf(more, v) == IndexOf(all, v)
  {
    var i, j := IndexOf(all, v), IndexOf(more, v);
    assert more[i] == v;
  }

  /** `remap` tells where each of `names` stands in `all`. */
  ghost predicate PointsAt(remap: seq<int>, all: seq<string>, names: seq<string>) {
    |remap| == |names| && forall j | 0 <= j < |names| :: names[j] in all && remap[j] == IndexOf(all, names[j])
  }

  lemma OneMoreName(remap: seq<int>, all: seq<string>, names: seq<string>, v: string)
    requires PointsAt(remap, all, names)
    ensures v in all <==> IndexOf(all, v) < |all|
    ensures PointsAt(remap + [IndexOf(all, v)], WithName(all, v), names + [v])
  {
    hide IndexOf;
    var more := WithName(all, v);
    forall j | 0 <= j < |names| ensures names[j] in more && remap[j] == IndexOf(more, names[j]) {
      IndexIsStable(all, more, names[j]);
    }
    assert more[IndexOf(all, v)] == v && IndexOf(more, v) == IndexOf(all, v);
  }

  lemma InternNext(all: seq<string>, names: seq<string>)
    requires names != []
    ensures Intern(all, names) == Intern(WithName(all, names[0]), names[1..])
  {
  }

  lemma AllInterned(remap: seq<int>, sources: seq<string>, all: seq<string>, names: seq<string>)
    requires PointsAt(remap, sources, names) && Intern(sources, []) == Intern(all, names)
    ensures sources == Intern(all, names) && remap == RemapOf(all, names)
  {
    hide IndexOf;
    assert Intern(sources, []) == sources;
  }

  class SourceMapBuilder {
    const output: DynamicBuffer
    const mappings: DynamicBuffer
    var sources: seq<string>
    var lastSourceIndex: Option<int>
    var lastSourceLine: int
    var lastSourceCol: int

    ghost function Repr(): set<object>
      reads this, output, mappings
    {
      {this, output, output.buffer, mappings, mappings.buffer}
    }

    ghost predicate Valid()
      reads this, output, mappings
    {
      output != mappings && output.buffer != mappings.buffer && output.Valid() && mappings.Valid()
    }

    ghost function LastOrigin(): Tail
      reads this
    {
      Tail(lastSourceIndex, lastSourceLine, lastSourceCol)
    }

    ghost function View(): Raw
      requires Valid()
      reads this, output, mappings, output.buffer, mappings.buffer
    {
      Raw(output.Contents(), sources, mappings.Contents(), LastOrigin())
    }

    constructor ()
      ensures Valid() && fresh(Repr()) && View() == NOTHING
    {
      output := new DynamicBuffer();
      mappings := new DynamicBuffer();
      sources := [];
      lastSourceIndex := Some(0);
      lastSourceLine := 0;
      lastSourceCol := 0;
    }

    /** Enters the sources of a map into the list, and tells where each of them stands. */
    method InternSources(names: seq<string>) returns (remap: seq<int>)
      modifies this`sources
      ensures sources == Intern(old(sources), names) && remap == RemapOf(old(sources), names)
    {
      hide Intern, RemapOf, IndexOf;
      remap := [];
      ghost var all := sources;
      assert names[0..] == names;
      for i := 0 to |names|
        invariant Intern(sources, names[i..]) == Intern(all, names)
        invariant PointsAt(remap, sources, names[..i])
      {
        var v := names[i];
        ghost var before, done := sources, remap;
        var pos := IndexOf(sources, v);
        if pos == |sources| {
          sources := sources + [v];
        }
        remap := remap + [pos];
        assert names[..i + 1] == names[..i] + [v];
        OneMoreName(done, before, names[..i], v);
        assert sources == WithName(before, v);
        InternNext(before, names[i..]);
        assert names[i..][1..] == names[i + 1..];
      }
      assert names[|names|..] == [] && names[..|names|] == names;
      AllInterned(remap, sources, all, names);
    }

    /** Writes the segment under way, relative to the one written last. */
    method CommitSegment(v: Vars, lastOutputCol: int, remap: seq<int>, ghost m: Machine, ghost before: seq<byte>)
      returns (newOutputCol: int)
      requires mappings.Valid() && mappings.Contents() == before + m.bytes
      requires m.vars == v && m.lastCol == lastOutputCol && m.tail == LastOrigin()
      modifies this`lastSourceIndex, this`lastSourceLine, this`lastSourceCol, mappings, mappings.buffer
      ensures mappings.Valid() && (mappings.buffer == old(mappings.buffer) || fresh(mappings.buffer))
      ensures mappings.Contents() == before + Emit(m, remap).bytes
      ensures Emit(m, remap).lastCol == newOutputCol && Emit(m, remap).tail == LastOrigin()
    {
      hide Encoded, Emit, Gap, Lookup;
      SegmentBytes(before, m, remap);
      if v.valpos == 0 {
        return lastOutputCol;
      }
      mappings.AddVLQ(v.outputCol - lastOutputCol);
      if v.valpos == 1 {
        return v.outputCol;
      }
      CommitOrigin(v, remap);
      return v.outputCol;
    }

    /** Writes the origin of a segment, relative to the one written last. */
    method CommitOrigin(v: Vars, remap: seq<int>)
      requires mappings.Valid()
      modifies this`lastSourceIndex, this`lastSourceLine, this`lastSourceCol, mappings, mappings.buffer
      ensures mappings.Valid() && (mappings.buffer == old(mappings.buffer) || fresh(mappings.buffer))
      ensures mappings.Contents()
           == old(mappings.Contents()) + Encoded(Gap(Lookup(remap, v.sourceIndex), old(lastSourceIndex)))
              + Encoded(v.sourceLine - old(lastSourceLine)) + Encoded(v.sourceCol - old(lastSourceCol))
      ensures LastOrigin() == Tail(Lookup(remap, v.sourceIndex), v.sourceLine, v.sourceCol)
    {
      hide Encoded, Gap, Lookup;
      var outSourceIndex := Lookup(remap, v.sourceIndex);
      mappings.AddVLQ(Gap(outSourceIndex, lastSourceIndex));
      lastSourceIndex := outSourceIndex;
      mappings.AddVLQ(v.sourceLine - lastSourceLine);
      lastSourceLine := v.sourceLine;
      mappings.AddVLQ(v.sourceCol - lastSourceCol);
      lastSourceCol := v.sourceCol;
    }

    /** Writes the segment under way and the separator behind it. */
    method WriteSeparator(b: byte, v: Vars, lastOutputCol: int, remap: seq<int>, ghost m: Machine,
                          ghost before: seq<byte>) returns (newOutputCol: int)
      requires mappings.Valid() && mappings.Contents() == before + m.bytes
      requires m.vars == v && m.lastCol == lastOutputCol && m.tail == LastOrigin() && IsSeparator(b)
      modifies this`lastSourceIndex, this`lastSourceLine, this`lastSourceCol, mappings, mappings.buffer
      ensures mappings.Valid() && (mappings.buffer == old(mappings.buffer) || fresh(mappings.buffer))
      ensures mappings.Contents() == before + StepByte(m, b, remap).bytes
      ensures StepByte(m, b, remap).lastCol == newOutputCol && StepByte(m, b, remap).tail == LastOrigin()
    {
      hide Emit;
      newOutputCol := CommitSegment(v, lastOutputCol, remap, m, before);
      ghost var c := Emit(m, remap);
      mappings.AddByte(b);
      assert before + c.bytes + [b] == before + (c.bytes + [b]);
      if b == SEMICOLON {
        newOutputCol := 0;
      }
    }

    /**
     Reads the mappings of a source byte by byte and writes them as differences to what is there;
     stops at a byte that is neither digit nor separator.
     */
    method TranslateMappings(input: seq<byte>, remap: seq<int>, ghost before: seq<byte>)
      returns (ok: bool, outputLine: nat)
      requires mappings.Valid() && mappings.Contents() == before
      modifies this`lastSourceIndex, this`lastSourceLine, this`lastSourceCol, mappings, mappings.buffer
      ensures mappings.Valid() && (mappings.buffer == old(mappings.buffer) || fresh(mappings.buffer))
      ensures ok <==> Accepted(input)
      ensures var m := StepAll(StartWith(old(LastOrigin())), Prefix(input), remap);
              var c := if ok then Emit(m, remap) else m;
              mappings.Contents() == before + c.bytes && outputLine == m.line && LastOrigin() == c.tail
    {
      hide StepAll, Emit, Prefix, Accepted, DecodeDigit, Rejected;
      ghost var m := StartWith(LastOrigin());
      ghost var end := StepAll(m, Prefix(input), remap);
      var lastOutputCol := 0;
      outputLine := 0;
      var v := NO_VARS;
      var ip := 0;
      assert input[0..] == input;
      while ip < |input|
        invariant ip <= |input| && mappings.Valid()
        invariant mappings.buffer == old(mappings.buffer) || fresh(mappings.buffer)
        invariant mappings.Contents() == before + m.bytes && m.tail == LastOrigin()
        invariant m.vars == v && m.lastCol == lastOutputCol && m.line == outputLine
        invariant StepAll(m, Prefix(input[ip..]), remap) == end && (Accepted(input[ip..]) <==> Accepted(input))
      {
        var b := input[ip];
        NextByte(m, input[ip..], remap);
        assert input[ip..][1..] == input[ip + 1..];
        if b == SEMICOLON || b == COMMA {
          NotRejected(b);
          EmitEndsSegment(m, remap);
          lastOutputCol := WriteSeparator(b, v, lastOutputCol, remap, m, before);
          v := v.(valpos := 0);
          if b == SEMICOLON {
            v := v.(outputCol := 0);
            outputLine := outputLine + 1;
          }
        } else {
          var c := CharToInteger(b);
          TableTells(b);
          if c == 255 {
            StopsHere(m, input[ip..], remap);
            return false, outputLine;
          }
          v := DecodeDigit(v, c);
        }
        m := StepByte(m, b, remap);
        ip := ip + 1;
      }
      assert input[ip..] == [];
      NothingLeft(m, remap);
      lastOutputCol := CommitSegment(v, lastOutputCol, remap, m, before);
      ok := true;
    }

    /** Lines of the source that its map leaves out have no mappings. */
    method FillLines(outputLine: nat, lines: nat)
      requires mappings.Valid()
      modifies mappings, mappings.buffer
      ensures mappings.Valid() && (mappings.buffer == old(mappings.buffer) || fresh(mappings.buffer))
      ensures mappings.Contents()
           == old(mappings.Contents()) + Semicolons(Missing(outputLine, lines))
    {
      var line := outputLine;
      ghost var before := mappings.Contents();
      while line < lines
        invariant mappings.Valid() && (mappings.buffer == old(mappings.buffer) || fresh(mappings.buffer))
        invariant outputLine <= line && (line <= lines || line == outputLine)
        invariant mappings.Contents() == before + Semicolons(line - outputLine)
      {
        mappings.AddByte(SEMICOLON);
        assert Semicolons(line - outputLine) + [SEMICOLON] == Semicolons(line + 1 - outputLine);
        line := line + 1;
      }
    }

    /** Appends a source and its map; a byte that no map can contain makes it fail half way. */
    method AddSource(source: Source) returns (ok: bool)
      requires Valid()
      modifies Repr()
      ensures Valid() && fresh(Repr() - old(Repr()))
      ensures ok <==> Accepted(source.mappings)
      ensures View() == AddRaw(old(View()), source)
    {
      hide StepAll, Emit, Intern, RemapOf, Accepted;
      ghost var b := View();
      output.AddBuffer(source.content);
      var remap := InternSources(source.sources);
      var outputLine;
      ok, outputLine := TranslateMappings(source.mappings, remap, b.mappings);
      if ok {
        FillLines(outputLine, source.lines);
      } else {
        assert mappings.Contents() + [] == mappings.Contents();
      }
    }

    /** Appends a line of text that has no mappings. */
    method AddLine(text: seq<byte>)
      requires Valid()
      modifies Repr()
      ensures Valid() && fresh(Repr() - old(Repr()))
      ensures View() == AddRawLine(old(View()), text)
    {
      output.AddBuffer(text);
      output.AddByte(10);
      mappings.AddByte(SEMICOLON);
      assert old(View()).content + text + [10] == old(View()).content + (text + [10]);
    }
  }

  /** The segment to be written, in the order in which its numbers are appended. */
  lemma SegmentBytes(before: seq<byte>, m: Machine, remap: seq<int>)
    ensures var v, e := m.vars, Emit(m, remap);
            var source := Lookup(remap, v.sourceIndex);
            if v.valpos == 0 then e == m
            else
              && e.lastCol == v.outputCol
              && e.tail == (if v.valpos == 1 then m.tail else Tail(source, v.sourceLine, v.sourceCol))
              && var one := before + m.bytes + Encoded(v.outputCol - m.lastCol);
              before + e.bytes
              == if v.valpos == 1 then one
                 else one + Encoded(Gap(source, m.tail.source)) + Encoded(v.sourceLine - m.tail.line)
                      + Encoded(v.sourceCol - m.tail.col)
  {
    hide Encoded;
  }

  lemma EmitEndsSegment(m: Machine, remap: seq<int>)
    ensures Emit(m, remap).vars == m.vars.(valpos := 0) && Emit(m, remap).line == m.line
  {
    hide Encoded;
  }

  lemma NotRejected(b: byte)
    requires IsSeparator(b)
    ensures !Rejected(b)
  {
  }

  lemma TableTells(b: byte)
    requires !IsSeparator(b)
    ensures Rejected(b) <==> CharToInteger(b) == 255
  {
  }

  lemma StopsHere(m: Machine, s: seq<byte>, remap: seq<int>)
    requires s != [] && Rejected(s[0])
    ensures StepAll(m, Prefix(s), remap) == m
  {
  }

  lemma NothingLeft(m: Machine, remap: seq<int>)
    ensures StepAll(m, Prefix([]), remap) == m && Accepted([])
  {
  }

  function AddedLine(b: Built, text: seq<byte>): Built {
    b.(content := b.content + (text + [10]), mappings := b.mappings + [SEMICOLON])
  }

  /** A line without a newline in it leaves the map as it was. */
  lemma AddLineKeepsMeaning(b: Built, text: seq<byte>)
    requires Complete(b) && CountNL(text) == 0
    ensures AddRawLine(RawOf(b), text) == RawOf(AddedLine(b, text))
    ensures Complete(AddedLine(b, text)) && Meaning(AddedLine(b, text)) == Meaning(b)
  {
    hide ReadAll, Count, NameAll;
    LineIsRead(b, text);
    LineIsCounted(b, text);
  }

  lemma LineIsRead(b: Built, text: seq<byte>)
    requires Complete(b)
    ensures var v := ReadAll(START, b.mappings);
            ReadAll(START, AddedLine(b, text).mappings) == v.(line := v.line + 1)
  {
    hide ReadAll, Count;
    ReadConcat(START, b.mappings, [SEMICOLON]);
    ReadOne(ReadAll(START, b.mappings), SEMICOLON);
  }

  lemma LineIsCounted(b: Built, text: seq<byte>)
    requires CountNL(text) == 0
    ensures CountNL(AddedLine(b, text).content) == CountNL(b.content) + 1
  {
    CountConcat(b.content, text + [10], 10);
    CountConcat(text, [10], 10);
    assert [10][..0] == [];
  }
}
