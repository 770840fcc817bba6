/** Concatenation of source maps: what the builder appends for one source, and what it means. */
module SourceMapConcat {
  import opened Common
  import opened Vlq
  import opened SourceMapFormat

  /** Position of the last segment written; the column counts within the current line. */
  datatype Last = Last(col: int, source: int, line: int, srcCol: int)

  /** A translation under way: bytes written, the last segment written, and the reader of the input. */
  datatype Walk = Walk(bytes: seq<byte>, last: Last, reader: Reader)

  /** A byte that makes the builder throw. */
  predicate Rejected(b: byte) {
    b != SEMICOLON && b != COMMA && CharToInteger(b) == 255
  }

  // ----- What the builder writes

  /** The segment read last, as numbers relative to the segment written last. */
  function Deltas(last: Last, r: Reader, remap: seq<int>): seq<int> {
    var f := Flush(r);
    if |r.fields| == 0 then []
    else if |r.fields| == 1 then [f.col - last.col]
    else if 0 <= f.source < |remap| then
      [f.col - last.col, remap[f.source] - last.source, f.srcLine - last.line, f.srcCol - last.srcCol]
    else []
  }

  function Advance(last: Last, r: Reader, remap: seq<int>): Last {
    var f := Flush(r);
    if |r.fields| == 0 then last
    else if |r.fields| == 1 then last.(col := f.col)
    else if 0 <= f.source < |remap| then Last(f.col, remap[f.source], f.srcLine, f.srcCol)
    else last
  }

  function Commit(w: Walk, remap: seq<int>): Walk {
    w.(bytes := w.bytes + EncodeAll(Deltas(w.last, w.reader, remap)),
       last := Advance(w.last, w.reader, remap))
  }

  function WalkByte(w: Walk, b: byte, remap: seq<int>): Walk {
    var r := ReadByte(w.reader, b);
    if b == SEMICOLON then
      var c := Commit(w, remap);
      Walk(c.bytes + [SEMICOLON], c.last.(col := 0), r)
    else if b == COMMA then
      var c := Commit(w, remap);
      Walk(c.bytes + [COMMA], c.last, r)
    else w.(reader := r)
  }

  function WalkAll(w: Walk, s: seq<byte>, remap: seq<int>): Walk
    decreases |s|
  {
    if s == [] then w else WalkAll(WalkByte(w, s[0], remap), s[1..], remap)
  }

  function Semicolons(n: nat): (s: seq<byte>)
    ensures |s| == n && forall i | 0 <= i < n :: s[i] == SEMICOLON
  {
    seq(n, _ => SEMICOLON)
  }

  // ----- Input that can be translated

  /** Positions stay within 31 bits and sources within the list of the map. */
  ghost predicate MappingOk(m: Mapping, sources: nat) {
    && 0 <= m.col < LIMIT
    && (m.origin.Some? ==>
          0 <= m.origin.value.source < sources && 0 <= m.origin.value.line < LIMIT && 0 <= m.origin.value.col < LIMIT)
  }

  ghost predicate Good(r: Reader, sources: nat) {
    && r.ok && r.acc < 0x8000_0000 && |r.fields| <= 5
    && (forall i | 0 <= i < |r.fields| :: -LIMIT < r.fields[i] < LIMIT)
    && (forall i | 0 <= i < |r.out| :: MappingOk(r.out[i], sources))
  }

  /** The input follows the format up to the first byte that is rejected, if any. */
  ghost predicate Readable(r: Reader, s: seq<byte>, sources: nat)
    decreases |s|
  {
    if s == [] then Good(Flush(r), sources)
    else Rejected(s[0]) || (Good(ReadByte(r, s[0]), sources) && Readable(ReadByte(r, s[0]), s[1..], sources))
  }

  ghost predicate Accepted(s: seq<byte>) {
    forall i | 0 <= i < |s| :: !Rejected(s[i])
  }

  // ----- What the written bytes mean

  function Moved(m: Mapping, base: nat, remap: seq<int>): Mapping {
    Mapping(m.line + base, m.col,
            if m.origin.Some? && 0 <= m.origin.value.source < |remap|
            then Some(m.origin.value.(source := remap[m.origin.value.source])) else m.origin)
  }

  function MovedAll(ms: seq<Mapping>, base: nat, remap: seq<int>): (r: seq<Mapping>)
    ensures |r| == |ms| && forall i | 0 <= i < |ms| :: r[i] == Moved(ms[i], base, remap)
  {
    seq(|ms|, i requires 0 <= i < |ms| => Moved(ms[i], base, remap))
  }

  ghost predicate InRange(last: Last) {
    0 <= last.col < LIMIT && 0 <= last.source < LIMIT && 0 <= last.line < LIMIT && 0 <= last.srcCol < LIMIT
  }

  /**
   Reading what was written so far, from the reader `v` on, gives what was there before plus what
   was read from the input, `base` lines further down.
   */
  ghost predicate Follows(v: Reader, base: nat, w: Walk, remap: seq<int>) {
    var o := ReadAll(v, w.bytes);
    && Clean(o) && o.fields == [] && InRange(w.last)
    && o.line == base + w.reader.line
    && o.col == w.last.col == w.reader.col
    && o.source == w.last.source && o.srcLine == w.last.line && o.srcCol == w.last.srcCol
    && o.out == v.out + MovedAll(w.reader.out, base, remap)
  }

  ghost predicate RemapOk(remap: seq<int>) {
    forall i | 0 <= i < |remap| :: 0 <= remap[i] < LIMIT
  }

  /** A segment that ends well is in range. */
  lemma FlushedIsOk(r: Reader, sources: nat)
    requires Good(Flush(r), sources) && |r.fields| > 0
    ensures |r.fields| == 1 || |r.fields| == 4 || |r.fields| == 5
    ensures MappingOk(Flush(r).out[|r.out|], sources) && |Flush(r).out| == |r.out| + 1
    ensures Flush(r).out[..|r.out|] == r.out
  {
  }

  /** Like `Follows`, once a separator ends the segment under way on both sides. */
  ghost predicate Committed(v: Reader, base: nat, w: Walk, remap: seq<int>) {
    var o := Flush(ReadAll(v, Commit(w, remap).bytes));
    var f := Flush(w.reader);
    var last := Advance(w.last, w.reader, remap);
    && Clean(o) && o.fields == [] && InRange(last)
    && o.line == base + w.reader.line
    && o.col == last.col == f.col
    && o.source == last.source && o.srcLine == last.line && o.srcCol == last.srcCol
    && o.out == v.out + MovedAll(f.out, base, remap)
  }

  /** Reading the numbers written for a segment gives them as its fields. */
  lemma ReadDeltas(v: Reader, w: Walk, remap: seq<int>)
    requires var o := ReadAll(v, w.bytes); Clean(o) && o.fields == []
    requires forall i | 0 <= i < |Deltas(w.last, w.reader, remap)| ::
               -LIMIT < Deltas(w.last, w.reader, remap)[i] < LIMIT
    ensures ReadAll(v, Commit(w, remap).bytes)
         == ReadAll(v, w.bytes).(fields := Deltas(w.last, w.reader, remap))
  {
    hide ReadAll, EncodeAll, Deltas;
    var ds := Deltas(w.last, w.reader, remap);
    ReadConcat(v, w.bytes, EncodeAll(ds));
    ReadEncodedAll(ReadAll(v, w.bytes), ds);
    assert [] + ds == ds;
  }

  lemma CommitOne(v: Reader, base: nat, w: Walk, remap: seq<int>)
    requires Follows(v, base, w, remap) && Good(Flush(w.reader), |remap|) && |w.reader.fields| == 1
    ensures Committed(v, base, w, remap)
  {
    hide ReadAll, EncodeAll, MovedAll;
    FlushedIsOk(w.reader, |remap|);
    ReadDeltas(v, w, remap);
    MovedOneMore(w.reader.out, Flush(w.reader).out[|w.reader.out|], base, remap);
  }

  lemma CommitFour(v: Reader, base: nat, w: Walk, remap: seq<int>)
    requires Follows(v, base, w, remap) && Good(Flush(w.reader), |remap|) && RemapOk(remap) && |w.reader.fields| > 1
    ensures Committed(v, base, w, remap)
  {
    hide ReadAll, EncodeAll, MovedAll;
    FlushedIsOk(w.reader, |remap|);
    ReadDeltas(v, w, remap);
    MovedOneMore(w.reader.out, Flush(w.reader).out[|w.reader.out|], base, remap);
  }

  lemma CommitFollows(v: Reader, base: nat, w: Walk, remap: seq<int>)
    requires Follows(v, base, w, remap) && Good(Flush(w.reader), |remap|) && RemapOk(remap)
    ensures Committed(v, base, w, remap)
  {
    if |w.reader.fields| == 0 {
      assert EncodeAll([]) == [];
      assert w.bytes + [] == w.bytes;
    } else if |w.reader.fields| == 1 {
      CommitOne(v, base, w, remap);
    } else {
      CommitFour(v, base, w, remap);
    }
  }

  lemma MovedOneMore(ms: seq<Mapping>, m: Mapping, base: nat, remap: seq<int>)
    ensures MovedAll(ms + [m], base, remap) == MovedAll(ms, base, remap) + [Moved(m, base, remap)]
  {
  }

  // ----- Byte by byte

  /** A separator flushes both sides. */
  lemma SeparatorFollows(v: Reader, base: nat, w: Walk, b: byte, remap: seq<int>)
    requires Follows(v, base, w, remap) && RemapOk(remap)
    requires (b == SEMICOLON || b == COMMA) && Good(ReadByte(w.reader, b), |remap|)
    ensures Follows(v, base, WalkByte(w, b, remap), remap)
  {
    hide ReadAll, MovedAll, Deltas, Advance, EncodeAll;
    CommitFollows(v, base, w, remap);
    var c := Commit(w, remap);
    ReadConcat(v, c.bytes, [b]);
    ReadOne(ReadAll(v, c.bytes), b);
  }

  lemma DigitFollows(v: Reader, base: nat, w: Walk, b: byte, remap: seq<int>)
    requires Follows(v, base, w, remap) && b != SEMICOLON && b != COMMA
    requires ReadByte(w.reader, b).ok
    ensures Follows(v, base, WalkByte(w, b, remap), remap)
  {
  }

  lemma {:induction false} WalkFollows(v: Reader, base: nat, w: Walk, s: seq<byte>, remap: seq<int>)
    requires Follows(v, base, w, remap) && RemapOk(remap) && Accepted(s) && Readable(w.reader, s, |remap|)
    ensures Follows(v, base, WalkAll(w, s, remap), remap)
    ensures WalkAll(w, s, remap).reader == ReadAll(w.reader, s)
    ensures Good(Flush(ReadAll(w.reader, s)), |remap|)
    decreases |s|
  {
    hide Follows, Good, RemapOk;
    if s != [] {
      OneByteFollows(v, base, w, s[0], remap);
      WalkFollows(v, base, WalkByte(w, s[0], remap), s[1..], remap);
    }
  }

  lemma OneByteFollows(v: Reader, base: nat, w: Walk, b: byte, remap: seq<int>)
    requires Follows(v, base, w, remap) && RemapOk(remap) && Good(ReadByte(w.reader, b), |remap|)
    ensures Follows(v, base, WalkByte(w, b, remap), remap)
    ensures WalkByte(w, b, remap).reader == ReadByte(w.reader, b)
  {
    hide Follows, RemapOk;
    if b == SEMICOLON || b == COMMA {
      SeparatorFollows(v, base, w, b, remap);
    } else {
      DigitFollows(v, base, w, b, remap);
    }
  }

  // ----- The lines that have no mappings

  /** The first semicolon also ends the segment under way. */
  lemma {:induction false} ReadSemicolons(r: Reader, n: nat)
    requires Clean(Flush(r)) && Flush(r).fields == []
    requires n == 0 ==> r.fields == [] && r.col == 0
    ensures ReadAll(r, Semicolons(n)) == Flush(r).(line := r.line + n, col := 0)
    decreases n
  {
    if n > 0 {
      assert Semicolons(n)[1..] == Semicolons(n - 1);
      ReadSemicolons(ReadByte(r, SEMICOLON), n - 1);
    }
  }

  // ----- Sources and what is built from them

  function Count(s: seq<byte>, x: byte): nat {
    if s == [] then 0 else Count(s[..|s| - 1], x) + if s[|s| - 1] == x then 1 else 0
  }

  function CountNL(s: seq<byte>): nat {
    Count(s, 10)
  }

  lemma {:induction false} CountConcat(s: seq<byte>, t: seq<byte>, x: byte)
    ensures Count(s + t, x) == Count(s, x) + Count(t, x)
    decreases |t|
  {
    if t == [] {
      assert s + t == s;
    } else {
      assert (s + t)[..|s + t| - 1] == s + t[..|t| - 1];
      CountConcat(s, t[..|t| - 1], x);
    }
  }

  /** Generated code, its lines, and the map from it to named sources. */
  datatype Source = Source(content: seq<byte>, sources: seq<string>, mappings: seq<byte>, lines: nat)

  datatype Built = Built(content: seq<byte>, sources: seq<string>, mappings: seq<byte>, last: Last)

  const EMPTY := Built([], [], [], Last(0, 0, 0, 0))

  /** Where a name stands in a list, or the length of the list. */
  function IndexOf(names: seq<string>, v: string): (i: nat)
    ensures i <= |names| && (v in names <==> i < |names|) && (i < |names| ==> names[i] == v)
    ensures forall j | 0 <= j < i :: names[j] != v
  {
    if names == [] then 0 else if names[0] == v then 0 else 1 + IndexOf(names[1..], v)
  }

  function WithName(all: seq<string>, v: string): seq<string> {
    if v in all then all else all + [v]
  }

  /** The list of sources with those of one more map added, each name once. */
  function Intern(all: seq<string>, names: seq<string>): (r: seq<string>)
    ensures all <= r && |r| <= |all| + |names|
    ensures forall i | 0 <= i < |names| :: names[i] in r
    decreases |names|
  {
    if names == [] then all
    else
      var r := Intern(WithName(all, names[0]), names[1..]);
      assert names[0] in WithName(all, names[0]);
      assert forall i | 0 < i < |names| :: names[i] == names[1..][i - 1];
      r
  }

  /** Sources that several maps share are listed once. */
  lemma {:induction false} InternKeepsDistinct(all: seq<string>, names: seq<string>)
    requires Distinct(all)
    ensures Distinct(Intern(all, names))
    decreases |names|
  {
    if names != [] {
      InternKeepsDistinct(WithName(all, names[0]), names[1..]);
    }
  }

  function RemapOf(all: seq<string>, names: seq<string>): (remap: seq<int>)
    ensures |remap| == |names|
    ensures forall i | 0 <= i < |names| :: remap[i] == IndexOf(Intern(all, names), names[i])
  {
    seq(|names|, i requires 0 <= i < |names| => IndexOf(Intern(all, names), names[i]) as int)
  }

  function StartOf(b: Built): Walk {
    Walk([], b.last.(col := 0), START)
  }

  function WalkOf(b: Built, s: Source): Walk {
    WalkAll(StartOf(b), s.mappings, RemapOf(b.sources, s.sources))
  }

  /** What is built once a source has been added. */
  function Add(b: Built, s: Source): Built {
    var w := WalkOf(b, s);
    var c := Commit(w, RemapOf(b.sources, s.sources));
    var missing := if w.reader.line < s.lines then s.lines - w.reader.line else 0;
    Built(b.content + s.content, Intern(b.sources, s.sources), b.mappings + c.bytes + Semicolons(missing),
          c.last.(col := 0))
  }

  // ----- Meaning in terms of names

  datatype NamedOrigin = NamedOrigin(name: Option<string>, line: int, col: int)
  datatype Named = Named(line: nat, col: int, origin: Option<NamedOrigin>)

  function NameAt(names: seq<string>, i: int): Option<string> {
    if 0 <= i < |names| then Some(names[i]) else None
  }

  function Name(m: Mapping, names: seq<string>): Named {
    Named(m.line, m.col,
          if m.origin.None? then None
          else Some(NamedOrigin(NameAt(names, m.origin.value.source), m.origin.value.line, m.origin.value.col)))
  }

  function NameAll(ms: seq<Mapping>, names: seq<string>): (r: seq<Named>)
    ensures |r| == |ms| && forall i | 0 <= i < |ms| :: r[i] == Name(ms[i], names)
  {
    seq(|ms|, i requires 0 <= i < |ms| => Name(ms[i], names))
  }

  function Lowered(ns: seq<Named>, n: nat): (r: seq<Named>)
    ensures |r| == |ns| && forall i | 0 <= i < |ns| :: r[i] == ns[i].(line := ns[i].line + n)
  {
    seq(|ns|, i requires 0 <= i < |ns| => ns[i].(line := ns[i].line + n))
  }

  function Meaning(b: Built): seq<Named> {
    NameAll(Mappings(b.mappings), b.sources)
  }

  function SourceMeaning(s: Source): seq<Named> {
    NameAll(Mappings(s.mappings), s.sources)
  }

  // ----- Adding a source

  /** The map covers the output so far, and the next segment starts a line. */
  ghost predicate Complete(b: Built) {
    var v := ReadAll(START, b.mappings);
    && Clean(v) && v.fields == [] && v.col == 0 && v.line == CountNL(b.content)
    && InRange(b.last) && b.last.col == 0
    && v.source == b.last.source && v.srcLine == b.last.line && v.srcCol == b.last.srcCol
    && (forall i | 0 <= i < |v.out| && v.out[i].origin.Some? :: 0 <= v.out[i].origin.value.source < |b.sources|)
  }

  /** A source whose line count is right and whose map follows the format. */
  ghost predicate WellFormed(s: Source) {
    && s.lines == CountNL(s.content)
    && Accepted(s.mappings) && Readable(START, s.mappings, |s.sources|)
  }

  /** The map ends before its last line does, or at the very end with nothing on the line after it. */
  predicate Fits(s: Source) {
    var r := ReadAll(START, s.mappings);
    r.line < s.lines || (r.line == s.lines && r.fields == [] && r.col == 0)
  }

  ghost predicate Small(b: Built, s: Source) {
    |b.sources| + |s.sources| <= LIMIT
  }

  lemma RemapIsOk(b: Built, s: Source)
    requires Small(b, s)
    ensures RemapOk(RemapOf(b.sources, s.sources))
  {
  }

  lemma StartFollows(b: Built, remap: seq<int>)
    requires Complete(b)
    ensures var v := ReadAll(START, b.mappings); Follows(v, v.line, StartOf(b), remap)
  {
    var v := ReadAll(START, b.mappings);
    assert MovedAll([], v.line, remap) == [];
    assert v.out + [] == v.out;
  }

  /** Reading what was built before, then what one source adds, up to the end of its map. */
  lemma AddFollows(b: Built, s: Source)
    requires Complete(b) && WellFormed(s) && Small(b, s)
    ensures var v := ReadAll(START, b.mappings);
            var remap := RemapOf(b.sources, s.sources);
            && WalkOf(b, s).reader == ReadAll(START, s.mappings)
            && Follows(v, v.line, WalkOf(b, s), remap) && Committed(v, v.line, WalkOf(b, s), remap)
            && Good(Flush(ReadAll(START, s.mappings)), |s.sources|)
  {
    hide Follows, Committed, Complete, Readable;
    var v := ReadAll(START, b.mappings);
    var remap := RemapOf(b.sources, s.sources);
    RemapIsOk(b, s);
    StartFollows(b, remap);
    WalkFollows(v, v.line, StartOf(b), s.mappings, remap);
    CommitFollows(v, v.line, WalkOf(b, s), remap);
  }

  lemma ReadAdded(b: Built, s: Source)
    requires Complete(b) && WellFormed(s) && Small(b, s)
    ensures var v := ReadAll(START, b.mappings);
            var w := WalkOf(b, s);
            var remap := RemapOf(b.sources, s.sources);
            var missing := if w.reader.line < s.lines then s.lines - w.reader.line else 0;
            ReadAll(START, Add(b, s).mappings) == ReadAll(ReadAll(v, Commit(w, remap).bytes), Semicolons(missing))
  {
    hide ReadAll, Complete, WellFormed;
    var w := WalkOf(b, s);
    var c := Commit(w, RemapOf(b.sources, s.sources));
    var missing := if w.reader.line < s.lines then s.lines - w.reader.line else 0;
    ReadConcat(START, b.mappings + c.bytes, Semicolons(missing));
    ReadConcat(START, b.mappings, c.bytes);
  }

  /** Names of moved mappings are the names they had in their own map. */
  lemma NamesOfMoved(ms: seq<Mapping>, names: seq<string>, all: seq<string>, remap: seq<int>, base: nat)
    requires |remap| == |names| && forall i | 0 <= i < |names| :: 0 <= remap[i] < |all| && all[remap[i]] == names[i]
    requires forall i | 0 <= i < |ms| :: MappingOk(ms[i], |names|)
    ensures NameAll(MovedAll(ms, base, remap), all) == Lowered(NameAll(ms, names), base)
  {
    forall i | 0 <= i < |ms|
      ensures NameAll(MovedAll(ms, base, remap), all)[i] == Lowered(NameAll(ms, names), base)[i]
    {
      assert MappingOk(ms[i], |names|);
    }
  }

  /** Names already given stay when the list of sources grows. */
  lemma NamesStay(ms: seq<Mapping>, names: seq<string>, all: seq<string>)
    requires names <= all
    requires forall i | 0 <= i < |ms| && ms[i].origin.Some? :: 0 <= ms[i].origin.value.source < |names|
    ensures NameAll(ms, all) == NameAll(ms, names)
  {
  }

  lemma NamesOfConcat(a: seq<Mapping>, b: seq<Mapping>, names: seq<string>)
    ensures NameAll(a + b, names) == NameAll(a, names) + NameAll(b, names)
  {
  }

  /** Reading on through the added source and the lines that its map leaves out. */
  lemma AddedReader(b: Built, s: Source)
    requires Complete(b) && WellFormed(s) && Small(b, s) && Fits(s)
    ensures var v := ReadAll(START, b.mappings);
            var o := ReadAll(START, Add(b, s).mappings);
            var last := Add(b, s).last;
            && Clean(o) && o.fields == [] && o.col == 0 && o.line == v.line + s.lines
            && InRange(last) && last.col == 0
            && o.source == last.source && o.srcLine == last.line && o.srcCol == last.srcCol
            && o.out == v.out + MovedAll(Mappings(s.mappings), v.line, RemapOf(b.sources, s.sources))
  {
    hide ReadAll, Complete, WellFormed, WalkAll, MovedAll, EncodeAll, Good;
    var v := ReadAll(START, b.mappings);
    var w := WalkOf(b, s);
    var remap := RemapOf(b.sources, s.sources);
    var missing := if w.reader.line < s.lines then s.lines - w.reader.line else 0;
    AddFollows(b, s);
    ReadAdded(b, s);
    var p := ReadAll(v, Commit(w, remap).bytes);
    CommitKeepsPlace(v, w, remap);
    ReadSemicolons(p, missing);
  }

  /** When nothing is pending in the input, nothing is written. */
  lemma CommitKeepsPlace(v: Reader, w: Walk, remap: seq<int>)
    requires Clean(Flush(ReadAll(v, Commit(w, remap).bytes))) && Flush(ReadAll(v, Commit(w, remap).bytes)).fields == []
    ensures w.reader.fields == [] ==> Commit(w, remap).bytes == w.bytes
    ensures Flush(ReadAll(v, Commit(w, remap).bytes)).line == ReadAll(v, Commit(w, remap).bytes).line
  {
    assert EncodeAll([]) == [];
    assert w.bytes + [] == w.bytes;
  }

  lemma AddedOrigins(b: Built, s: Source)
    requires Complete(b) && WellFormed(s) && Small(b, s) && Fits(s)
    ensures var o := ReadAll(START, Add(b, s).mappings);
            forall i | 0 <= i < |o.out| && o.out[i].origin.Some? ::
              0 <= o.out[i].origin.value.source < |Add(b, s).sources|
  {
    hide ReadAll, WalkAll, EncodeAll, Intern, Flush;
    var v := ReadAll(START, b.mappings);
    AddedReader(b, s);
    AddFollows(b, s);
    var ms := Mappings(s.mappings);
    var remap := RemapOf(b.sources, s.sources);
    var o := ReadAll(START, Add(b, s).mappings);
    forall i | 0 <= i < |o.out| && o.out[i].origin.Some?
      ensures 0 <= o.out[i].origin.value.source < |Add(b, s).sources|
    {
      if i >= |v.out| {
        var m := ms[i - |v.out|];
        assert MappingOk(m, |s.sources|);
        assert o.out[i] == Moved(m, v.line, remap);
      }
    }
  }

  lemma AddKeepsComplete(b: Built, s: Source)
    requires Complete(b) && WellFormed(s) && Small(b, s) && Fits(s)
    ensures Complete(Add(b, s)) && CountNL(Add(b, s).content) == CountNL(b.content) + s.lines
  {
    hide ReadAll, WalkAll, EncodeAll, Intern, Readable, Accepted, Fits, Commit, Advance;
    AddedReader(b, s);
    AddedOrigins(b, s);
    CountConcat(b.content, s.content, 10);
  }

  lemma RemapNames(all: seq<string>, names: seq<string>)
    ensures forall i | 0 <= i < |names| ::
              0 <= RemapOf(all, names)[i] < |Intern(all, names)|
              && Intern(all, names)[RemapOf(all, names)[i]] == names[i]
  {
  }

  /**
   Adding a source keeps the meaning of all that was built before and adds the meaning of the new
   map, lower by the lines before it; and the result can be added to again.
   */
  lemma AddKeepsMeaning(b: Built, s: Source)
    requires Complete(b) && WellFormed(s) && Small(b, s) && Fits(s)
    ensures Complete(Add(b, s)) && CountNL(Add(b, s).content) == CountNL(b.content) + s.lines
    ensures Meaning(Add(b, s)) == Meaning(b) + Lowered(SourceMeaning(s), CountNL(b.content))
  {
    hide ReadAll, WalkAll, EncodeAll, Intern, Readable, Accepted, Fits, Commit, RemapOf, NameAll, MovedAll, CountNL,
         Lowered;
    var v := ReadAll(START, b.mappings);
    var all := Intern(b.sources, s.sources);
    var remap := RemapOf(b.sources, s.sources);
    AddKeepsComplete(b, s);
    AddedReader(b, s);
    AddFollows(b, s);
    RemapNames(b.sources, s.sources);
    NamesOfConcat(v.out, MovedAll(Mappings(s.mappings), v.line, remap), all);
    NamesStay(v.out, b.sources, all);
    NamesOfMoved(Mappings(s.mappings), s.sources, all, remap, v.line);
  }

  // ----- Any number of sources

  function AddAll(b: Built, ss: seq<Source>): Built {
    if ss == [] then b else Add(AddAll(b, ss[..|ss| - 1]), ss[|ss| - 1])
  }

  function TotalLines(ss: seq<Source>): nat {
    if ss == [] then 0 else TotalLines(ss[..|ss| - 1]) + ss[|ss| - 1].lines
  }

  function TotalSources(ss: seq<Source>): nat {
    if ss == [] then 0 else TotalSources(ss[..|ss| - 1]) + |ss[|ss| - 1].sources|
  }

  /** The individual maps one after the other, each lower by the lines of those before it. */
  function Concatenated(ss: seq<Source>): seq<Named> {
    if ss == [] then []
    else Concatenated(ss[..|ss| - 1]) + Lowered(SourceMeaning(ss[|ss| - 1]), TotalLines(ss[..|ss| - 1]))
  }

  /** The output of all sources in order. */
  function AllContent(ss: seq<Source>): seq<byte> {
    if ss == [] then [] else AllContent(ss[..|ss| - 1]) + ss[|ss| - 1].content
  }

  lemma EmptyIsComplete()
    ensures Complete(EMPTY) && Meaning(EMPTY) == [] && CountNL(EMPTY.content) == 0
  {
  }

  /** The map of any sequence of sources is the concatenation of their maps. */
  lemma {:induction false} ConcatenationTheorem(ss: seq<Source>)
    requires forall i | 0 <= i < |ss| :: WellFormed(ss[i]) && Fits(ss[i])
    requires TotalSources(ss) <= LIMIT
    ensures var b := AddAll(EMPTY, ss);
            && Complete(b) && |b.sources| <= TotalSources(ss)
            && b.content == AllContent(ss) && CountNL(b.content) == TotalLines(ss)
            && Meaning(b) == Concatenated(ss)
    decreases |ss|
  {
    hide WellFormed, Fits, Complete, Meaning, SourceMeaning, CountNL, Lowered;
    EmptyIsComplete();
    if ss != [] {
      var front := ss[..|ss| - 1];
      ConcatenationTheorem(front);
      AddKeepsMeaning(AddAll(EMPTY, front), ss[|ss| - 1]);
    }
  }

  /** Code and map of every source stand behind those of the sources before it, the map as far down as the code. */
  lemma {:induction false} PiecesInPlace(ss: seq<Source>, i: nat)
    requires i < |ss| && forall k | 0 <= k < |ss| :: ss[k].lines == CountNL(ss[k].content)
    ensures AllContent(ss[..i]) + ss[i].content <= AllContent(ss)
    ensures Concatenated(ss[..i]) + Lowered(SourceMeaning(ss[i]), CountNL(AllContent(ss[..i]))) <= Concatenated(ss)
    decreases |ss|
  {
    hide CountNL, SourceMeaning, Lowered;
    var front := ss[..|ss| - 1];
    if i == |ss| - 1 {
      LinesOfContent(front);
    } else {
      assert front[..i] == ss[..i];
      PiecesInPlace(front, i);
    }
  }

  lemma {:induction false} LinesOfContent(ss: seq<Source>)
    requires forall k | 0 <= k < |ss| :: ss[k].lines == CountNL(ss[k].content)
    ensures CountNL(AllContent(ss)) == TotalLines(ss)
    decreases |ss|
  {
    if ss != [] {
      LinesOfContent(ss[..|ss| - 1]);
      CountConcat(AllContent(ss[..|ss| - 1]), ss[|ss| - 1].content, 10);
    }
  }

  // ----- Exactly which sources can be added

  /** One line of code that maps to nothing in particular. */
  const PROBE := Source([10], [], [65], 1)

  /** Whatever comes next keeps its meaning. */
  ghost predicate Extensible(b: Built, s: Source) {
    forall t | WellFormed(t) && Fits(t) && |b.sources| + |s.sources| + |t.sources| <= LIMIT ::
      Meaning(Add(Add(b, s), t))
        == Meaning(b) + Lowered(SourceMeaning(s), CountNL(b.content))
           + Lowered(SourceMeaning(t), CountNL(b.content) + s.lines)
  }

  lemma AddedSources(b: Built, s: Source)
    ensures |Add(b, s).sources| <= |b.sources| + |s.sources|
  {
  }

  lemma FitsIsEnough(b: Built, s: Source)
    requires Complete(b) && WellFormed(s) && Small(b, s) && Fits(s)
    ensures Extensible(b, s)
  {
    hide WellFormed, Fits, Complete, Meaning, SourceMeaning, CountNL, Lowered, Add;
    AddKeepsMeaning(b, s);
    AddedSources(b, s);
    forall t | WellFormed(t) && Fits(t) && |b.sources| + |s.sources| + |t.sources| <= LIMIT
      ensures Meaning(Add(Add(b, s), t))
           == Meaning(b) + Lowered(SourceMeaning(s), CountNL(b.content))
              + Lowered(SourceMeaning(t), CountNL(b.content) + s.lines)
    {
      AddKeepsMeaning(Add(b, s), t);
    }
  }

  lemma ProbeReads(r: Reader)
    requires Clean(r)
    ensures ReadAll(r, [65]) == r.(fields := r.fields + [0])
    ensures ReadAll(r, [65, SEMICOLON]) == ReadByte(r.(fields := r.fields + [0]), SEMICOLON)
  {
    ReadOne(r, 65);
    assert [65, SEMICOLON][1..] == [SEMICOLON];
    ReadOne(ReadByte(r, 65), SEMICOLON);
  }

  lemma ProbeIsWellFormed()
    ensures WellFormed(PROBE) && Fits(PROBE)
    ensures SourceMeaning(PROBE) == [Named(0, 0, None)]
  {
    ProbeReads(START);
    assert ReadByte(START, 65) == START.(fields := [0]);
    assert [65][1..] == [];
    assert Flush(START.(fields := [0])).out == [Mapping(0, 0, None)];
    assert Good(START.(fields := [0]), 0) && Good(Flush(START.(fields := [0])), 0);
    assert Readable(START.(fields := [0]), [], 0);
    assert PROBE.content[..0] == [];
  }

  lemma AddProbe(b: Built)
    ensures Add(b, PROBE).mappings == b.mappings + [65, SEMICOLON] && Add(b, PROBE).sources == b.sources
  {
    ProbeReads(START);
    var remap := RemapOf(b.sources, []);
    var w := WalkOf(b, PROBE);
    assert [65][1..] == [];
    assert w == Walk([], b.last.(col := 0), START.(fields := [0]));
    assert Deltas(w.last, w.reader, remap) == [0];
    EncodedInRange(0);
    assert [0][1..] == [];
    assert EncodeAll([0]) == Encoded(0) + EncodeAll([]);
    assert Encoded(0) == [65];
    assert Semicolons(1) == [SEMICOLON];
  }

  /** A map that ends with a segment under way: the probe becomes part of that segment. */
  lemma ProbeIsSwallowed(o: Reader)
    requires Clean(o) && (|o.fields| == 1 || |o.fields| == 4)
    ensures |Flush(ReadAll(o, [65, SEMICOLON])).out| < |Flush(o).out| + 1
  {
    ProbeReads(o);
  }

  /** A map that ends between segments: the probe lands where the map ended. */
  lemma ProbeLands(o: Reader)
    requires Clean(o) && o.fields == []
    ensures Flush(ReadAll(o, [65, SEMICOLON])).out == o.out + [Mapping(o.line, o.col, None)]
  {
    ProbeReads(o);
  }

  /** Where a map that was added ends: `v` read what was there before, `r` the map itself, `o` both. */
  ghost predicate EndsOpen(v: Reader, r: Reader, o: Reader) {
    && Clean(o) && |Flush(o).out| == |v.out| + |Flush(r).out|
    && (if r.fields == [] then o.fields == [] && o.line == v.line + r.line && o.col == r.col
        else |o.fields| == 1 || |o.fields| == 4)
  }

  /** The reader at the end of what a source adds that fills no lines. */
  lemma EndOfUnfitting(b: Built, s: Source)
    requires Complete(b) && WellFormed(s) && Small(b, s) && !Fits(s)
    ensures EndsOpen(ReadAll(START, b.mappings), ReadAll(START, s.mappings), ReadAll(START, Add(b, s).mappings))
  {
    hide ReadAll, Complete, WellFormed, WalkAll, EncodeAll;
    var v := ReadAll(START, b.mappings);
    var w := WalkOf(b, s);
    var remap := RemapOf(b.sources, s.sources);
    AddFollows(b, s);
    ReadAdded(b, s);
    NoSemicolons(ReadAll(v, Commit(w, remap).bytes));
    if w.reader.fields == [] {
      CommitKeepsPlace(v, w, remap);
    } else {
      FlushedIsOk(w.reader, |remap|);
      DeltasInRange(v, w, remap);
      ReadDeltas(v, w, remap);
    }
  }

  lemma NoSemicolons(r: Reader)
    ensures ReadAll(r, Semicolons(0)) == r
  {
  }

  lemma DeltasInRange(v: Reader, w: Walk, remap: seq<int>)
    requires InRange(w.last) && Good(Flush(w.reader), |remap|) && RemapOk(remap)
    ensures forall i | 0 <= i < |Deltas(w.last, w.reader, remap)| :: -LIMIT < Deltas(w.last, w.reader, remap)[i] < LIMIT
  {
    if |w.reader.fields| > 0 {
      FlushedIsOk(w.reader, |remap|);
    }
  }

  lemma FitsIsNeeded(b: Built, s: Source)
    requires Complete(b) && WellFormed(s) && Small(b, s) && !Fits(s)
    ensures !Extensible(b, s)
  {
    hide ReadAll, WalkAll, EncodeAll, Add, Readable, Accepted;
    var v := ReadAll(START, b.mappings);
    var r := ReadAll(START, s.mappings);
    var a := Add(b, s);
    var o := ReadAll(START, a.mappings);
    ProbeIsWellFormed();
    AddProbe(a);
    EndOfUnfitting(b, s);
    ReadConcat(START, a.mappings, [65, SEMICOLON]);
    var got := Meaning(Add(a, PROBE));
    var want := Meaning(b) + Lowered(SourceMeaning(s), CountNL(b.content))
                + Lowered(SourceMeaning(PROBE), CountNL(b.content) + s.lines);
    if r.fields == [] {
      ProbeLands(o);
      assert got[|got| - 1] == Named(o.line, o.col, None);
      assert want[|want| - 1] == Named(v.line + s.lines, 0, None);
    } else {
      ProbeIsSwallowed(o);
      assert |got| < |want|;
    }
    assert got != want;
  }

  /** One line of content, two of mappings. */
  const TOO_MANY_LINES := Source([10], [], [SEMICOLON, SEMICOLON], 1)

  lemma TooManyLinesRead()
    ensures ReadAll(START, TOO_MANY_LINES.mappings) == START.(line := 2)
    ensures WellFormed(TOO_MANY_LINES)
  {
    var q, one, two := [SEMICOLON, SEMICOLON], START.(line := 1), START.(line := 2);
    assert ReadByte(START, SEMICOLON) == one && ReadByte(one, SEMICOLON) == two;
    assert q[1..] == [SEMICOLON] && [SEMICOLON][1..] == [];
    ReadOne(one, SEMICOLON);
    assert Readable(two, [], 0) && Readable(one, [SEMICOLON], 0);
    assert [10][..0] == [];
  }

  lemma AddTooManyLines()
    ensures Add(EMPTY, TOO_MANY_LINES).mappings == TOO_MANY_LINES.mappings && Add(EMPTY, TOO_MANY_LINES).sources == []
  {
    hide Encoded;
    var q, one, two := [SEMICOLON, SEMICOLON], START.(line := 1), START.(line := 2);
    var first, last := Walk([SEMICOLON], EMPTY.last, one), Walk(q, EMPTY.last, two);
    assert WalkByte(StartOf(EMPTY), SEMICOLON, []) == first && WalkByte(first, SEMICOLON, []) == last;
    assert q[1..] == [SEMICOLON] && [SEMICOLON][1..] == [];
    assert WalkAll(last, [], []) == last && WalkAll(first, [SEMICOLON], []) == last;
    assert RemapOf(EMPTY.sources, TOO_MANY_LINES.sources) == [];
  }

  /** After it the probe, on line 1 of the content, is mapped on line 2. */
  lemma ProbeOnWrongLine()
    ensures WellFormed(TOO_MANY_LINES) && !Fits(TOO_MANY_LINES)
    ensures CountNL(Add(EMPTY, TOO_MANY_LINES).content) == 1
    ensures Meaning(Add(Add(EMPTY, TOO_MANY_LINES), PROBE)) == [Named(2, 0, None)]
  {
    hide Add, ReadAll, Readable;
    var b := Add(EMPTY, TOO_MANY_LINES);
    TooManyLinesRead();
    AddTooManyLines();
    AddProbe(b);
    ReadConcat(START, TOO_MANY_LINES.mappings, [65, SEMICOLON]);
    ProbeLands(START.(line := 2));
    ContentOfTooManyLines();
  }

  lemma ContentOfTooManyLines()
    ensures CountNL(Add(EMPTY, TOO_MANY_LINES).content) == 1
  {
    assert Add(EMPTY, TOO_MANY_LINES).content == [10];
    assert [10][..0] == [];
  }

  /** Adding a source leaves every later one in its place exactly if it fits. */
  lemma FitsExactly(b: Built, s: Source)
    requires Complete(b) && WellFormed(s) && Small(b, s)
    ensures Extensible(b, s) <==> Fits(s)
  {
    if Fits(s) {
      FitsIsEnough(b, s);
    } else {
      FitsIsNeeded(b, s);
    }
  }
}
