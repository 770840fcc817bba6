/** Any list of mappings, written out by the rules of the format, reads back as that list. */
module SourceMapWriters {
  import opened Common
  import opened Vlq
  import opened SourceMapFormat
  import opened SourceMapConcat

  /** Where a writer is: the generated position of the last segment, and the last origin written. */
  datatype Place = Place(line: nat, col: int, origin: Origin)

  /** The fields of a segment: columns are relative within a line, origins to the last origin anywhere. */
  function Fields(p: Place, m: Mapping): seq<int> {
    var col := if m.line == p.line then m.col - p.col else m.col;
    match m.origin
    case None => [col]
    case Some(o) => [col, o.source - p.origin.source, o.line - p.origin.line, o.col - p.origin.col]
  }

  /** What stands before a segment: a semicolon for every new line, or a comma after another segment. */
  function Separator(p: Place, m: Mapping, first: bool): seq<byte> {
    if m.line > p.line then Semicolons(m.line - p.line) else if first then [] else [COMMA]
  }

  function PlaceOf(p: Place, m: Mapping): Place {
    Place(m.line, m.col, if m.origin.Some? then m.origin.value else p.origin)
  }

  function PlaceAfter(ms: seq<Mapping>): Place {
    if ms == [] then Place(0, 0, Origin(0, 0, 0)) else PlaceOf(PlaceAfter(ms[..|ms| - 1]), ms[|ms| - 1])
  }

  function Piece(p: Place, m: Mapping, first: bool): seq<byte> {
    Separator(p, m, first) + EncodeAll(Fields(p, m))
  }

  function Written(ms: seq<Mapping>): seq<byte> {
    if ms == [] then []
    else
      var front, m := ms[..|ms| - 1], ms[|ms| - 1];
      Written(front) + Piece(PlaceAfter(front), m, front == [])
  }

  /** Lines do not go back, and all differences fit. */
  ghost predicate Writable(ms: seq<Mapping>) {
    ms == [] ||
    var front, m := ms[..|ms| - 1], ms[|ms| - 1];
    Writable(front) && PlaceAfter(front).line <= m.line && AllSmall(Fields(PlaceAfter(front), m))
  }

  /** Having read `ms`, the last segment perhaps still open, a reader is at `p`. */
  ghost predicate IsAt(r: Reader, p: Place, ms: seq<Mapping>) {
    var f := Flush(r);
    && Clean(f) && f.fields == [] && f.out == ms && f.line == p.line && f.col == p.col
    && Origin(f.source, f.srcLine, f.srcCol) == p.origin
  }

  /** Before a segment for `m`. */
  ghost predicate IsBefore(r: Reader, p: Place, m: Mapping) {
    && Clean(r) && r.fields == [] && r.line == m.line && r.col == (if m.line == p.line then p.col else 0)
    && Origin(r.source, r.srcLine, r.srcCol) == p.origin
  }

  /** Behind the separator the next segment begins. */
  lemma ReadSeparator(r: Reader, p: Place, ms: seq<Mapping>, m: Mapping)
    requires IsAt(r, p, ms) && p.line <= m.line && (ms == [] ==> r == START)
    ensures var o := ReadAll(r, Separator(p, m, ms == [])); IsBefore(o, p, m) && o.out == ms
  {
    if m.line > p.line {
      ReadSemicolons(r, m.line - p.line);
    } else if ms != [] {
      ReadOne(r, COMMA);
    }
  }

  lemma FieldsMean(r: Reader, p: Place, m: Mapping)
    requires IsBefore(r, p, m)
    ensures IsAt(r.(fields := Fields(p, m)), PlaceOf(p, m), r.out + [m])
  {
    if m.origin.None? {
      assert |Fields(p, m)| == 1;
    } else {
      assert |Fields(p, m)| == 4;
    }
  }

  /** A segment means a mapping: its column, then source, line and column of its origin. */
  lemma SegmentMeans(r: Reader, p: Place, m: Mapping)
    requires IsBefore(r, p, m) && AllSmall(Fields(p, m))
    ensures IsAt(ReadAll(r, EncodeAll(Fields(p, m))), PlaceOf(p, m), r.out + [m])
  {
    var fields := Fields(p, m);
    FieldsMean(r, p, m);
    hide ReadAll, EncodeAll, AllSmall, IsAt, Fields;
    ReadEncodedAll(r, fields);
    assert r.fields + fields == fields;
  }

  lemma ReadPiece(r: Reader, p: Place, ms: seq<Mapping>, m: Mapping)
    requires IsAt(r, p, ms) && p.line <= m.line && (ms == [] ==> r == START) && AllSmall(Fields(p, m))
    ensures IsAt(ReadAll(r, Piece(p, m, ms == [])), PlaceOf(p, m), ms + [m])
  {
    hide IsAt, IsBefore, ReadAll, EncodeAll, Fields, AllSmall, Separator, PlaceOf;
    ReadSeparator(r, p, ms, m);
    SegmentMeans(ReadAll(r, Separator(p, m, ms == [])), p, m);
    ReadConcat(r, Separator(p, m, ms == []), EncodeAll(Fields(p, m)));
  }

  lemma NothingWritten()
    ensures IsAt(ReadAll(START, []), Place(0, 0, Origin(0, 0, 0)), []) && ReadAll(START, []) == START
  {
  }

  lemma {:induction false} WrittenIsAt(ms: seq<Mapping>)
    requires Writable(ms)
    ensures IsAt(ReadAll(START, Written(ms)), PlaceAfter(ms), ms)
    ensures ms == [] ==> ReadAll(START, Written(ms)) == START
    decreases |ms|
  {
    hide IsAt, ReadAll, Piece, AllSmall, PlaceOf, Fields;
    if ms == [] {
      NothingWritten();
    } else {
      var front, m := ms[..|ms| - 1], ms[|ms| - 1];
      WrittenIsAt(front);
      ReadPiece(ReadAll(START, Written(front)), PlaceAfter(front), front, m);
      ReadConcat(START, Written(front), Piece(PlaceAfter(front), m, front == []));
      assert front + [m] == ms;
    }
  }

  /** Written and read again, mappings are what they were. */
  lemma WrittenReadsBack(ms: seq<Mapping>)
    requires Writable(ms)
    ensures Mappings(Written(ms)) == ms
  {
    WrittenIsAt(ms);
  }
}
