/** Normalization of module ids: the rewriting loops of the loader and a one-pass specification. */
module ModuleIds {

  // ----- Segments

  function Split(s: string): (segs: seq<string>)
    ensures |segs| >= 1
  {
    if s == "" then [""]
    else
      var rest := Split(s[1..]);
      if s[0] == '/' then [""] + rest else [[s[0]] + rest[0]] + rest[1..]
  }

  function Join(segs: seq<string>): string
    requires |segs| >= 1
  {
    if |segs| == 1 then segs[0] else segs[0] + "/" + Join(segs[1..])
  }

  ghost predicate SlashFree(segs: seq<string>) {
    forall k | 0 <= k < |segs| :: '/' !in segs[k]
  }

  lemma {:induction false} SplitAtSlash(x: string, y: string)
    ensures Split(x + "/" + y) == Split(x) + Split(y)
  {
    if x == "" {
      assert (x + "/" + y)[1..] == y;
    } else {
      assert (x + "/" + y)[1..] == x[1..] + "/" + y;
      SplitAtSlash(x[1..], y);
    }
  }

  lemma {:induction false} SplitPlain(s: string)
    requires '/' !in s
    ensures Split(s) == [s]
  {
    if s != "" {
      assert s == [s[0]] + s[1..];
      SplitPlain(s[1..]);
    }
  }

  lemma {:induction false} SplitIsSlashFree(s: string)
    ensures SlashFree(Split(s))
  {
    if s != "" {
      SplitIsSlashFree(s[1..]);
    }
  }

  lemma {:induction false} JoinOfSplit(s: string)
    ensures Join(Split(s)) == s
  {
    if s != "" {
      JoinOfSplit(s[1..]);
      var rest := Split(s[1..]);
      if s[0] == '/' {
        assert ([""] + rest)[1..] == rest;
      } else {
        assert ([[s[0]] + rest[0]] + rest[1..])[1..] == rest[1..];
      }
    }
  }

  lemma {:induction false} SplitOfJoin(segs: seq<string>)
    requires |segs| >= 1 && SlashFree(segs)
    ensures Split(Join(segs)) == segs
  {
    SplitPlain(segs[0]);
    if |segs| > 1 {
      SplitAtSlash(segs[0], Join(segs[1..]));
      SplitOfJoin(segs[1..]);
    }
  }

  lemma {:induction false} JoinOfConcat(a: seq<string>, b: seq<string>)
    requires |a| >= 1 && |b| >= 1
    ensures Join(a + b) == Join(a) + "/" + Join(b)
  {
    if |a| == 1 {
      assert (a + b)[1..] == b;
    } else {
      assert (a + b)[1..] == a[1..] + b;
      JoinOfConcat(a[1..], b);
    }
  }

  // ----- One pass over the segments

  /** A segment that a following ".." takes away. */
  predicate Removable(seg: string) {
    seg != "" && seg != ".."
  }

  function Push(stack: seq<string>, seg: string): seq<string> {
    if seg == "." then stack
    else if seg == ".." && stack != [] && Removable(stack[|stack| - 1]) then stack[..|stack| - 1]
    else stack + [seg]
  }

  function PushAll(stack: seq<string>, segs: seq<string>): seq<string>
    decreases |segs|
  {
    if segs == [] then stack else PushAll(Push(stack, segs[0]), segs[1..])
  }

  /** The specification: one pass over all segments before the last, which is kept as it is. */
  function Normal(id: string): string {
    var segs := Split(id);
    Join(PushAll([], segs[..|segs| - 1]) + [segs[|segs| - 1]])
  }

  lemma {:induction false} PushAllConcat(stack: seq<string>, a: seq<string>, b: seq<string>)
    ensures PushAll(stack, a + b) == PushAll(PushAll(stack, a), b)
    decreases |a|
  {
    if a == [] {
      assert a + b == b;
    } else {
      assert (a + b)[1..] == a[1..] + b;
      PushAllConcat(Push(stack, a[0]), a[1..], b);
    }
  }

  /** Segments that leave every stack as it was do not matter, unless they come last. */
  lemma NormalIgnores(a: seq<string>, middle: seq<string>, b: seq<string>, x: string, y: string)
    requires |b| >= 1 && Split(x) == a + middle + b && Split(y) == a + b
    requires PushAll(PushAll([], a), middle) == PushAll([], a)
    ensures Normal(x) == Normal(y)
  {
    var front := b[..|b| - 1];
    assert Split(x)[..|Split(x)| - 1] == (a + middle) + front;
    assert Split(y)[..|Split(y)| - 1] == a + front;
    PushAllConcat([], a + middle, front);
    PushAllConcat([], a, middle);
    PushAllConcat([], a, front);
  }

  // ----- A normal id

  /** No "." at all, and no ".." behind a segment it would take away. */
  ghost predicate Stable(segs: seq<string>) {
    && (forall k | 0 <= k < |segs| :: segs[k] != ".")
    && (forall k | 0 < k < |segs| && segs[k] == ".." :: !Removable(segs[k - 1]))
  }

  lemma {:induction false} PushAllIsStable(stack: seq<string>, segs: seq<string>)
    requires Stable(stack) && SlashFree(stack) && SlashFree(segs)
    ensures Stable(PushAll(stack, segs)) && SlashFree(PushAll(stack, segs))
    decreases |segs|
  {
    if segs != [] {
      PushAllIsStable(Push(stack, segs[0]), segs[1..]);
    }
  }

  lemma {:induction false} StableIsKept(stack: seq<string>, segs: seq<string>)
    requires Stable(stack + segs)
    ensures PushAll(stack, segs) == stack + segs
    decreases |segs|
  {
    if segs != [] {
      assert (stack + segs)[|stack|] == segs[0];
      assert stack != [] ==> (stack + segs)[|stack| - 1] == stack[|stack| - 1];
      assert stack + segs == (stack + [segs[0]]) + segs[1..];
      StableIsKept(stack + [segs[0]], segs[1..]);
    }
  }

  lemma StableIsNormal(id: string)
    requires Stable(Split(id)[..|Split(id)| - 1])
    ensures Normal(id) == id
  {
    hide Split, PushAll, Join, Stable;
    var segs := Split(id);
    assert [] + segs[..|segs| - 1] == segs[..|segs| - 1];
    StableIsKept([], segs[..|segs| - 1]);
    assert segs[..|segs| - 1] + [segs[|segs| - 1]] == segs;
    JoinOfSplit(id);
  }

  /** Normalizing twice is normalizing once. */
  lemma NormalIsIdempotent(id: string)
    ensures Normal(Normal(id)) == Normal(id)
  {
    var segs := Split(id);
    SplitIsSlashFree(id);
    var stack := PushAll([], segs[..|segs| - 1]);
    PushAllIsStable([], segs[..|segs| - 1]);
    SplitOfJoin(stack + [segs[|segs| - 1]]);
    assert (stack + [segs[|segs| - 1]])[..|stack|] == stack;
    StableIsNormal(Normal(id));
  }

  // ----- Where an id leads

  /** From a directory, given by the names that lead to it: stay, go up, or go down. */
  function Enter(at: seq<string>, seg: string): seq<string> {
    if seg == "." then at
    else if seg == ".." then (if at == [] then at else at[..|at| - 1])
    else at + [seg]
  }

  function Walk(at: seq<string>, segs: seq<string>): seq<string>
    decreases |segs|
  {
    if segs == [] then at else Walk(Enter(at, segs[0]), segs[1..])
  }

  lemma {:induction false} WalkConcat(at: seq<string>, a: seq<string>, b: seq<string>)
    ensures Walk(at, a + b) == Walk(Walk(at, a), b)
    decreases |a|
  {
    if a == [] {
      assert a + b == b;
    } else {
      assert (a + b)[1..] == a[1..] + b;
      WalkConcat(Enter(at, a[0]), a[1..], b);
    }
  }

  lemma WalkOne(at: seq<string>, seg: string)
    ensures Walk(at, [seg]) == Enter(at, seg)
  {
    assert [seg][1..] == [];
  }

  lemma PushLeadsThere(at: seq<string>, stack: seq<string>, seg: string)
    requires Stable(stack)
    ensures Walk(at, Push(stack, seg)) == Enter(Walk(at, stack), seg)
  {
    hide Walk;
    if seg == ".." && stack != [] && Removable(stack[|stack| - 1]) {
      var front, last := stack[..|stack| - 1], stack[|stack| - 1];
      assert stack == front + [last];
      WalkConcat(at, front, [last]);
      WalkOne(Walk(at, front), last);
      var w := Walk(at, front);
      assert (w + [last])[..|w|] == w;
    } else if seg != "." {
      WalkConcat(at, stack, [seg]);
      WalkOne(Walk(at, stack), seg);
    }
  }

  lemma PushIsStable(stack: seq<string>, seg: string)
    requires Stable(stack)
    ensures Stable(Push(stack, seg))
  {
  }

  lemma {:induction false} PushAllLeadsThere(at: seq<string>, stack: seq<string>, segs: seq<string>)
    requires Stable(stack)
    ensures Walk(at, PushAll(stack, segs)) == Walk(Walk(at, stack), segs)
    decreases |segs|
  {
    hide Stable, Push, Enter;
    if segs != [] {
      PushIsStable(stack, segs[0]);
      PushLeadsThere(at, stack, segs[0]);
      PushAllLeadsThere(at, Push(stack, segs[0]), segs[1..]);
    }
  }

  /** From any directory, a normalized id leads where the id does, and there is nothing left to cancel in it. */
  lemma NormalLeadsThere(at: seq<string>, id: string)
    ensures Walk(at, Split(Normal(id))) == Walk(at, Split(id))
    ensures Stable(Split(Normal(id))[..|Split(Normal(id))| - 1])
  {
    var segs := Split(id);
    var front, last := segs[..|segs| - 1], segs[|segs| - 1];
    var stack := PushAll([], front);
    SplitIsSlashFree(id);
    PushAllIsStable([], front);
    SplitOfJoin(stack + [last]);
    assert segs == front + [last];
    PushAllLeadsThere(at, [], front);
    assert Walk(at, []) == at;
    hide Split, PushAll, Walk, Join;
    WalkConcat(at, stack, [last]);
    WalkConcat(at, front, [last]);
    assert (stack + [last])[..|stack|] == stack;
  }

  // ----- The regular expressions

  datatype Match = NoMatch | Match(start: nat, end: nat)

  /** Whether "/./" stands at `i`. */
  predicate DotAt(r: string, i: nat) {
    i + 3 <= |r| && r[i..i + 3] == "/./"
  }

  /** The leftmost "/./" at or after `i`. */
  function FindDot(r: string, i: nat): (m: Match)
    ensures m.Match? ==> DotAt(r, m.start) && m.end == m.start + 3 && forall j: nat | i <= j < m.start :: !DotAt(r, j)
    ensures m.NoMatch? ==> forall j: nat | j >= i :: !DotAt(r, j)
    decreases |r| - i
  {
    if i >= |r| then NoMatch else if DotAt(r, i) then Match(i, i + 3) else FindDot(r, i + 1)
  }

  /** Where the segment that begins at `i` ends. */
  function SegmentEnd(r: string, i: nat): (k: nat)
    requires i <= |r|
    ensures i <= k <= |r| && '/' !in r[i..k] && (k < |r| ==> r[k] == '/')
    decreases |r| - i
  {
    if i == |r| || r[i] == '/' then i
    else
      var k := SegmentEnd(r, i + 1);
      assert r[i..k] == [r[i]] + r[i + 1..k];
      k
  }

  /** One character, two of which one is no dot, or three and more. */
  predicate RemovablePattern(seg: string) {
    |seg| == 1 || (|seg| == 2 && (seg[1] != '.' || seg[0] != '.')) || |seg| >= 3
  }

  /** Whether a removable segment begins at `i` with "/../" behind it. */
  predicate ParentAt(r: string, i: nat) {
    i <= |r| &&
    var k := SegmentEnd(r, i);
    RemovablePattern(r[i..k]) && k + 4 <= |r| && r[k..k + 4] == "/../"
  }

  /** Whether a slash, a removable segment and "/../" stand at `i`. */
  predicate InnerParentAt(r: string, i: nat) {
    i < |r| && r[i] == '/' && ParentAt(r, i + 1)
  }

  /** The leftmost such place at or after `i`. */
  function FindParent(r: string, i: nat): (m: Match)
    ensures m.Match? ==> InnerParentAt(r, m.start) && m.end == SegmentEnd(r, m.start + 1) + 4
                         && forall j: nat | i <= j < m.start :: !InnerParentAt(r, j)
    ensures m.NoMatch? ==> forall j: nat | i <= j :: !InnerParentAt(r, j)
    decreases |r| - i
  {
    if i >= |r| then NoMatch
    else if InnerParentAt(r, i) then Match(i, SegmentEnd(r, i + 1) + 4)
    else FindParent(r, i + 1)
  }

  lemma RemovableIsPattern(seg: string)
    ensures RemovablePattern(seg) <==> Removable(seg)
  {
  }

  // ----- Each rewriting step keeps the normal form

  /** No "." before the last segment. */
  ghost predicate DotFree(r: string) {
    forall k | 0 <= k < |Split(r)| - 1 :: Split(r)[k] != "."
  }

  lemma DropDot(x: string, y: string)
    ensures Normal(x + "/./" + y) == Normal(x + "/" + y)
  {
    assert x + "/./" + y == x + "/" + ("." + "/" + y);
    SplitAtSlash(x, "." + "/" + y);
    SplitAtSlash(".", y);
    SplitAtSlash(x, y);
    SplitPlain(".");
    assert Split(x + "/./" + y) == Split(x) + ["."] + Split(y);
    NormalIgnores(Split(x), ["."], Split(y), x + "/./" + y, x + "/" + y);
  }

  lemma DropLeadingDot(y: string)
    ensures Split("./" + y) == ["."] + Split(y) && Normal("./" + y) == Normal(y)
  {
    assert "./" + y == "." + "/" + y;
    SplitAtSlash(".", y);
    SplitPlain(".");
    assert Split("./" + y) == [] + ["."] + Split(y);
    assert Split(y) == [] + Split(y);
    NormalIgnores([], ["."], Split(y), "./" + y, y);
  }

  lemma NothingToPush(stack: seq<string>)
    ensures PushAll(stack, []) == stack
  {
  }

  lemma PushAndPop(stack: seq<string>, a: string)
    requires Removable(a) && a != "."
    ensures PushAll(stack, [a, ".."]) == stack
  {
    assert Push(stack, a) == stack + [a];
    assert [a, ".."][1..] == [".."];
    assert Push(stack + [a], "..") == stack;
    assert PushAll(stack + [a], [".."]) == PushAll(stack, []);
  }

  lemma SplitLeadingParent(a: string, y: string)
    requires '/' !in a
    ensures Split(a + "/../" + y) == [a, ".."] + Split(y)
  {
    hide Split;
    assert a + "/../" + y == a + "/" + (".." + "/" + y);
    SplitAtSlash(a, ".." + "/" + y);
    SplitAtSlash("..", y);
    SplitPlain(a);
    SplitPlain("..");
  }

  lemma DropLeadingParent(a: string, y: string)
    requires '/' !in a && Removable(a) && DotFree(a + "/../" + y)
    ensures Normal(a + "/../" + y) == Normal(y) && DotFree(y)
  {
    hide Split, Normal, PushAll;
    SplitLeadingParent(a, y);
    assert Split(a + "/../" + y)[0] != ".";
    PushAndPop([], a);
    assert Split(a + "/../" + y) == [] + [a, ".."] + Split(y);
    assert Split(y) == [] + Split(y);
    NothingToPush([]);
    NormalIgnores([], [a, ".."], Split(y), a + "/../" + y, y);
    forall k | 0 <= k < |Split(y)| - 1 ensures Split(y)[k] != "." {
      assert Split(a + "/../" + y)[k + 2] == Split(y)[k];
    }
  }

  lemma DropParent(x: string, a: string, y: string)
    requires '/' !in a && Removable(a) && DotFree(x + "/" + a + "/../" + y)
    ensures Normal(x + "/" + a + "/../" + y) == Normal(x + "/" + y) && DotFree(x + "/" + y)
  {
    hide Split, Normal, PushAll;
    var r := x + "/" + a + "/../" + y;
    assert r == x + "/" + (a + "/../" + y);
    SplitAtSlash(x, a + "/../" + y);
    SplitLeadingParent(a, y);
    SplitAtSlash(x, y);
    assert Split(r) == Split(x) + [a, ".."] + Split(y);
    assert Split(r)[|Split(x)|] == a;
    PushAndPop(PushAll([], Split(x)), a);
    NormalIgnores(Split(x), [a, ".."], Split(y), r, x + "/" + y);
    forall k | 0 <= k < |Split(x + "/" + y)| - 1 ensures Split(x + "/" + y)[k] != "." {
      assert Split(x + "/" + y)[k] == Split(r)[if k < |Split(x)| then k else k + 2];
    }
  }

  // ----- When no pattern matches any more

  lemma SplitAround(r: string, k: nat, n: nat)
    requires 1 <= k && k + n < |Split(r)| && n >= 1
    ensures r == Join(Split(r)[..k]) + "/" + Join(Split(r)[k..k + n]) + "/" + Join(Split(r)[k + n..])
  {
    var segs := Split(r);
    JoinOfSplit(r);
    hide Split, Join;
    assert segs == segs[..k] + segs[k..];
    assert segs[k..] == segs[k..k + n] + segs[k + n..];
    JoinOfConcat(segs[..k], segs[k..]);
    JoinOfConcat(segs[k..k + n], segs[k + n..]);
  }

  lemma DotStandsAt(x: string, y: string)
    ensures DotAt(x + "/" + "." + "/" + y, |x|)
  {
    var r := x + "/" + "." + "/" + y;
    assert r[|x|] == '/' && r[|x| + 1] == '.' && r[|x| + 2] == '/';
    assert r[|x|..|x| + 3] == [r[|x|], r[|x| + 1], r[|x| + 2]];
  }

  lemma NoDotLeft(r: string)
    requires forall i: nat :: !DotAt(r, i)
    ensures forall k | 1 <= k < |Split(r)| - 1 :: Split(r)[k] != "."
  {
    hide Split, DotAt;
    var segs := Split(r);
    forall k | 1 <= k < |segs| - 1 ensures segs[k] != "." {
      if segs[k] == "." {
        SplitAround(r, k, 1);
        assert segs[k..k + 1] == ["."];
        assert Join(["."]) == ".";
        DotStandsAt(Join(segs[..k]), Join(segs[k + 1..]));
      }
    }
  }

  /** A segment ends where a slash follows it. */
  lemma {:induction false} SegmentEndsAt(x: string, a: string, y: string)
    requires '/' !in a
    ensures SegmentEnd(x + a + "/" + y, |x|) == |x| + |a|
    decreases |a|
  {
    var r := x + a + "/" + y;
    if a != "" {
      assert r[|x|] == a[0];
      assert r == (x + [a[0]]) + a[1..] + "/" + y;
      SegmentEndsAt(x + [a[0]], a[1..], y);
    }
  }

  lemma ParentStandsAt(x: string, a: string, y: string)
    requires '/' !in a && Removable(a)
    ensures ParentAt(x + a + "/../" + y, |x|)
  {
    var r := x + a + "/../" + y;
    assert r == x + a + "/" + ("../" + y);
    SegmentEndsAt(x, a, "../" + y);
    assert r[|x|..|x| + |a|] == a;
    assert r[|x| + |a|..|x| + |a| + 4] == "/../";
    RemovableIsPattern(a);
  }

  /** No ".." behind a removable segment, leaving out the first and the last segment. */
  ghost predicate NoInnerParent(r: string) {
    forall k | 2 <= k < |Split(r)| - 1 && Split(r)[k] == ".." :: !Removable(Split(r)[k - 1])
  }

  lemma NoParentLeft(r: string)
    requires forall j: nat :: !InnerParentAt(r, j)
    ensures NoInnerParent(r)
  {
    hide Split, Join, ParentAt;
    var segs := Split(r);
    SplitIsSlashFree(r);
    forall k | 2 <= k < |segs| - 1 && segs[k] == ".." ensures !Removable(segs[k - 1]) {
      if Removable(segs[k - 1]) {
        ParentIsThere(r, k);
      }
    }
  }

  lemma ParentIsThere(r: string, k: nat)
    requires 2 <= k < |Split(r)| - 1 && Split(r)[k] == ".." && Removable(Split(r)[k - 1])
    requires '/' !in Split(r)[k - 1]
    ensures exists j: nat :: InnerParentAt(r, j)
  {
    hide Split, ParentAt;
    var segs := Split(r);
    var x, a, y := Join(segs[..k - 1]), segs[k - 1], Join(segs[k + 1..]);
    SplitAround(r, k - 1, 2);
    assert segs[k - 1..k + 1] == [a, ".."];
    assert Join([a, ".."]) == a + "/" + "..";
    assert r == (x + "/") + a + "/../" + y;
    ParentStandsAt(x + "/", a, y);
    assert r[|x|] == '/';
    assert InnerParentAt(r, |x|);
  }

  lemma NoLeadingParentLeft(r: string)
    requires !ParentAt(r, 0) && |Split(r)| > 2 && Split(r)[1] == ".."
    ensures !Removable(Split(r)[0])
  {
    var segs := Split(r);
    SplitIsSlashFree(r);
    if Removable(segs[0]) {
      SplitAround(r, 1, 1);
      assert segs[..1] == [segs[0]] && segs[1..2] == [".."];
      assert r == "" + segs[0] + "/../" + Join(segs[2..]);
      ParentStandsAt("", segs[0], Join(segs[2..]));
    }
  }

  lemma NothingLeft(r: string)
    requires DotFree(r) && !ParentAt(r, 0)
    requires NoInnerParent(r)
    ensures Normal(r) == r
  {
    var front := Split(r)[..|Split(r)| - 1];
    if |Split(r)| > 2 && Split(r)[1] == ".." {
      NoLeadingParentLeft(r);
    }
    assert Stable(front);
    StableIsNormal(r);
  }

  // ----- The function itself

  /** Rewrites one pattern after the other until none is left, dots first. */
  method NormalizeModuleId(moduleId: string) returns (r: string)
    ensures r == Normal(moduleId)
    ensures forall at :: Walk(at, Split(r)) == Walk(at, Split(moduleId))
  {
    hide Split, Walk, Normal, FindDot, FindParent, SegmentEnd;
    r := moduleId;
    // dot segments after the first
    var m := FindDot(r, 0);
    while m.Match?
      invariant m == FindDot(r, 0) && Normal(r) == Normal(moduleId)
      decreases |r|
    {
      assert r == r[..m.start] + "/./" + r[m.end..];
      DropDot(r[..m.start], r[m.end..]);
      r := r[..m.start] + "/" + r[m.end..];
      m := FindDot(r, 0);
    }
    // a dot in front
    LeadingDot(r);
    if |r| >= 2 && r[..2] == "./" {
      r := r[2..];
    }
    // segments cancelled by the one behind them, after the first
    m := FindParent(r, 0);
    while m.Match?
      invariant m == FindParent(r, 0) && Normal(r) == Normal(moduleId) && DotFree(r)
      decreases |r|
    {
      RewriteParent(r, m);
      r := r[..m.start] + "/" + r[m.end..];
      m := FindParent(r, 0);
    }
    // a cancelled one in front
    LeadingParent(r);
    if ParentAt(r, 0) {
      r := r[SegmentEnd(r, 0) + 4..];
    }
    forall at ensures Walk(at, Split(r)) == Walk(at, Split(moduleId)) {
      NormalLeadsThere(at, moduleId);
    }
  }

  lemma LeadingDot(r: string)
    requires forall i: nat :: !DotAt(r, i)
    ensures if |r| >= 2 && r[..2] == "./" then DotFree(r[2..]) && Normal(r) == Normal(r[2..]) else DotFree(r)
  {
    hide Split, Normal;
    NoDotLeft(r);
    if |r| >= 2 && r[..2] == "./" {
      assert r == "./" + r[2..];
      DropLeadingDot(r[2..]);
      forall k | 0 <= k < |Split(r[2..])| - 1 ensures Split(r[2..])[k] != "." {
        assert Split(r)[k + 1] == Split(r[2..])[k];
      }
    } else if |Split(r)| > 1 && Split(r)[0] == "." {
      LeadingDotIsPrefix(r);
    }
  }

  lemma RewriteParent(r: string, m: Match)
    requires m.Match? && m == FindParent(r, 0) && DotFree(r)
    ensures var t := r[..m.start] + "/" + r[m.end..];
            |t| < |r| && Normal(r) == Normal(t) && DotFree(t)
  {
    hide Split, Normal, FindParent, SegmentEnd, DotFree;
    var k := SegmentEnd(r, m.start + 1);
    assert r == r[..m.start] + "/" + r[m.start + 1..k] + "/../" + r[m.end..];
    RemovableIsPattern(r[m.start + 1..k]);
    DropParent(r[..m.start], r[m.start + 1..k], r[m.end..]);
  }

  lemma CutAt(r: string, k: nat)
    requires k + 4 <= |r| && r[k..k + 4] == "/../"
    ensures r == r[0..k] + "/../" + r[k + 4..]
  {
    assert r == r[0..k] + r[k..k + 4] + r[k + 4..];
  }

  lemma LeadingParent(r: string)
    requires DotFree(r)
    requires forall j: nat :: !InnerParentAt(r, j)
    ensures Normal(r) == if ParentAt(r, 0) then r[SegmentEnd(r, 0) + 4..] else r
  {
    hide Split, Normal, SegmentEnd, DotFree, NoInnerParent;
    NoParentLeft(r);
    if ParentAt(r, 0) {
      var k := SegmentEnd(r, 0);
      CutAt(r, k);
      RemovableIsPattern(r[0..k]);
      LeadingParentGone(r[0..k], r[k + 4..]);
    } else {
      NothingLeft(r);
    }
  }

  /** The last step is needed once only: it uncovers no further pattern. */
  lemma LeadingParentGone(a: string, y: string)
    requires '/' !in a && Removable(a) && DotFree(a + "/../" + y)
    requires NoInnerParent(a + "/../" + y)
    ensures Normal(a + "/../" + y) == y == Normal(y)
  {
    hide Split, Normal;
    var segs := Split(a + "/../" + y);
    SplitLeadingParent(a, y);
    DropLeadingParent(a, y);
    var front := Split(y)[..|Split(y)| - 1];
    forall k | 0 < k < |front| && front[k] == ".." ensures !Removable(front[k - 1]) {
      assert segs[k + 2] == ".." && segs[k + 1] == front[k - 1];
    }
    StableIsNormal(y);
  }

  lemma LeadingDotIsPrefix(r: string)
    requires |Split(r)| > 1 && Split(r)[0] == "."
    ensures |r| >= 2 && r[..2] == "./"
  {
    JoinOfSplit(r);
  }
}
