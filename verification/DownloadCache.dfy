/** A cache of downloaded directories that keeps the most recently used ones. */
module DownloadCaches {
  import opened Common

  type Name = string

  const KEEP_LRU: nat := 5
  const STAGING_SUFFIX: string := ".staging"

  // ----- The recency list

  function Position(l: seq<Name>, name: Name): (i: nat)
    ensures i <= |l| && (i < |l| <==> name in l) && (i < |l| ==> l[i] == name)
  {
    if l == [] || l[0] == name then 0 else 1 + Position(l[1..], name)
  }

  function Without(l: seq<Name>, name: Name): seq<Name> {
    var i := Position(l, name);
    if i < |l| then l[..i] + l[i + 1..] else l
  }

  /** A name moves to the front; if the list is then too long its last name goes, provided `evict`. */
  function Touched(l: seq<Name>, name: Name, evict: bool): seq<Name> {
    var t := [name] + Without(l, name);
    if |t| > KEEP_LRU && evict then t[..|t| - 1] else t
  }

  lemma WithoutLength(l: seq<Name>, name: Name)
    ensures |Without(l, name)| == |l| - if name in l then 1 else 0
  {
    hide Position;
  }

  /** Where the names that are left stood before. */
  lemma WithoutAt(l: seq<Name>, name: Name, k: nat)
    requires k < |Without(l, name)|
    ensures Without(l, name)[k] == if k < Position(l, name) then l[k] else l[k + 1]
  {
    hide Position;
  }

  lemma WithoutIsDistinct(l: seq<Name>, name: Name)
    requires Distinct(l)
    ensures Distinct(Without(l, name)) && name !in Without(l, name)
  {
    WithoutLength(l, name);
    var r, i := Without(l, name), Position(l, name);
    hide Without, Position;
    forall j, k | 0 <= j < k < |r| ensures r[j] != r[k] {
      WithoutAt(l, name, j);
      WithoutAt(l, name, k);
    }
    forall k | 0 <= k < |r| ensures r[k] != name {
      WithoutAt(l, name, k);
      assert i < |l| ==> l[i] == name;
    }
  }

  lemma WithoutIsRest(l: seq<Name>, name: Name, x: Name)
    requires x != name
    ensures x in l <==> x in Without(l, name)
  {
    WithoutLength(l, name);
    var r, i := Without(l, name), Position(l, name);
    hide Without, Position;
    if x in l {
      var k :| 0 <= k < |l| && l[k] == x;
      var m := if k < i then k else k - 1;
      assert k != i;
      WithoutAt(l, name, m);
      assert r[m] == x;
    }
    if x in r {
      var k :| 0 <= k < |r| && r[k] == x;
      WithoutAt(l, name, k);
    }
  }

  /** What is left when a name is taken out of a list without repetitions. */
  lemma TakenOut(l: seq<Name>, name: Name)
    requires Distinct(l)
    ensures Distinct(Without(l, name)) && name !in Without(l, name)
    ensures forall x | x != name :: x in l <==> x in Without(l, name)
    ensures |Without(l, name)| == |l| - if name in l then 1 else 0
  {
    hide Without, Distinct;
    WithoutIsDistinct(l, name);
    WithoutLength(l, name);
    forall x | x != name ensures x in l <==> x in Without(l, name) {
      WithoutIsRest(l, name, x);
    }
  }

  /** A touch keeps names distinct, puts its own first, and drops at most the least recent other name. */
  lemma TouchKeepsList(l: seq<Name>, name: Name, evict: bool)
    requires Distinct(l)
    ensures var t := Touched(l, name, evict);
            && Distinct(t) && t != [] && t[0] == name
            && (forall x | x in t :: x == name || x in l)
            && (forall x | x in l && x !in t :: evict && x == Evicted(l, name) && x != name)
  {
    hide Without;
    TakenOut(l, name);
    var u := [name] + Without(l, name);
    assert Distinct(u);
    var t := Touched(l, name, evict);
    forall x | x in l && x !in t ensures evict && x == Evicted(l, name) && x != name {
      assert t[0] == name;
      assert x in u;
      assert u == u[..|u| - 1] + [u[|u| - 1]];
    }
    assert forall x | x in u[..|u| - 1] :: x in u;
  }

  /** The name that a touch finds at the end of a list that has become too long. */
  function Evicted(l: seq<Name>, name: Name): Name {
    var t := [name] + Without(l, name);
    t[|t| - 1]
  }

  lemma WithoutKeepsOrder(l: seq<Name>, name: Name, x: Name, y: Name)
    requires x != name && y != name
    ensures Before(Without(l, name), x, y) <==> Before(l, x, y)
  {
    WithoutLength(l, name);
    var r, i := Without(l, name), Position(l, name);
    hide Without, Position;
    if Before(r, x, y) {
      var j, k :| 0 <= j < k < |r| && r[j] == x && r[k] == y;
      WithoutAt(l, name, j);
      WithoutAt(l, name, k);
      assert l[if j < i then j else j + 1] == x && l[if k < i then k else k + 1] == y;
    }
    if Before(l, x, y) {
      var j, k :| 0 <= j < k < |l| && l[j] == x && l[k] == y;
      assert i < |l| ==> l[i] == name;
      var m, n := if j < i then j else j - 1, if k < i then k else k - 1;
      WithoutAt(l, name, m);
      WithoutAt(l, name, n);
      assert r[m] == x && r[n] == y;
    }
  }

  function Retain(l: seq<Name>, name: Name): (r: seq<Name>)
    ensures forall x :: x in r <==> x in l && x != name
  {
    if l == [] then []
    else
      assert forall x :: x in l <==> x == l[0] || x in l[1..];
      if l[0] == name then Retain(l[1..], name) else [l[0]] + Retain(l[1..], name)
  }

  lemma RestIsDistinct(l: seq<Name>)
    requires Distinct(l) && l != []
    ensures Distinct(l[1..]) && l[0] !in l[1..]
  {
    forall i, j | 0 <= i < j < |l[1..]| ensures l[1..][i] != l[1..][j] {
      assert l[i + 1] != l[j + 1];
    }
  }

  lemma {:induction false} RetainKeepsDistinct(l: seq<Name>, name: Name)
    requires Distinct(l)
    ensures Distinct(Retain(l, name)) && |Retain(l, name)| <= |l|
  {
    if l != [] {
      RestIsDistinct(l);
      RetainKeepsDistinct(l[1..], name);
      var r := Retain(l[1..], name);
      assert l[0] !in r;
    }
  }

  lemma {:induction false} RetainIsWithout(l: seq<Name>, name: Name)
    requires Distinct(l)
    ensures Retain(l, name) == Without(l, name)
  {
    if l != [] {
      RestIsDistinct(l);
      hide Distinct, Without;
      RetainIsWithout(l[1..], name);
      WithoutFirst(l, name);
    }
  }

  lemma WithoutFirst(l: seq<Name>, name: Name)
    requires l != []
    ensures Without(l, name) == if l[0] == name then l[1..] else [l[0]] + Without(l[1..], name)
    ensures name !in l[1..] ==> Without(l[1..], name) == l[1..]
  {
    var i := Position(l[1..], name);
    if l[0] != name && i < |l[1..]| {
      assert l[..i + 1] == [l[0]] + l[1..][..i];
      assert l[i + 2..] == l[1..][i + 1..];
    }
  }

  /** Of two names that remain, one stands before the other exactly if it did so before. */
  lemma RetainKeepsOrder(l: seq<Name>, name: Name, x: Name, y: Name)
    requires Distinct(l) && x != name && y != name
    ensures Before(Retain(l, name), x, y) <==> Before(l, x, y)
  {
    RetainIsWithout(l, name);
    WithoutKeepsOrder(l, name, x, y);
  }

  // ----- Histories

  /** What happens to the list: a use of a name, with the outcome of an eviction if it comes to that, or a deletion. */
  datatype Op = Used(name: Name, evict: bool) | Deleted(name: Name)

  /** The names not deleted since they were last used, the most recent first. */
  function Alive(history: seq<Op>): seq<Name> {
    if history == [] then []
    else
      var rest := Without(Alive(history[..|history| - 1]), history[|history| - 1].name);
      if history[|history| - 1].Used? then [history[|history| - 1].name] + rest else rest
  }

  ghost predicate LastUse(history: seq<Op>, x: Name, i: nat) {
    && i < |history| && history[i].Used? && history[i].name == x
    && forall j | i < j < |history| :: history[j].name != x
  }

  lemma LastUseBefore(history: seq<Op>, x: Name, i: nat)
    requires i + 1 < |history| && history[|history| - 1].name != x
    ensures LastUse(history, x, i) <==> LastUse(history[..|history| - 1], x, i)
  {
    var front := history[..|history| - 1];
    assert forall j | 0 <= j < |front| :: front[j] == history[j];
    if LastUse(front, x, i) {
      assert forall j | i < j < |history| && j != |history| - 1 :: front[j] == history[j];
    }
  }

  lemma {:induction false} AliveIsDistinct(history: seq<Op>)
    ensures Distinct(Alive(history))
    decreases |history|
  {
    hide Without;
    if history != [] {
      AliveIsDistinct(history[..|history| - 1]);
      TakenOut(Alive(history[..|history| - 1]), history[|history| - 1].name);
    }
  }

  /** A name is alive exactly if the last thing that happened to it was a use. */
  lemma {:induction false} AliveExactly(history: seq<Op>, x: Name)
    ensures x in Alive(history) <==> exists i: nat :: LastUse(history, x, i)
    decreases |history|
  {
    hide Without;
    if history != [] {
      var front, last := history[..|history| - 1], history[|history| - 1];
      AliveIsDistinct(front);
      TakenOut(Alive(front), last.name);
      if last.name == x {
        assert last.Used? ==> LastUse(history, x, |front|);
        assert forall i: nat | LastUse(history, x, i) :: i == |front|;
      } else {
        AliveExactly(front, x);
        forall i: nat ensures LastUse(history, x, i) <==> LastUse(front, x, i) {
          if i + 1 < |history| {
            LastUseBefore(history, x, i);
          }
        }
      }
    }
  }

  lemma PrependedOrder(z: Name, l: seq<Name>, x: Name, y: Name)
    requires z !in l && y in l
    ensures Before([z] + l, x, y) <==> x == z || Before(l, x, y)
  {
    var r := [z] + l;
    assert forall k | 0 < k < |r| :: r[k] == l[k - 1];
    if x == z {
      var k :| 0 <= k < |l| && l[k] == y;
      assert r[0] == x && r[k + 1] == y;
    }
    if Before(l, x, y) {
      var j, k :| 0 <= j < k < |l| && l[j] == x && l[k] == y;
      assert r[j + 1] == x && r[k + 1] == y;
    }
    if Before(r, x, y) && x != z {
      var j, k :| 0 <= j < k < |r| && r[j] == x && r[k] == y;
      assert l[j - 1] == x && l[k - 1] == y;
    }
  }

  /** Of two names alive, the one used last comes first. */
  lemma {:induction false} AliveInOrder(history: seq<Op>, x: Name, i: nat, y: Name, j: nat)
    requires LastUse(history, x, i) && LastUse(history, y, j)
    ensures Before(Alive(history), x, y) <==> i > j
    decreases |history|
  {
    hide Without;
    var front, last := history[..|history| - 1], history[|history| - 1];
    AliveIsDistinct(history);
    AliveIsDistinct(front);
    TakenOut(Alive(front), last.name);
    if y == last.name {
      assert Alive(history)[0] == y;
      assert j == |front|;
    } else {
      LastUseBefore(history, y, j);
      AliveExactly(front, y);
      if x == last.name {
        PrependedOrder(x, Without(Alive(front), x), x, y);
      } else {
        LastUseBefore(history, x, i);
        AliveInOrder(front, x, i, y, j);
        WithoutKeepsOrder(Alive(front), last.name, x, y);
        if last.Used? {
          PrependedOrder(last.name, Without(Alive(front), last.name), x, y);
        }
      }
    }
  }

  function First(l: seq<Name>, n: nat): seq<Name> {
    if |l| <= n then l else l[..n]
  }

  /** The list after a history, from an empty one. */
  function ListAfter(history: seq<Op>): seq<Name> {
    if history == [] then []
    else
      match history[|history| - 1]
      case Used(name, evict) => Touched(ListAfter(history[..|history| - 1]), name, evict)
      case Deleted(name) => Retain(ListAfter(history[..|history| - 1]), name)
  }

  lemma {:induction false} PositionInPrefix(l: seq<Name>, n: nat, name: Name)
    requires n <= |l|
    ensures if Position(l, name) < n then Position(l[..n], name) == Position(l, name) else Position(l[..n], name) == n
  {
    if n > 0 && l[0] != name {
      PositionInPrefix(l[1..], n - 1, name);
      assert l[..n][1..] == l[1..][..n - 1];
    }
  }

  /** Among the first names: what remains of them is the first part of what remains of all. */
  lemma RemovedInside(l: seq<Name>, n: nat, name: Name)
    requires n < |l| && Position(l, name) < n
    ensures Without(l[..n], name) == Without(l, name)[..n - 1]
  {
    PositionInPrefix(l, n, name);
    CutInside(l, n, Position(l, name));
  }

  lemma CutInside(l: seq<Name>, n: nat, i: nat)
    requires i < n <= |l|
    ensures l[..n][..i] + l[..n][i + 1..] == (l[..i] + l[i + 1..])[..n - 1]
  {
    var a, b := l[..n][..i] + l[..n][i + 1..], (l[..i] + l[i + 1..])[..n - 1];
    assert |a| == n - 1 == |b|;
    forall k | 0 <= k < n - 1 ensures a[k] == b[k] {
      if k < i {
        assert a[k] == l[k] && b[k] == l[k];
      } else {
        assert a[k] == l[k + 1] && b[k] == l[k + 1];
      }
    }
  }

  /** Behind the first names, or nowhere: they are not affected. */
  lemma RemovedBehind(l: seq<Name>, n: nat, name: Name)
    requires n < |l| && Position(l, name) >= n
    ensures Without(l[..n], name) == l[..n] == Without(l, name)[..n]
  {
    PositionInPrefix(l, n, name);
    var i := Position(l, name);
    if i < |l| {
      CutBehind(l, n, i);
    }
  }

  lemma CutBehind(l: seq<Name>, n: nat, i: nat)
    requires n <= i < |l|
    ensures (l[..i] + l[i + 1..])[..n] == l[..n]
  {
    assert forall k | 0 <= k < n :: (l[..i] + l[i + 1..])[..n][k] == l[k];
  }

  lemma FirstOfFront(name: Name, rest: seq<Name>, n: nat)
    requires 1 <= n <= |rest| + 1
    ensures ([name] + rest)[..n] == [name] + rest[..n - 1]
  {
  }

  lemma FirstOfFirst(rest: seq<Name>, n: nat)
    requires 1 <= n <= |rest|
    ensures rest[..n][..n - 1] == rest[..n - 1]
  {
  }

  lemma TouchFirstInside(l: seq<Name>, name: Name)
    requires |l| > KEEP_LRU && Position(l, name) < KEEP_LRU
    ensures Touched(l[..KEEP_LRU], name, true) == ([name] + Without(l, name))[..KEEP_LRU]
  {
    RemovedInside(l, KEEP_LRU, name);
    WithoutLength(l, name);
    hide Without, Position;
    FirstOfFront(name, Without(l, name), KEEP_LRU);
  }

  lemma TouchFirstBehind(l: seq<Name>, name: Name)
    requires |l| > KEEP_LRU && Position(l, name) >= KEEP_LRU
    ensures Touched(l[..KEEP_LRU], name, true) == ([name] + Without(l, name))[..KEEP_LRU]
  {
    RemovedBehind(l, KEEP_LRU, name);
    WithoutLength(l, name);
    hide Without, Position;
    var rest := Without(l, name);
    FirstOfFront(name, rest, KEEP_LRU);
    FirstOfFront(name, rest[..KEEP_LRU], KEEP_LRU);
    FirstOfFirst(rest, KEEP_LRU);
  }

  /** Touching the first names is the same as taking the first names after the touch. */
  lemma TouchFirst(l: seq<Name>, name: Name)
    ensures Touched(First(l, KEEP_LRU), name, true) == First([name] + Without(l, name), KEEP_LRU)
  {
    WithoutLength(l, name);
    hide Without, Position;
    if |l| > KEEP_LRU {
      hide Touched;
      if Position(l, name) < KEEP_LRU {
        TouchFirstInside(l, name);
      } else {
        TouchFirstBehind(l, name);
      }
    }
  }

  /** While nothing is deleted and evictions succeed, the list is the first five names, the most recent first. */
  lemma {:induction false} ListIsRecent(history: seq<Op>)
    requires forall op | op in history :: op.Used? && op.evict
    ensures ListAfter(history) == First(Alive(history), 5)
    decreases |history|
  {
    if history != [] {
      assert history[|history| - 1] in history;
      assert forall op | op in history[..|history| - 1] :: op in history;
      ListIsRecent(history[..|history| - 1]);
      TouchFirst(Alive(history[..|history| - 1]), history[|history| - 1].name);
    }
  }

  /** What remains of the first names is a first part of what remains of all. */
  lemma PrefixWithout(l: seq<Name>, all: seq<Name>, name: Name)
    requires l <= all
    ensures Without(l, name) <= Without(all, name)
  {
    if |l| < |all| {
      assert l == all[..|l|];
      if Position(all, name) < |l| {
        RemovedInside(all, |l|, name);
      } else {
        RemovedBehind(all, |l|, name);
      }
    } else {
      assert l == all;
    }
  }

  lemma PrefixTouched(l: seq<Name>, all: seq<Name>, name: Name, evict: bool)
    requires l <= all
    ensures Touched(l, name, evict) <= [name] + Without(all, name)
  {
    PrefixWithout(l, all, name);
    hide Without;
  }

  /** Whatever is deleted and whatever evictions fail: the list is a first part of the names alive. */
  lemma {:induction false} ListIsAlive(history: seq<Op>)
    ensures ListAfter(history) <= Alive(history) && Distinct(ListAfter(history))
    decreases |history|
  {
    AliveIsDistinct(history);
    if history != [] {
      var front, last := history[..|history| - 1], history[|history| - 1];
      var l, all := ListAfter(front), Alive(front);
      ListIsAlive(front);
      hide Without, Touched, Retain;
      if last.Deleted? {
        PrefixWithout(l, all, last.name);
        RetainIsWithout(l, last.name);
      } else {
        PrefixTouched(l, all, last.name, last.evict);
      }
      assert ListAfter(history) <= Alive(history);
    }
  }

  /** `x` has been among the first five names ever since its last use at `i`. */
  ghost predicate StayedRecent(history: seq<Op>, x: Name, i: nat) {
    forall k | i < k <= |history| :: x in First(Alive(history[..k]), 5)
  }

  ghost predicate AllEvict(history: seq<Op>) {
    forall op | op in history && op.Used? :: op.evict
  }

  /**
   While evictions succeed: a name is on the list exactly if it has not been deleted since its last
   use and has been among the first five names alive ever since.
   */
  lemma {:induction false} OnListExactly(history: seq<Op>, x: Name)
    requires AllEvict(history)
    ensures x in ListAfter(history) <==> exists i: nat :: LastUse(history, x, i) && StayedRecent(history, x, i)
  {
    hide ListAfter, Alive;
    ListIsAlive(history);
    AliveExactly(history, x);
    forall i: nat | LastUse(history, x, i) ensures x in ListAfter(history) <==> StayedRecent(history, x, i) {
      ListedSince(history, x, i);
    }
  }

  lemma {:induction false} ListedSince(history: seq<Op>, x: Name, i: nat)
    requires AllEvict(history) && LastUse(history, x, i)
    ensures x in ListAfter(history) <==> StayedRecent(history, x, i)
    decreases |history|
  {
    LastUseIsUse(history, x, i);
    hide ListAfter, Alive, StayedRecent, AllEvict, LastUse;
    if i + 1 < |history| {
      EvictBefore(history);
      LastUseBefore(history, x, i);
      ListedSince(history[..|history| - 1], x, i);
      OneMoreMoment(history, x, i);
      StaysListed(history, x);
    } else {
      JustUsed(history);
    }
  }

  lemma LastUseIsUse(history: seq<Op>, x: Name, i: nat)
    requires LastUse(history, x, i)
    ensures i < |history|
    ensures if i + 1 < |history| then history[|history| - 1].name != x
            else history[|history| - 1].Used? && history[|history| - 1].name == x
  {
  }

  lemma EvictBefore(history: seq<Op>)
    requires AllEvict(history) && history != []
    ensures AllEvict(history[..|history| - 1]) && (history[|history| - 1].Used? ==> history[|history| - 1].evict)
  {
    assert history[|history| - 1] in history;
  }

  /** The name just used is first on the list, and was among the first five names ever since. */
  lemma JustUsed(history: seq<Op>)
    requires history != [] && history[|history| - 1].Used?
    ensures ListAfter(history) != [] && ListAfter(history)[0] == history[|history| - 1].name
    ensures StayedRecent(history, history[|history| - 1].name, |history| - 1)
  {
    hide Without;
    assert Alive(history)[0] == history[|history| - 1].name;
    assert history[..|history|] == history;
    hide Alive;
  }

  lemma OneMoreMoment(history: seq<Op>, x: Name, i: nat)
    requires i + 1 < |history|
    ensures StayedRecent(history, x, i) <==>
              StayedRecent(history[..|history| - 1], x, i) && x in First(Alive(history), 5)
  {
    hide Alive, First;
    var front := history[..|history| - 1];
    assert history[..|history|] == history;
    assert forall k | 0 <= k <= |front| :: front[..k] == history[..k];
  }

  lemma FirstOfPart(u: seq<Name>, all: seq<Name>, n: nat, x: Name)
    requires u <= all && Distinct(all)
    ensures x in First(u, n) <==> x in u && x in First(all, n)
  {
    if x in u && x in First(all, n) {
      var i :| 0 <= i < |u| && u[i] == x;
      var j :| 0 <= j < |First(all, n)| && First(all, n)[j] == x;
      assert all[i] == x && all[j] == x;
      assert First(u, n)[i] == x;
    }
    if x in First(u, n) {
      var i :| 0 <= i < |First(u, n)| && First(u, n)[i] == x;
      assert First(all, n)[i] == x && u[i] == x;
    }
  }

  /** The list after `op` if nothing were evicted. */
  function Unevicted(l: seq<Name>, op: Op): seq<Name> {
    if op.Used? then [op.name] + Without(l, op.name) else Without(l, op.name)
  }

  lemma OthersStay(l: seq<Name>, op: Op, x: Name)
    requires Distinct(l) && x != op.name
    ensures x in Unevicted(l, op) <==> x in l
  {
    hide Without;
    TakenOut(l, op.name);
  }

  lemma UnevictedIsAlive(history: seq<Op>)
    requires history != []
    ensures Unevicted(ListAfter(history[..|history| - 1]), history[|history| - 1]) <= Alive(history)
  {
    var front, last := history[..|history| - 1], history[|history| - 1];
    ListIsAlive(front);
    hide ListAfter, Without;
    PrefixWithout(ListAfter(front), Alive(front), last.name);
  }

  lemma ListIsFirstUnevicted(history: seq<Op>)
    requires history != [] && AllEvict(history)
    ensures ListAfter(history) == First(Unevicted(ListAfter(history[..|history| - 1]), history[|history| - 1]), 5)
  {
    var front, last := history[..|history| - 1], history[|history| - 1];
    EvictBefore(history);
    FewEnough(front);
    ListIsAlive(front);
    hide AllEvict, Alive, Retain, Without;
    var l := ListAfter(front);
    WithoutLength(l, last.name);
    if last.Deleted? {
      RetainIsWithout(l, last.name);
    }
  }

  /** A name leaves the list when it is no longer among the first five. */
  lemma StaysListed(history: seq<Op>, x: Name)
    requires history != [] && AllEvict(history) && history[|history| - 1].name != x
    ensures x in ListAfter(history) <==>
              x in ListAfter(history[..|history| - 1]) && x in First(Alive(history), 5)
  {
    hide ListAfter, Alive, AllEvict, Unevicted, First, Distinct;
    var front, last := history[..|history| - 1], history[|history| - 1];
    ListIsAlive(front);
    AliveIsDistinct(history);
    ListIsFirstUnevicted(history);
    UnevictedIsAlive(history);
    OthersStay(ListAfter(front), last, x);
    FirstOfPart(Unevicted(ListAfter(front), last), Alive(history), 5, x);
  }

  lemma FewEnough(history: seq<Op>)
    requires AllEvict(history)
    ensures |ListAfter(history)| <= 5
  {
    LengthIsBounded(history);
    NoFailures(history);
  }

  /** How many uses had to evict a name and could not. */
  function Failures(history: seq<Op>): nat {
    if history == [] then 0
    else
      var front, last := history[..|history| - 1], history[|history| - 1];
      Failures(front)
      + if last.Used? && |Without(ListAfter(front), last.name)| >= KEEP_LRU && !last.evict then 1 else 0
  }

  lemma {:induction false} NoFailures(history: seq<Op>)
    requires AllEvict(history)
    ensures Failures(history) == 0
    decreases |history|
  {
    hide Without;
    if history != [] {
      EvictBefore(history);
      NoFailures(history[..|history| - 1]);
    }
  }

  /** The list grows beyond five names only by failed evictions. */
  lemma {:induction false} LengthIsBounded(history: seq<Op>)
    ensures |ListAfter(history)| <= 5 + Failures(history)
    decreases |history|
  {
    hide Without;
    if history != [] {
      var l, last := ListAfter(history[..|history| - 1]), history[|history| - 1];
      LengthIsBounded(history[..|history| - 1]);
      ListIsAlive(history[..|history| - 1]);
      if last.Used? {
        TakenOut(l, last.name);
      } else {
        RetainKeepsDistinct(l, last.name);
      }
    }
  }

  lemma {:induction false} DistinctFit(q: seq<Name>, names: set<Name>)
    requires Distinct(q) && forall x | x in q :: x in names
    ensures |q| <= |names|
    decreases |q|
  {
    if q != [] {
      RestIsDistinct(q);
      DistinctFit(q[1..], names - {q[0]});
    }
  }

  /** With five names or fewer nothing is ever evicted: the list holds every name alive. */
  lemma {:induction false} FiveEvictNothing(history: seq<Op>, names: set<Name>)
    requires |names| <= 5 && forall op | op in history :: op.name in names
    ensures ListAfter(history) == Alive(history) && forall x | x in Alive(history) :: x in names
    decreases |history|
  {
    if history != [] {
      var front, last := history[..|history| - 1], history[|history| - 1];
      assert last in history && forall op | op in front :: op in history;
      FiveEvictNothing(front, names);
      AliveIsDistinct(front);
      TakenOut(Alive(front), last.name);
      RetainIsWithout(Alive(front), last.name);
      hide Without, Retain;
      DistinctFit([last.name] + Without(Alive(front), last.name), names);
    }
  }

  // ----- Persisted state

  /** A state file as the next reader finds it. */
  datatype File<+T> = Missing | Corrupt | Holds(value: T)

  /** How writing a file ends: done, not opened, or opened and cut off. */
  datatype WriteOutcome = Written | NotOpened | CutOff

  class PersistedState<T> {
    const default: T
    var state: Option<T>
    var file: File<T>

    constructor (default: T, file: File<T>)
      ensures this.default == default && this.file == file && state == None
    {
      this.default := default;
      this.file := file;
      this.state := None;
    }

    /** The value that a load returns. */
    function Current(): T
      reads this
    {
      if state.Some? then state.value else if file.Holds? then file.value else default
    }

    method LoadOrGet() returns (value: T)
      modifies this`state
      ensures value == Current() == old(Current()) && state == Some(value)
    {
      if state.Some? {
        return state.value;
      }
      value := if file.Holds? then file.value else default;
      state := Some(value);
    }

    /** The value is current even if it could not be written. */
    method Save(value: T, outcome: WriteOutcome) returns (ok: bool)
      modifies this
      ensures Current() == value && (ok <==> outcome == Written)
      ensures file == match outcome
                      case Written => Holds(value)
                      case NotOpened => old(file)
                      case CutOff => Corrupt
    {
      state := Some(value);
      match outcome {
        case Written => file := Holds(value);
        case NotOpened =>
        case CutOff => file := Corrupt;
      }
      ok := outcome == Written;
    }
  }

  /** After a restart the file is all there is: its value, or the default if it cannot be read. */
  method Restart<T>(before: PersistedState<T>) returns (after: PersistedState<T>)
    ensures fresh(after) && after.file == before.file
    ensures before.file.Holds? ==> after.Current() == before.file.value
    ensures !before.file.Holds? ==> after.Current() == before.default
  {
    after := new PersistedState(before.default, before.file);
  }

  // ----- The cache

  predicate IsStaging(name: Name) {
    |name| >= |STAGING_SUFFIX| && name[|name| - |STAGING_SUFFIX|..] == STAGING_SUFFIX
  }

  function StagingOf(name: Name): (s: Name)
    ensures IsStaging(s)
  {
    name + STAGING_SUFFIX
  }

  /** Every directory but those for staging is on the list, so that it can be evicted some day. */
  ghost predicate Tracked(l: seq<Name>, dirs: set<Name>) {
    forall d | d in dirs :: d in l || IsStaging(d)
  }

  /** A touch keeps directories on the list: only the name it evicts leaves, with its directory. */
  lemma TouchKeepsTracked(l: seq<Name>, dirs: set<Name>, name: Name, evict: bool)
    requires Distinct(l) && Tracked(l, dirs)
    ensures var t := Touched(l, name, evict);
            var evicted := |Without(l, name)| >= KEEP_LRU && evict;
            && Distinct(t) && name in t && Tracked(t, if evicted then dirs - {Evicted(l, name)} else dirs)
            && (evicted ==> Evicted(l, name) != name)
  {
    hide Without;
    TouchKeepsList(l, name, evict);
    TakenOut(l, name);
    var w := Without(l, name);
    if w != [] {
      assert w[|w| - 1] in w;
    }
    var t := Touched(l, name, evict);
    assert t[0] == name;
    if !(|w| >= KEEP_LRU && evict) {
      assert forall x | x in l :: x in [name] + w;
    }
  }

  /** Directories for staging come and go without being listed. */
  lemma StagingIsFree(l: seq<Name>, dirs: set<Name>, temp: Name)
    requires Tracked(l, dirs) && IsStaging(temp)
    ensures Tracked(l, dirs - {temp}) && Tracked(l, dirs + {temp}) && Tracked(l, dirs - {temp} + {temp})
  {
  }

  /** What the file system does during one operation. */
  datatype Disk = Disk(
    removable: bool,         // whether a directory that is evicted or deleted can be removed
    cleared: bool,           // whether a staging directory that was left over can be removed
    saved: WriteOutcome,     // how writing the list ends
    stagingMade: bool,       // whether the staging directory can be made
    created: bool,           // whether its contents can be created
    failedRenames: nat)      // how many attempts to rename it fail

  const RENAME_ATTEMPTS: nat := 20

  class DownloadCache {
    const state: PersistedState<seq<Name>>
    var dirs: set<Name>

    ghost predicate Valid()
      reads this, state
    {
      Distinct(state.Current()) && Tracked(state.Current(), dirs)
    }

    constructor (state: PersistedState<seq<Name>>, dirs: set<Name>)
      ensures this.state == state && this.dirs == dirs
    {
      this.state := state;
      this.dirs := dirs;
    }

    /** The file says what is current. */
    predicate InSync()
      reads this, state
    {
      state.state.None? || state.file == Holds(state.Current())
    }

    /** Whether a touch that makes the list too long gets rid of its last name. */
    predicate CanEvict(name: Name, removable: bool)
      reads this, state
    {
      Evicted(state.Current(), name) !in dirs || removable
    }

    method Touch(name: Name, disk: Disk) returns (ok: bool)
      requires Valid()
      modifies this`dirs, state
      ensures state.Current() == Touched(old(state.Current()), name, old(CanEvict(name, disk.removable)))
      ensures dirs == if |Without(old(state.Current()), name)| >= KEEP_LRU && old(CanEvict(name, disk.removable))
                      then old(dirs) - {Evicted(old(state.Current()), name)} else old(dirs)
      ensures Valid() && name in state.Current() && (name in dirs <==> name in old(dirs))
      ensures (ok <==> disk.saved == Written) && (ok ==> InSync())
    {
      hide Distinct, Tracked;
      var l := state.LoadOrGet();
      TouchKeepsTracked(l, dirs, name, CanEvict(name, disk.removable));
      var index := Position(l, name);
      if index < |l| {
        l := l[..index] + l[index + 1..];
      }
      assert l == Without(old(state.Current()), name);
      hide Without;
      l := [name] + l;
      if |l| > KEEP_LRU {
        var f := l[|l| - 1];
        if f !in dirs || disk.removable {
          dirs := dirs - {f};
          l := l[..|l| - 1];
        }
      }
      ok := state.Save(l, disk.saved);
    }

    /** Whether a name is cached; if so it counts as used. */
    method Exists(name: Name, disk: Disk) returns (found: bool)
      requires Valid()
      modifies this`dirs, state
      ensures Valid() && (found <==> name in old(dirs)) && (found ==> name in dirs)
      ensures state.Current() == if found then Touched(old(state.Current()), name, old(CanEvict(name, disk.removable)))
                                 else old(state.Current())
      ensures !found ==> dirs == old(dirs)
    {
      if name !in dirs {
        return false;
      }
      var _ := Touch(name, disk);
      return true;
    }

    /** Removes a directory and its name; if the directory cannot be removed nothing changes. */
    method Delete(name: Name, disk: Disk) returns (ok: bool)
      requires Valid()
      modifies this`dirs, state
      ensures Valid()
      ensures name in old(dirs) && !disk.removable ==>
                !ok && dirs == old(dirs) && state.Current() == old(state.Current())
      ensures name !in old(dirs) || disk.removable ==>
                dirs == old(dirs) - {name} && state.Current() == Retain(old(state.Current()), name)
                && name !in state.Current() && (ok <==> disk.saved == Written) && (ok ==> InSync())
      ensures forall x, y | x in state.Current() && y in state.Current() ::
                Before(state.Current(), x, y) <==> Before(old(state.Current()), x, y)
    {
      if name in dirs {
        if !disk.removable {
          return false;
        }
        dirs := dirs - {name};
      }
      var l := state.LoadOrGet();
      RetainKeepsDistinct(l, name);
      forall x, y | x in Retain(l, name) && y in Retain(l, name)
        ensures Before(Retain(l, name), x, y) <==> Before(l, x, y)
      {
        RetainKeepsOrder(l, name, x, y);
      }
      hide Distinct, Before;
      ok := state.Save(Retain(l, name), disk.saved);
    }

    /** Makes a directory by way of a staging directory, unless it is there already. */
    method Create(name: Name, disk: Disk) returns (ok: bool)
      requires Valid()
      modifies this`dirs, state
      ensures Valid()
      ensures ok ==> name in dirs && (name in old(dirs) || name in state.Current())
      ensures name in old(dirs) ==> ok && dirs == old(dirs) && state.Current() == old(state.Current())
      ensures name !in old(dirs) && disk.stagingMade && disk.created ==>
                state.Current()
                == Touched(old(state.Current()), name, CanEvictDuring(old(dirs), old(state.Current()), name, disk))
      ensures name !in old(dirs) && !(disk.stagingMade && disk.created) ==>
                !ok && state.Current() == old(state.Current())
      ensures ok && name !in old(dirs) ==> disk.failedRenames <= 20
      ensures (disk.stagingMade && disk.created && disk.failedRenames <= 20
               && Evicted(old(state.Current()), name) != StagingOf(name)) ==> ok
      ensures old(dirs) - {StagingOf(name), Evicted(old(state.Current()), name)} <= dirs
      ensures dirs <= old(dirs) + {name, StagingOf(name)}
    {
      hide Touched, Without, Evicted, Distinct, Tracked;
      if name in dirs {
        return true;
      }
      var temp := StagingOf(name);
      assert |temp| > |name|;
      StagingIsFree(state.Current(), dirs, temp);
      if disk.cleared {
        dirs := dirs - {temp};
      }
      if !disk.stagingMade {
        return false;
      }
      dirs := dirs + {temp};
      if !disk.created {
        return false;
      }
      var _ := Touch(name, disk);
      ok := Rename(temp, name, disk.failedRenames);
    }

    /** Tries to rename a staging directory, again and again while that fails. */
    method Rename(temp: Name, name: Name, failures: nat) returns (ok: bool)
      requires Valid() && name in state.Current() && name != temp
      modifies this`dirs
      ensures Valid() && (ok <==> temp in old(dirs) && failures <= 20)
      ensures dirs == if ok then old(dirs) - {temp} + {name} else old(dirs)
    {
      for attempt := 0 to RENAME_ATTEMPTS + 1
        invariant dirs == old(dirs) && (attempt <= failures || temp !in dirs)
      {
        if attempt >= failures && temp in dirs {
          dirs := dirs - {temp} + {name};
          return true;
        }
      }
      return false;
    }
  }

  /** Like `CanEvict`, at the time when the staging directory has been made. */
  predicate CanEvictDuring(dirs: set<Name>, l: seq<Name>, name: Name, disk: Disk) {
    Evicted(l, name) !in dirs + {StagingOf(name)} || disk.removable
  }

  /**
   A new process opens the cache. It is valid exactly if the list in the file tracks the directories
   on disk: always if the list was written last, and after a file was lost or cut off only if there
   are no directories but those for staging.
   */
  method Reopen(cache: DownloadCache) returns (again: DownloadCache)
    ensures fresh(again) && fresh(again.state) && again.dirs == cache.dirs
    ensures var file, default := cache.state.file, cache.state.default;
            again.state.Current() == if file.Holds? then file.value else default
    ensures cache.InSync() ==> (again.Valid() <==> cache.Valid())
    ensures !cache.state.file.Holds? && cache.state.default == [] ==>
              (again.Valid() <==> forall d | d in cache.dirs :: IsStaging(d))
  {
    var state := Restart(cache.state);
    again := new DownloadCache(state, cache.dirs);
  }
}
