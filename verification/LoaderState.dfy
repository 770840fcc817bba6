/**
 The state of the AMD module manager as a value, the invariant that holds between any two of
 its updates, and what the invariant means for whole runs.
 */
module LoaderState {
  import opened Common
  import opened Graphs

  type Id = nat

  const EXPORTS_ID: Id := 0
  const MODULE_ID: Id := 1
  const REQUIRE_ID: Id := 2

  /** A normalized dependency: one of the three special keys, or another module. */
  datatype Dep = Exports | ModuleRef | Require | Regular(target: Id) {
    function Id(): Id {
      match this
      case Exports => EXPORTS_ID
      case ModuleRef => MODULE_ID
      case Require => REQUIRE_ID
      case Regular(t) => t
    }
  }

  function DepIds(deps: seq<Dep>): (ids: seq<Id>)
    ensures |ids| == |deps|
    ensures forall i | 0 <= i < |deps| :: ids[i] == deps[i].Id()
  {
    seq(|deps|, i requires 0 <= i < |deps| => deps[i].Id())
  }

  /** One call of `define`, or of `require` when it brings an error handler. */
  datatype Definition = Definition(id: Id, deps: seq<Dep>, handler: bool)

  /**
   One module. `deps` is what the module declared, `held` whether its dependency list is still
   there (a completed module drops it), `unresolved` the counter of unresolved dependencies.
   */
  datatype Mod = Mod(deps: seq<Dep>, held: bool, unresolved: int, done: bool, error: Option<Id>, handler: bool)

  /**
   The manager. The components from `runs` on are history: the order in which factories ran, the
   dependencies given up to break a cycle, how many dependencies of each module have been
   examined, the entries fetched from inverse-dependency lists and not yet resolved, the
   modules whose examination is over, the scripts that cannot be loaded in this run, the calls that
   can be made in it, and the modules that took over an error while somebody who had none waited for
   them.
   */
  datatype State = State(
    maxId: nat,
    modules: map<Id, Mod>,
    known: set<Id>,
    inverse: Graph,
    cycleFound: bool,
    runs: seq<Id>,
    skipped: set<(Id, nat)>,
    examined: map<Id, nat>,
    draining: multiset<Id>,
    settled: set<Id>,
    failing: set<Id>,
    origins: set<Definition>,
    silent: set<Id>)

  /** What every module declared to depend on, by id. */
  ghost function Declared(s: State): Graph {
    map m | m in s.modules :: DepIds(s.modules[m].deps)
  }

  /** The part of the declared graph that is still stored. */
  ghost function Held(s: State): Graph {
    map m | m in s.modules && s.modules[m].held :: DepIds(s.modules[m].deps)
  }

  // ----- Occurrences in the inverse-dependency lists

  ghost function Occurrences(inverse: Graph, n: nat, m: Id): nat {
    if n == 0 then 0
    else Occurrences(inverse, n - 1, m) + if n - 1 in inverse then multiset(inverse[n - 1])[m] else 0
  }

  lemma {:induction false} OccurrencesAfterPush(inverse: Graph, n: nat, d: Id, x: Id, m: Id)
    ensures Occurrences(AddEdge(inverse, d, x), n, m)
         == Occurrences(inverse, n, m) + if d < n && m == x then 1 else 0
  {
    if n > 0 {
      OccurrencesAfterPush(inverse, n - 1, d, x, m);
    }
  }

  lemma {:induction false} OccurrencesAfterFetch(inverse: Graph, n: nat, d: Id, m: Id)
    ensures Occurrences(inverse, n, m)
         == Occurrences(inverse - {d}, n, m) + if d < n && d in inverse then multiset(inverse[d])[m] else 0
  {
    if n > 0 {
      OccurrencesAfterFetch(inverse, n - 1, d, m);
    }
  }

  lemma {:induction false} OccurrencesBelowBound(inverse: Graph, n: nat, n': nat, m: Id)
    requires n <= n' && forall d | d in inverse :: d < n
    ensures Occurrences(inverse, n', m) == Occurrences(inverse, n, m)
    decreases n'
  {
    if n < n' {
      OccurrencesBelowBound(inverse, n, n' - 1, m);
    }
  }

  lemma {:induction false} ListedMeansOccurs(inverse: Graph, n: nat, d: Id, m: Id)
    requires d < n && Edge(inverse, d, m)
    ensures Occurrences(inverse, n, m) > 0
  {
    if d < n - 1 {
      ListedMeansOccurs(inverse, n - 1, d, m);
    }
  }

  lemma {:induction false} OccursMeansListed(inverse: Graph, n: nat, m: Id) returns (d: Id)
    requires Occurrences(inverse, n, m) > 0
    ensures d < n && Edge(inverse, d, m)
  {
    if n - 1 in inverse && m in multiset(inverse[n - 1]) {
      d := n - 1;
    } else {
      d := OccursMeansListed(inverse, n - 1, m);
    }
  }

  // ----- The invariant

  ghost predicate Shape(s: State) {
    && s.examined.Keys == s.modules.Keys
    && s.settled <= s.modules.Keys
    && Distinct(s.runs)
    && (forall d | d in s.inverse :: d < s.maxId)
    && (forall m | m in s.draining :: m in s.modules)
    && (forall m | m in s.runs :: m in s.modules)
  }

  /** A factory runs for a module that then is complete and has dropped its dependencies. */
  ghost predicate ModuleOk(s: State, m: Id)
    requires m in s.modules && m in s.examined
  {
    var x := s.modules[m];
    && m < s.maxId && (forall i | 0 <= i < |x.deps| :: x.deps[i].Id() < s.maxId)
    && s.examined[m] <= |x.deps|
    && (x.held <==> m !in s.runs)
    && (m in s.runs ==> x.done && x.unresolved == 0 && s.examined[m] == |x.deps|)
    && (x.done && x.error.None? ==> m in s.runs)
    && (x.error.Some? ==> x.done && x.error.value in s.failing)
    && (x.error.Some? && x.error.value != m ==> m !in s.runs)
  }

  ghost predicate Modules(s: State)
    requires s.examined.Keys == s.modules.Keys
  {
    forall m {:trigger ModuleOk(s, m)} | m in s.modules :: ModuleOk(s, m)
  }

  /** The counter is what is still to be examined plus the recorded waits, fetched or not. */
  ghost predicate Balanced(s: State, m: Id)
    requires m in s.modules && m in s.examined
  {
    s.modules[m].unresolved
      == |s.modules[m].deps| - s.examined[m] + Occurrences(s.inverse, s.maxId, m) + s.draining[m]
  }

  ghost predicate Counts(s: State)
    requires s.examined.Keys == s.modules.Keys
  {
    forall m {:trigger Balanced(s, m)} | m in s.modules :: Balanced(s, m)
  }

  ghost predicate IsExaminedDep(s: State, m: Id, d: Id) {
    m in s.modules && m in s.examined
    && exists i :: 0 <= i < s.examined[m] <= |s.modules[m].deps| && s.modules[m].deps[i] == Regular(d)
  }

  /** Whoever is recorded as waiting has examined that dependency and still holds its list. */
  ghost predicate Waits(s: State) {
    && (forall d, m | Edge(s.inverse, d, m) :: m in s.modules && s.modules[m].held && IsExaminedDep(s, m, d))
    && (forall d | d in s.inverse :: d !in s.runs)
  }

  ghost predicate Settled(s: State, m: Id, i: nat)
    requires m in s.modules && i < |s.modules[m].deps|
  {
    match s.modules[m].deps[i]
    case Regular(d) => (m, i) in s.skipped || d in s.runs || Edge(s.inverse, d, m)
    case _ => true
  }

  /** Every examined dependency is special, given up, provided, or waited for. */
  ghost predicate Accounted(s: State) {
    forall m, i: nat {:trigger Settled(s, m, i)} |
      m in s.modules && m in s.examined && i < s.examined[m] <= |s.modules[m].deps| ::
      Settled(s, m, i)
  }

  ghost predicate ProvidedBefore(s: State, k: nat, i: nat)
    requires k < |s.runs| && s.runs[k] in s.modules && i < |s.modules[s.runs[k]].deps|
  {
    match s.modules[s.runs[k]].deps[i]
    case Regular(d) => (s.runs[k], i) in s.skipped || d in s.runs[..k]
    case _ => true
  }

  /** Factories ran in dependency order, but for dependencies given up to break a cycle. */
  ghost predicate Ordered(s: State) {
    forall k: nat, i: nat {:trigger ProvidedBefore(s, k, i)} |
      k < |s.runs| && s.runs[k] in s.modules && i < |s.modules[s.runs[k]].deps| ::
      ProvidedBefore(s, k, i)
  }

  ghost predicate OnCycle(s: State, m: Id, i: nat) {
    && m in s.modules && i < |s.modules[m].deps|
    && s.modules[m].deps[i].Regular?
    && ReachesByEdges(Declared(s), s.modules[m].deps[i].target, m)
  }

  /** A dependency is given up only if it leads back to its module. */
  ghost predicate Skips(s: State) {
    && (s.cycleFound <==> s.skipped != {})
    && forall m, i | (m, i) in s.skipped :: OnCycle(s, m, i)
  }

  ghost predicate Core(s: State) {
    && Shape(s) && Modules(s) && Counts(s) && Waits(s) && Acyclic(s.inverse)
    && Accounted(s) && Ordered(s) && Skips(s)
  }

  /** A module whose examination is over and whose counter is zero is complete, but for `except`. */
  ghost predicate PromptAt(s: State, m: Id) {
    m in s.modules && m in s.examined
    && (s.modules[m].done || (s.modules[m].unresolved > 0 && s.examined[m] == |s.modules[m].deps|))
  }

  ghost predicate Prompt(s: State, except: set<Id>) {
    forall m {:trigger PromptAt(s, m)} | m in s.settled && m !in except :: PromptAt(s, m)
  }

  /** Whatever somebody waits for is defined or its script was requested, but for `except`. */
  ghost predicate Requested(s: State, except: set<Id>) {
    forall d, m | Edge(s.inverse, d, m) && d !in except :: d in s.modules || d in s.known
  }

  ghost predicate Inv(s: State) {
    Core(s) && Prompt(s, {}) && Requested(s, {})
  }

  /** No call into the manager is on the stack. */
  ghost predicate Quiescent(s: State) {
    s.settled == s.modules.Keys && s.draining == multiset{}
  }

  // ----- Who is told of an error

  ghost predicate Failed(s: State, m: Id) {
    m in s.modules && s.modules[m].error.Some?
  }

  /** Somebody without an error waits for `d`. */
  ghost predicate Unheard(s: State, d: Id) {
    exists m :: Edge(s.inverse, d, m) && !Failed(s, m)
  }

  /** Whoever waits for a failed module has failed too. */
  ghost predicate Told(s: State) {
    forall d | Failed(s, d) :: !Unheard(s, d)
  }

  /** `d` has failed, and one of its dependencies has. */
  ghost predicate TookOver(s: State, d: Id) {
    Failed(s, d) && exists i :: 0 <= i < |s.modules[d].deps| && s.modules[d].deps[i].Regular?
                                && Failed(s, s.modules[d].deps[i].target)
  }

  /** Only silent modules leave anybody untold, and those have taken over the error of a dependency. */
  ghost predicate Informed(s: State) {
    && (forall d | Failed(s, d) && Unheard(s, d) :: d in s.silent)
    && (forall d | d in s.silent :: TookOver(s, d))
  }

  // ----- What the updates leave alone

  ghost predicate SameModule(a: Mod, b: Mod) {
    && a.deps == b.deps
    && (a.done ==> b.done)
    && (a.error.Some? ==> b.error.Some?)
  }

  /** Modules that are complete although their factory has not run: they were hit by an error first. */
  ghost function Barred(s: State): set<Id> {
    set m | m in s.modules && s.modules[m].done && m !in s.runs
  }

  /**
   From `s` to `t` nothing is undone, no barred module is let in, modules of `s` keep their place in
   their own examination, and modules new in `t` have been examined. Modules in `open` are exempt
   from the last two.
   */
  ghost predicate Advances(s: State, t: State, open: set<Id>) {
    && s.maxId <= t.maxId && s.silent <= t.silent
    && (forall m | m in s.modules :: m in t.modules && SameModule(s.modules[m], t.modules[m]))
    && (forall m | m in s.examined && m !in open :: m in t.examined && t.examined[m] == s.examined[m])
    && s.known <= t.known
    && s.runs <= t.runs && Barred(s) <= Barred(t)
    && s.skipped <= t.skipped
    && s.settled <= t.settled
    && (forall m | m in t.modules && m !in open :: m in t.settled <==> m in s.settled || m !in s.modules)
  }

  /**
   Where a module comes from: from a call that gave it its dependencies, and its handler as long as it
   has not run, or from the failure of its script.
   */
  ghost predicate Rooted(s: State, m: Id) {
    m in s.modules
    && var x := s.modules[m];
    || Definition(m, x.deps, x.handler) in s.origins
    || (m in s.runs && (Definition(m, x.deps, true) in s.origins || Definition(m, x.deps, false) in s.origins))
    || (x.deps == [] && m in s.failing && Failed(s, m))
  }

  /** Handlers stay until their module runs, and modules new in `t` come from somewhere. */
  ghost predicate Traceable(s: State, t: State) {
    && s.origins == t.origins && s.failing == t.failing
    && (forall m | m in s.modules && m in t.modules && m !in t.runs :: t.modules[m].handler == s.modules[m].handler)
    && (forall m {:trigger Rooted(t, m)} | m in t.modules && m !in s.modules :: Rooted(t, m))
  }

  lemma RootedKept(s: State, t: State, open: set<Id>, m: Id)
    requires Advances(s, t, open) && Traceable(s, t) && Rooted(s, m)
    ensures Rooted(t, m)
  {
    hide Barred;
    assert forall x | x in s.runs :: x in t.runs;
  }

  lemma TraceableTransitive(s: State, t: State, u: State, open: set<Id>)
    requires Advances(s, t, open) && Advances(t, u, open) && Traceable(s, t) && Traceable(t, u)
    ensures Traceable(s, u)
  {
    hide Barred;
    assert forall x | x in t.runs :: x in u.runs;
    forall m | m in u.modules && m !in s.modules ensures Rooted(u, m) {
      if m in t.modules {
        assert Rooted(t, m);
        RootedKept(t, u, open, m);
      }
    }
  }

  /** No module is new. */
  lemma NothingNew(s: State, t: State)
    requires t.modules.Keys == s.modules.Keys && s.origins == t.origins && s.failing == t.failing
    requires forall m | m in t.modules && m !in t.runs :: t.modules[m].handler == s.modules[m].handler
    ensures Traceable(s, t)
  {
  }

  /** `t` comes after `s` in a run. Nobody but a silent module leaves others untold on the way. */
  ghost predicate Monotone(s: State, t: State, open: set<Id>) {
    Advances(s, t, open) && Traceable(s, t) && (Informed(s) ==> Informed(t))
  }

  /** Like `Monotone`, at the same depth of the call stack. */
  ghost predicate Later(s: State, t: State, open: set<Id>) {
    Monotone(s, t, open) && t.draining == s.draining
  }

  lemma MonotoneTransitive(s: State, t: State, u: State, open: set<Id>)
    requires Monotone(s, t, open) && Monotone(t, u, open)
    ensures Monotone(s, u, open)
  {
    TraceableTransitive(s, t, u, open);
    hide Informed, Barred, Traceable;
  }

  lemma MonotoneReflexive(s: State, open: set<Id>)
    requires s.examined.Keys == s.modules.Keys
    ensures Monotone(s, s, open)
  {
    NothingNew(s, s);
    hide Informed, Barred, Traceable;
  }

  lemma LaterQuiescent(s: State, t: State)
    requires Later(s, t, {}) && Quiescent(s) && Shape(t)
    ensures Quiescent(t)
  {
    assert t.settled == t.modules.Keys;
  }

  // ----- The empty manager

  function Empty(failing: set<Id>, origins: set<Definition>): State {
    State(3, map[], {}, map[], false, [], {}, map[], multiset{}, {}, failing, origins, {})
  }

  lemma EmptyManager(failing: set<Id>, origins: set<Definition>)
    ensures var s := Empty(failing, origins); Inv(s) && Quiescent(s) && Informed(s)
  {
    var s := Empty(failing, origins);
    forall a ensures !ReachesByEdges(s.inverse, a, a) {
      forall p | PathFromTo(s.inverse, p, a, a) ensures |p| < 2 {
        assert |p| >= 2 ==> Linked(s.inverse, p, 0);
      }
    }
  }
}
