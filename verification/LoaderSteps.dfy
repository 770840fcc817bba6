/** The single updates of the module manager, and that each of them keeps the invariant. */
module LoaderSteps {
  import opened Common
  import opened Graphs
  import opened LoaderState

  // ----- Updates

  /** A new module, none of its dependencies examined. */
  function Define(s: State, id: Id, deps: seq<Dep>, handler: bool): State {
    s.(modules := s.modules[id := Mod(deps, true, |deps|, false, None, handler)],
       examined := s.examined[id := 0])
  }

  function Decrement(s: State, m: Id): State
    requires m in s.modules
  {
    s.(modules := s.modules[m := s.modules[m].(unresolved := s.modules[m].unresolved - 1)])
  }

  /** The next dependency of `m` needs no waiting. */
  function Pass(s: State, m: Id): State
    requires m in s.modules && m in s.examined
  {
    Decrement(s, m).(examined := s.examined[m := s.examined[m] + 1])
  }

  /** The next dependency of `m` is given up. */
  function Skip(s: State, m: Id): State
    requires m in s.modules && m in s.examined
  {
    Pass(s, m).(cycleFound := true, skipped := s.skipped + {(m, s.examined[m])})
  }

  /** The next dependency of `m`, on `d`, is recorded as awaited. */
  function Wait(s: State, m: Id, d: Id): State
    requires m in s.modules && m in s.examined
  {
    s.(inverse := AddEdge(s.inverse, d, m), examined := s.examined[m := s.examined[m] + 1])
  }

  function Request(s: State, id: Id): State {
    s.(known := s.known + {id})
  }

  function Settle(s: State, m: Id): State {
    s.(settled := s.settled + {m})
  }

  /** A dependency error reaches `m`. */
  function Fail(s: State, m: Id, err: Id): State
    requires m in s.modules
  {
    s.(modules := s.modules[m := s.modules[m].(done := true, error := Some(err))])
  }

  /** On examination, `m` takes over the error of a dependency; those waiting for `m` are not told. */
  ghost function TakeOver(s: State, m: Id, err: Id): State
    requires m in s.modules
  {
    Fail(s, m, err).(silent := if Unheard(s, m) then s.silent + {m} else s.silent)
  }

  /** The factory of `m` runs; the list of those waiting for `m` is fetched and cleared. */
  function Complete(s: State, m: Id): State
    requires m in s.modules
  {
    s.(modules := s.modules[m := s.modules[m].(done := true, held := false, handler := false)],
       runs := s.runs + [m],
       inverse := s.inverse - {m},
       draining := s.draining + multiset(if m in s.inverse then s.inverse[m] else []))
  }

  /** One fetched entry, for `y`, is resolved. */
  function Drain(s: State, y: Id): State
    requires y in s.modules
  {
    Decrement(s, y).(draining := s.draining - multiset{y})
  }

  // ----- What carries over from one state to the next

  /** Modules, progress, history and given-up dependencies of `s` are all still in `t`. */
  ghost predicate Carried(s: State, t: State) {
    && s.examined.Keys == s.modules.Keys && t.examined.Keys == t.modules.Keys
    && (forall m | m in s.modules ::
          m in t.modules && t.modules[m].deps == s.modules[m].deps && s.examined[m] <= t.examined[m])
    && s.runs <= t.runs
    && s.skipped <= t.skipped
  }

  lemma SkipsKept(s: State, t: State)
    requires Carried(s, t) && Skips(s) && t.skipped == s.skipped && t.cycleFound == s.cycleFound
    ensures Skips(t)
  {
    forall m, i | (m, i) in t.skipped ensures OnCycle(t, m, i) {
      assert OnCycle(s, m, i);
      OnCycleKept(s, t, m, i);
    }
  }

  lemma OnCycleKept(s: State, t: State, m: Id, i: nat)
    requires Carried(s, t) && OnCycle(s, m, i)
    ensures OnCycle(t, m, i)
  {
    ReachInExtension(Declared(s), Declared(t), s.modules[m].deps[i].target, m);
  }

  lemma WaitKept(s: State, t: State, d: Id, m: Id)
    requires Carried(s, t) && IsExaminedDep(s, m, d) && t.examined[m] <= |t.modules[m].deps|
    ensures IsExaminedDep(t, m, d)
  {
    var i :| 0 <= i < s.examined[m] <= |s.modules[m].deps| && s.modules[m].deps[i] == Regular(d);
    assert t.modules[m].deps[i] == Regular(d);
  }

  lemma OrderKept(s: State, t: State)
    requires Carried(s, t) && Ordered(s) && t.runs == s.runs
    requires forall m | m in s.runs :: m in s.modules
    ensures Ordered(t)
  {
    forall k: nat, i: nat | k < |t.runs| && t.runs[k] in t.modules && i < |t.modules[t.runs[k]].deps|
      ensures ProvidedBefore(t, k, i)
    {
      assert ProvidedBefore(s, k, i);
    }
  }

  /** Nobody's wait is forgotten unless what it is for has been provided. */
  ghost predicate WaitsRemembered(s: State, t: State) {
    forall d, m | Edge(s.inverse, d, m) :: Edge(t.inverse, d, m) || d in t.runs
  }

  lemma AccountKept(s: State, t: State, m: Id, i: nat)
    requires Carried(s, t) && WaitsRemembered(s, t) && m in s.modules && i < |s.modules[m].deps|
    requires LoaderState.Settled(s, m, i)
    ensures LoaderState.Settled(t, m, i)
  {
    assert forall d | d in s.runs :: d in t.runs;
  }

  /** When no module is examined further, all accounts carry over. */
  lemma AccountsKept(s: State, t: State)
    requires Carried(s, t) && WaitsRemembered(s, t) && Accounted(s)
    requires forall m | m in t.modules :: if m in s.modules then t.examined[m] == s.examined[m] else t.examined[m] == 0
    ensures Accounted(t)
  {
    forall m, i: nat | m in t.modules && m in t.examined && i < t.examined[m] <= |t.modules[m].deps|
      ensures LoaderState.Settled(t, m, i)
    {
      assert LoaderState.Settled(s, m, i);
      AccountKept(s, t, m, i);
    }
  }

  /** When only `x` is examined further, by one dependency that is accounted for, so are all. */
  lemma AccountsExtended(s: State, t: State, x: Id)
    requires Carried(s, t) && WaitsRemembered(s, t) && Accounted(s)
    requires t.modules.Keys == s.modules.Keys && x in s.modules
    requires forall m | m in t.modules :: t.examined[m] == if m == x then s.examined[m] + 1 else s.examined[m]
    requires s.examined[x] < |t.modules[x].deps| && LoaderState.Settled(t, x, s.examined[x])
    ensures Accounted(t)
  {
    forall m, i: nat | m in t.modules && m in t.examined && i < t.examined[m] <= |t.modules[m].deps|
      ensures LoaderState.Settled(t, m, i)
    {
      if !(m == x && i == s.examined[x]) {
        assert LoaderState.Settled(s, m, i);
        AccountKept(s, t, m, i);
      }
    }
  }

  /** Waits carry over when no edge is new and nobody's list is dropped. */
  lemma WaitsKept(s: State, t: State)
    requires Carried(s, t) && Waits(s) && Modules(t)
    requires t.inverse == s.inverse && t.runs == s.runs
    requires forall m | m in s.modules && s.modules[m].held :: t.modules[m].held
    ensures Waits(t)
  {
    forall d, m | Edge(t.inverse, d, m) ensures m in t.modules && t.modules[m].held && IsExaminedDep(t, m, d) {
      assert Edge(s.inverse, d, m) && IsExaminedDep(s, m, d);
      assert ModuleOk(t, m);
      WaitKept(s, t, d, m);
    }
  }

  /** An update that neither runs a factory nor touches the lists of those waiting. */
  ghost predicate Local(s: State, t: State) {
    && t.maxId == s.maxId && t.inverse == s.inverse && t.runs == s.runs
    && Carried(s, t)
    && forall m | m in s.modules :: t.modules[m].held == s.modules[m].held
  }

  lemma LocalKeeps(s: State, t: State)
    requires Core(s) && Local(s, t) && Modules(t)
    ensures Waits(t) && Acyclic(t.inverse) && Ordered(t) && WaitsRemembered(s, t)
  {
    WaitsKept(s, t);
    OrderKept(s, t);
  }

  lemma RequestedKept(s: State, t: State, except: set<Id>)
    requires Requested(s, except) && t.inverse == s.inverse && s.known <= t.known && s.modules.Keys <= t.modules.Keys
    ensures Requested(t, except)
  {
  }

  /** A module not settled may change at will. */
  lemma PromptKept(s: State, t: State, except: set<Id>)
    requires Prompt(s, except) && t.settled == s.settled
    requires forall m | m in s.settled && m !in except && PromptAt(s, m) :: PromptAt(t, m)
    ensures Prompt(t, except)
  {
  }

  // ----- Definition

  lemma NotListed(s: State, id: Id)
    requires Shape(s) && Waits(s) && id !in s.modules
    ensures Occurrences(s.inverse, s.maxId, id) == 0 && s.draining[id] == 0
  {
    if Occurrences(s.inverse, s.maxId, id) > 0 {
      var d := OccursMeansListed(s.inverse, s.maxId, id);
    }
  }

  /** The id is free, and the ids in use have been handed out. */
  ghost predicate Definable(s: State, id: Id, deps: seq<Dep>) {
    id !in s.modules && id < s.maxId && forall i | 0 <= i < |deps| :: deps[i].Id() < s.maxId
  }

  lemma DefineKeepsModules(s: State, id: Id, deps: seq<Dep>, handler: bool)
    requires Shape(s) && Modules(s) && Counts(s) && Waits(s) && Definable(s, id, deps)
    ensures Shape(Define(s, id, deps, handler)) && Modules(Define(s, id, deps, handler))
    ensures Counts(Define(s, id, deps, handler))
  {
    var t := Define(s, id, deps, handler);
    NotListed(s, id);
    forall m | m in t.modules ensures ModuleOk(t, m) && Balanced(t, m) {
      assert m != id ==> ModuleOk(s, m) && Balanced(s, m);
    }
  }

  lemma DefineKeeps(s: State, id: Id, deps: seq<Dep>, handler: bool)
    requires Inv(s) && Definable(s, id, deps)
    ensures Inv(Define(s, id, deps, handler))
  {
    hide Modules, Counts, Waits, Accounted, Ordered, Skips, Prompt, Requested;
    var t := Define(s, id, deps, handler);
    DefineKeepsModules(s, id, deps, handler);
    LocalKeeps(s, t);
    AccountsKept(s, t);
    SkipsKept(s, t);
    PromptKept(s, t, {});
    RequestedKept(s, t, {});
  }

  // ----- Examination of one dependency

  /** `m` is in the middle of its examination. */
  ghost predicate Examining(s: State, m: Id) {
    m in s.modules && m in s.examined && m !in s.settled && s.examined[m] < |s.modules[m].deps|
  }

  lemma PassKeepsModules(s: State, t: State, m: Id)
    requires Shape(s) && Modules(s) && Counts(s) && Examining(s, m)
    requires t == Pass(s, m) || t == Skip(s, m)
    ensures Shape(t) && Modules(t) && Counts(t)
  {
    forall x | x in t.modules ensures ModuleOk(t, x) && Balanced(t, x) {
      assert ModuleOk(s, x) && Balanced(s, x);
    }
  }

  lemma PassIsLocal(s: State, t: State, m: Id)
    requires Shape(s) && Examining(s, m) && (t == Pass(s, m) || t == Skip(s, m))
    ensures Local(s, t) && Carried(s, t)
  {
  }

  lemma PassKeepsRest(s: State, t: State, m: Id)
    requires Inv(s) && Examining(s, m) && (t == Pass(s, m) || t == Skip(s, m))
    requires LoaderState.Settled(t, m, s.examined[m])
    ensures Shape(t) && Modules(t) && Counts(t) && Waits(t) && Acyclic(t.inverse) && Accounted(t) && Ordered(t)
    ensures Prompt(t, {}) && Requested(t, {})
  {
    hide Modules, Counts, Waits, Accounted, Ordered, Skips, Prompt, Requested, Carried;
    PassKeepsModules(s, t, m);
    PassIsLocal(s, t, m);
    LocalKeeps(s, t);
    AccountsExtended(s, t, m);
    PromptKept(s, t, {});
    RequestedKept(s, t, {});
  }

  /** The next dependency is a special key, or a module that has run. */
  ghost predicate Passable(s: State, m: Id)
    requires Examining(s, m)
  {
    var dep := s.modules[m].deps[s.examined[m]];
    dep.Regular? ==> dep.target in s.runs
  }

  lemma PassKeeps(s: State, m: Id)
    requires Inv(s) && Examining(s, m) && Passable(s, m)
    ensures Inv(Pass(s, m))
  {
    PassKeepsRest(s, Pass(s, m), m);
    SkipsKept(s, Pass(s, m));
  }

  lemma SkipKeepsSkips(s: State, m: Id)
    requires Shape(s) && Skips(s) && Examining(s, m) && OnCycle(s, m, s.examined[m])
    ensures Skips(Skip(s, m))
  {
    var t := Skip(s, m);
    assert (m, s.examined[m]) in t.skipped;
    forall x, i | (x, i) in t.skipped ensures OnCycle(t, x, i) {
      assert OnCycle(s, x, i);
      OnCycleKept(s, t, x, i);
    }
  }

  lemma SkipKeeps(s: State, m: Id)
    requires Inv(s) && Examining(s, m) && OnCycle(s, m, s.examined[m])
    ensures Inv(Skip(s, m))
  {
    PassKeepsRest(s, Skip(s, m), m);
    SkipKeepsSkips(s, m);
  }

  ghost predicate Waitable(s: State, m: Id, d: Id)
    requires Examining(s, m)
  {
    && s.modules[m].deps[s.examined[m]] == Regular(d)
    && d !in s.runs && d < s.maxId && !Failed(s, d)
    && !ReachesByEdges(Held(s), d, m)
  }

  lemma WaitKeepsModules(s: State, m: Id, d: Id)
    requires Shape(s) && Modules(s) && Counts(s) && Examining(s, m) && Waitable(s, m, d)
    ensures Shape(Wait(s, m, d)) && Modules(Wait(s, m, d)) && Counts(Wait(s, m, d))
    ensures s.modules[m].held
  {
    var t := Wait(s, m, d);
    assert ModuleOk(s, m);
    forall x | x in t.modules ensures ModuleOk(t, x) && Balanced(t, x) {
      assert ModuleOk(s, x) && Balanced(s, x);
      OccurrencesAfterPush(s.inverse, s.maxId, d, m, x);
    }
  }

  lemma WaitKeepsWaits(s: State, m: Id, d: Id)
    requires Shape(s) && Waits(s) && Examining(s, m) && Waitable(s, m, d) && s.modules[m].held
    requires Shape(Wait(s, m, d)) && Modules(Wait(s, m, d))
    ensures Waits(Wait(s, m, d)) && WaitsRemembered(s, Wait(s, m, d))
  {
    var t := Wait(s, m, d);
    forall e, x | Edge(t.inverse, e, x) ensures x in t.modules && t.modules[x].held && IsExaminedDep(t, x, e) {
      AddedEdges(s.inverse, d, m, e, x);
      if Edge(s.inverse, e, x) {
        assert IsExaminedDep(s, x, e) && ModuleOk(t, x);
        WaitKept(s, t, e, x);
      } else {
        assert t.modules[x].deps[s.examined[x]] == Regular(e);
      }
    }
  }

  /** A recorded wait goes along a stored dependency, against the direction of the record. */
  lemma WaitsAreHeld(s: State)
    requires Waits(s)
    ensures Reverses(s.inverse, Held(s))
  {
    forall d, m | Edge(s.inverse, d, m) ensures Edge(Held(s), m, d) {
      assert IsExaminedDep(s, m, d);
      var i :| 0 <= i < s.examined[m] <= |s.modules[m].deps| && s.modules[m].deps[i] == Regular(d);
      assert DepIds(s.modules[m].deps)[i] == d;
    }
  }

  /** Waiting is safe when no stored dependency path leads back: no cycle of waits can close. */
  lemma WaitKeepsAcyclic(s: State, m: Id, d: Id)
    requires Waits(s) && Acyclic(s.inverse) && Examining(s, m) && Waitable(s, m, d) && s.modules[m].held
    ensures Acyclic(Wait(s, m, d).inverse)
  {
    if Reaches(s.inverse, m, d) {
      var p :| PathFromTo(s.inverse, p, m, d);
      WaitsAreHeld(s);
      ReversedPath(Held(s), s.inverse, p);
      if |p| == 1 {
        assert DepIds(s.modules[m].deps)[s.examined[m]] == d;
        EdgePath(Held(s), m, m);
      }
    }
    AddEdgeKeepsAcyclic(s.inverse, d, m);
  }

  lemma WaitKeeps(s: State, m: Id, d: Id)
    requires Inv(s) && Examining(s, m) && Waitable(s, m, d)
    ensures Core(Wait(s, m, d)) && Prompt(Wait(s, m, d), {}) && Requested(Wait(s, m, d), {d})
  {
    var t := Wait(s, m, d);
    WaitKeepsModules(s, m, d);
    WaitKeepsWaits(s, m, d);
    WaitKeepsAcyclic(s, m, d);
    AccountsExtended(s, t, m);
    OrderKept(s, t);
    SkipsKept(s, t);
    PromptKept(s, t, {});
    forall e, x | Edge(t.inverse, e, x) && e !in {d} ensures e in t.modules || e in t.known {
      AddedEdges(s.inverse, d, m, e, x);
    }
  }

  /** What the search along stored dependencies finds is a declared cycle. */
  lemma FoundPathIsCycle(s: State, m: Id, d: Id)
    requires Examining(s, m) && s.modules[m].deps[s.examined[m]] == Regular(d) && ReachesByEdges(Held(s), d, m)
    ensures OnCycle(s, m, s.examined[m])
  {
    ReachInExtension(Held(s), Declared(s), d, m);
  }

  lemma CompleteMeansRun(s: State, d: Id)
    requires Inv(s)
    ensures d in s.runs ==> d in s.modules && s.modules[d].done
    ensures d in s.modules && s.modules[d].done && s.modules[d].error.None? ==> d in s.runs
    ensures d in s.modules && s.modules[d].error.Some? ==> s.modules[d].done && s.modules[d].error.value in s.failing
  {
    assert d in s.modules ==> ModuleOk(s, d);
  }

  lemma DependencyIdsAreKnown(s: State, m: Id)
    requires Inv(s) && Examining(s, m)
    ensures s.modules[m].deps[s.examined[m]].Id() < s.maxId && m !in s.runs
  {
    assert ModuleOk(s, m);
  }

  // ----- Failure, completion and the resolution of those waiting

  lemma FailKeepsModules(s: State, m: Id, err: Id)
    requires Shape(s) && Modules(s) && Counts(s) && m in s.modules && err in s.failing && (m in s.runs ==> m == err)
    ensures Shape(Fail(s, m, err)) && Modules(Fail(s, m, err)) && Counts(Fail(s, m, err))
  {
    var t := Fail(s, m, err);
    forall x | x in t.modules ensures ModuleOk(t, x) && Balanced(t, x) {
      assert ModuleOk(s, x) && Balanced(s, x);
    }
  }

  lemma FailKeeps(s: State, m: Id, err: Id)
    requires Inv(s) && m in s.modules && err in s.failing && (m in s.runs ==> m == err)
    ensures Inv(Fail(s, m, err))
  {
    var t := Fail(s, m, err);
    FailKeepsModules(s, m, err);
    LocalKeeps(s, t);
    AccountsKept(s, t);
    SkipsKept(s, t);
    PromptKept(s, t, {});
    RequestedKept(s, t, {});
  }

  lemma TakeOverKeeps(s: State, m: Id, err: Id)
    requires Inv(s) && m in s.modules && err in s.failing && (m in s.runs ==> m == err)
    ensures Inv(TakeOver(s, m, err))
  {
    FailKeeps(s, m, err);
    SetsKeepCore(Fail(s, m, err), TakeOver(s, m, err));
    PromptKept(Fail(s, m, err), TakeOver(s, m, err), {});
  }

  /** Whoever waits for somebody, directly or not, has not run. */
  lemma WaitingHasNotRun(s: State, id: Id, x: Id)
    requires Inv(s) && Reaches(s.inverse, id, x) && x != id
    ensures x !in s.runs
  {
    var p :| PathFromTo(s.inverse, p, id, x);
    LastEdge(s.inverse, p);
    assert ModuleOk(s, x);
  }

  /** The next to complete: examined to the end, counter at zero. */
  ghost predicate Ready(s: State, m: Id) {
    && m in s.modules && m in s.examined && !s.modules[m].done
    && s.modules[m].unresolved == 0 && s.examined[m] == |s.modules[m].deps|
  }

  lemma CompleteKeepsModules(s: State, m: Id)
    requires Shape(s) && Modules(s) && Ready(s, m)
    requires forall d, x | Edge(s.inverse, d, x) :: x in s.modules
    ensures Shape(Complete(s, m)) && Modules(Complete(s, m)) && m !in s.runs
  {
    var t := Complete(s, m);
    assert ModuleOk(s, m);
    forall x | x in t.draining ensures x in t.modules {
      if x !in s.draining {
        assert Edge(s.inverse, m, x);
      }
    }
    forall x | x in t.modules ensures ModuleOk(t, x) {
      assert ModuleOk(s, x);
      assert x in t.runs <==> x == m || x in s.runs;
    }
  }

  lemma CompleteKeepsCounts(s: State, m: Id)
    requires Shape(s) && Counts(s) && Ready(s, m) && m < s.maxId && Shape(Complete(s, m))
    ensures Counts(Complete(s, m))
  {
    var t := Complete(s, m);
    forall x | x in t.modules ensures Balanced(t, x) {
      assert Balanced(s, x);
      OccurrencesAfterFetch(s.inverse, s.maxId, m, x);
    }
  }

  lemma ReadyWaitsForNobody(s: State, m: Id, d: Id)
    requires Shape(s) && Counts(s) && Ready(s, m)
    ensures !Edge(s.inverse, d, m) && m !in s.draining
  {
    assert Balanced(s, m);
    if Edge(s.inverse, d, m) {
      ListedMeansOccurs(s.inverse, s.maxId, d, m);
    }
  }

  lemma CompleteKeepsOrder(s: State, m: Id)
    requires Shape(s) && Counts(s) && Accounted(s) && Ordered(s) && Ready(s, m)
    ensures Ordered(Complete(s, m))
  {
    var t := Complete(s, m);
    forall k: nat, i: nat | k < |t.runs| && t.runs[k] in t.modules && i < |t.modules[t.runs[k]].deps|
      ensures ProvidedBefore(t, k, i)
    {
      if k < |s.runs| {
        assert s.runs[k] in s.runs;
        assert ProvidedBefore(s, k, i);
        assert t.runs[..k] == s.runs[..k];
      } else {
        assert LoaderState.Settled(s, m, i);
        assert t.runs[..k] == s.runs;
        if s.modules[m].deps[i].Regular? {
          ReadyWaitsForNobody(s, m, s.modules[m].deps[i].target);
        }
      }
    }
  }

  lemma CompleteKeepsWaits(s: State, m: Id)
    requires Shape(s) && Counts(s) && Waits(s) && Ready(s, m)
    requires Shape(Complete(s, m)) && Modules(Complete(s, m))
    ensures Waits(Complete(s, m)) && WaitsRemembered(s, Complete(s, m))
  {
    var t := Complete(s, m);
    assert m in t.runs;
    forall d, x | Edge(t.inverse, d, x) ensures x in t.modules && t.modules[x].held && IsExaminedDep(t, x, d) {
      assert Edge(s.inverse, d, x) && IsExaminedDep(s, x, d) && ModuleOk(t, x);
      ReadyWaitsForNobody(s, m, d);
      WaitKept(s, t, d, x);
    }
  }

  lemma CompleteKeeps(s: State, m: Id)
    requires Core(s) && Prompt(s, {m}) && Requested(s, {}) && Ready(s, m)
    ensures Inv(Complete(s, m))
  {
    var t := Complete(s, m);
    CompleteKeepsModules(s, m);
    assert ModuleOk(s, m);
    CompleteKeepsCounts(s, m);
    CompleteKeepsWaits(s, m);
    CompleteKeepsOrder(s, m);
    FewerEdgesKeepAcyclic(t.inverse, s.inverse);
    AccountsKept(s, t);
    SkipsKept(s, t);
    forall x | x in t.settled ensures PromptAt(t, x) {
      assert x != m ==> PromptAt(s, x);
    }
  }

  lemma DrainKeepsModules(s: State, y: Id)
    requires Shape(s) && Modules(s) && Counts(s) && y in s.draining && y in s.modules
    ensures Shape(Drain(s, y)) && Modules(Drain(s, y)) && Counts(Drain(s, y))
    ensures Drain(s, y).modules[y].unresolved == 0 ==> Drain(s, y).modules[y].done || Ready(Drain(s, y), y)
  {
    var t := Drain(s, y);
    forall x | x in t.modules ensures ModuleOk(t, x) && Balanced(t, x) {
      assert ModuleOk(s, x) && Balanced(s, x);
    }
    assert ModuleOk(t, y) && Balanced(t, y);
  }

  lemma DrainKeeps(s: State, y: Id)
    requires Inv(s) && y in s.draining && y in s.modules
    ensures Core(Drain(s, y)) && Prompt(Drain(s, y), {y}) && Requested(Drain(s, y), {})
    ensures Drain(s, y).modules[y].unresolved == 0 ==> Drain(s, y).modules[y].done || Ready(Drain(s, y), y)
    ensures Drain(s, y).modules[y].unresolved != 0 ==> Inv(Drain(s, y))
  {
    var t := Drain(s, y);
    DrainKeepsModules(s, y);
    LocalKeeps(s, t);
    AccountsKept(s, t);
    SkipsKept(s, t);
    RequestedKept(s, t, {});
    forall x | x in t.settled && x !in {y} ensures PromptAt(t, x) {
      assert PromptAt(s, x);
    }
    assert Balanced(t, y) && (y in s.settled ==> PromptAt(s, y));
  }

  // ----- Bookkeeping

  lemma InternKeeps(s: State, n: nat)
    requires Inv(s) && s.maxId <= n
    ensures Inv(s.(maxId := n))
  {
    var t := s.(maxId := n);
    forall m | m in t.modules ensures ModuleOk(t, m) && Balanced(t, m) {
      assert ModuleOk(s, m) && Balanced(s, m);
      OccurrencesBelowBound(s.inverse, s.maxId, n, m);
    }
    assert Carried(s, t);
    WaitsKept(s, t);
    AccountsKept(s, t);
    OrderKept(s, t);
    SkipsKept(s, t);
    PromptKept(s, t, {});
  }

  /** Updates that change only `known`, `settled` or `silent`. */
  lemma SetsKeepCore(s: State, t: State)
    requires Core(s) && t.settled <= t.modules.Keys
    requires t == s.(known := t.known, settled := t.settled, silent := t.silent)
    ensures Core(t)
  {
    forall m | m in t.modules ensures ModuleOk(t, m) && Balanced(t, m) {
      assert ModuleOk(s, m) && Balanced(s, m);
    }
    assert Carried(s, t);
    WaitsKept(s, t);
    AccountsKept(s, t);
    OrderKept(s, t);
    SkipsKept(s, t);
  }

  lemma RequestKeeps(s: State, d: Id)
    requires Core(s) && Prompt(s, {}) && Requested(s, {d})
    ensures Inv(Request(s, d))
  {
    SetsKeepCore(s, Request(s, d));
    PromptKept(s, Request(s, d), {});
  }

  /** At the end of its examination a module either waits or is ready. */
  lemma ExaminedToTheEnd(s: State, m: Id)
    requires Inv(s) && m in s.modules && s.examined[m] == |s.modules[m].deps|
    ensures s.modules[m].unresolved >= 0
    ensures s.modules[m].unresolved == 0 ==> s.modules[m].done || Ready(s, m)
    ensures s.modules[m].unresolved != 0 ==> PromptAt(s, m)
    ensures Core(s) && Prompt(s, {m}) && Requested(s, {})
  {
    assert ModuleOk(s, m) && Balanced(s, m);
  }

  lemma AlreadyRequested(s: State, d: Id)
    requires Core(s) && Prompt(s, {}) && Requested(s, {d}) && (d in s.modules || d in s.known)
    ensures Inv(s)
  {
  }

  lemma SettleKeeps(s: State, m: Id)
    requires Inv(s) && PromptAt(s, m)
    ensures Inv(Settle(s, m))
  {
    var t := Settle(s, m);
    SetsKeepCore(s, t);
    forall x | x in t.settled ensures PromptAt(t, x) {
      assert PromptAt(s, x);
    }
  }

  // ----- Nothing is undone

  lemma CompleteIsMonotone(s: State, m: Id)
    requires m in s.modules && !s.modules[m].done
    ensures Monotone(s, Complete(s, m), {})
  {
    CompleteAdvances(s, m);
    assert m in Complete(s, m).runs;
    NothingNew(s, Complete(s, m));
    InformedKept(s, Complete(s, m));
    hide Informed, Advances, Traceable;
  }

  lemma CompleteAdvances(s: State, m: Id)
    requires m in s.modules && !s.modules[m].done
    ensures Advances(s, Complete(s, m), {})
  {
  }

  // ----- Nobody is left untold without notice

  /** Errors are kept, and new ones or new waits for a failed module do not come up. */
  lemma InformedKept(s: State, t: State)
    requires t.silent == s.silent && s.modules.Keys <= t.modules.Keys
    requires forall m | m in s.modules :: t.modules[m].deps == s.modules[m].deps
    requires forall m | m in t.modules :: Failed(t, m) <==> Failed(s, m)
    requires forall d, m | Edge(t.inverse, d, m) && Failed(s, d) :: Edge(s.inverse, d, m)
    ensures Informed(s) ==> Informed(t)
  {
    if Informed(s) {
      forall d | Failed(t, d) && Unheard(t, d) ensures d in t.silent {
        var m :| Edge(t.inverse, d, m) && !Failed(t, m);
        assert Edge(s.inverse, d, m) && !Failed(s, m);
      }
      forall d | d in t.silent ensures TookOver(t, d) {
        TookOverKept(s, t, d);
      }
    }
  }

  lemma TookOverKept(s: State, t: State, d: Id)
    requires TookOver(s, d) && d in t.modules && t.modules[d].deps == s.modules[d].deps
    requires forall m | Failed(s, m) :: Failed(t, m)
    ensures TookOver(t, d)
  {
    var i :| 0 <= i < |s.modules[d].deps| && s.modules[d].deps[i].Regular? && Failed(s, s.modules[d].deps[i].target);
    assert Failed(t, t.modules[d].deps[i].target);
  }

  lemma WaitIsInformed(s: State, m: Id, d: Id)
    requires m in s.modules && m in s.examined && !Failed(s, d)
    ensures Informed(s) ==> Informed(Wait(s, m, d))
  {
    var t := Wait(s, m, d);
    forall e, x | Edge(t.inverse, e, x) && Failed(s, e) ensures Edge(s.inverse, e, x) {
      AddedEdges(s.inverse, d, m, e, x);
    }
    InformedKept(s, t);
  }

  /** The dependency of `m` that is examined next has failed with `err`. */
  ghost predicate TakesFrom(s: State, m: Id, err: Id) {
    m in s.modules && exists i :: 0 <= i < |s.modules[m].deps| && s.modules[m].deps[i].Regular?
                                  && Failed(s, s.modules[m].deps[i].target)
                                  && s.modules[s.modules[m].deps[i].target].error.value == err
  }

  lemma TakeOverIsInformed(s: State, m: Id, err: Id)
    requires TakesFrom(s, m, err) && Informed(s)
    ensures Informed(TakeOver(s, m, err))
  {
    var t := TakeOver(s, m, err);
    forall d | Failed(t, d) && Unheard(t, d) ensures d in t.silent {
      var x :| Edge(t.inverse, d, x) && !Failed(t, x);
      assert Edge(s.inverse, d, x) && !Failed(s, x);
    }
    forall d | d in t.silent ensures TookOver(t, d) {
      if d in s.silent {
        TookOverKept(s, t, d);
      } else {
        var deps := s.modules[m].deps;
        var i :| 0 <= i < |deps| && deps[i].Regular? && Failed(s, deps[i].target);
        assert Failed(t, t.modules[m].deps[i].target);
      }
    }
  }

  lemma DrainIsMonotone(s: State, y: Id)
    requires Inv(s) && y in s.draining
    ensures y in s.modules && Monotone(s, Drain(s, y), {}) && Pending(Drain(s, y)) == Pending(s)
  {
    assert Incomplete(Drain(s, y)) == Incomplete(s);
    DrainAdvances(s, y);
    NothingNew(s, Drain(s, y));
    hide Advances, Inv, Traceable;
    InformedKept(s, Drain(s, y));
    hide Informed;
  }

  lemma DrainAdvances(s: State, y: Id)
    requires s.examined.Keys == s.modules.Keys && y in s.modules
    ensures Advances(s, Drain(s, y), {})
  {
  }

  lemma PassIsMonotone(s: State, m: Id)
    requires Inv(s) && Examining(s, m)
    ensures Monotone(s, Pass(s, m), {m}) && Monotone(s, Skip(s, m), {m})
  {
    PassAdvances(s, m);
    NothingNew(s, Pass(s, m));
    NothingNew(s, Skip(s, m));
    hide Inv, Advances, Traceable;
    InformedKept(s, Pass(s, m));
    InformedKept(s, Skip(s, m));
    hide Informed;
  }

  lemma PassAdvances(s: State, m: Id)
    requires s.examined.Keys == s.modules.Keys && Examining(s, m)
    ensures Advances(s, Pass(s, m), {m}) && Advances(s, Skip(s, m), {m})
  {
  }

  lemma WaitIsMonotone(s: State, m: Id, d: Id)
    requires Inv(s) && Examining(s, m) && !Failed(s, d)
    ensures Monotone(s, Wait(s, m, d), {m})
  {
    WaitIsInformed(s, m, d);
    NothingNew(s, Wait(s, m, d));
    hide Informed, Inv, Traceable;
  }

  lemma MonotoneWeaken(s: State, t: State, open: set<Id>)
    requires Monotone(s, t, {})
    ensures Monotone(s, t, open)
  {
    hide Informed, Barred, Traceable;
  }

  lemma TakeOverIsMonotone(s: State, m: Id, err: Id, open: set<Id>)
    requires TakesFrom(s, m, err) && s.examined.Keys == s.modules.Keys
    ensures Monotone(s, TakeOver(s, m, err), open)
  {
    if Informed(s) {
      TakeOverIsInformed(s, m, err);
    }
    hide Informed, Unheard;
    NothingNew(s, TakeOver(s, m, err));
    hide Traceable;
  }

  lemma SettleIsMonotone(s: State, m: Id)
    requires Inv(s) && m in s.modules
    ensures Monotone(s, Settle(s, m), {m})
  {
    InformedKept(s, Settle(s, m));
    NothingNew(s, Settle(s, m));
    hide Informed, Traceable;
  }

  lemma RequestIsMonotone(s: State, d: Id)
    requires s.examined.Keys == s.modules.Keys
    ensures Monotone(s, Request(s, d), {})
  {
    InformedKept(s, Request(s, d));
    NothingNew(s, Request(s, d));
    hide Informed, Traceable;
  }

  lemma InternIsMonotone(s: State, n: nat)
    requires s.examined.Keys == s.modules.Keys && s.maxId <= n
    ensures Monotone(s, s.(maxId := n), {})
  {
    InformedKept(s, s.(maxId := n));
    NothingNew(s, s.(maxId := n));
    hide Informed, Traceable;
  }

  /** A new module, examined to the end, is nothing unfinished for its environment. */
  lemma DefinedAndResolved(s: State, id: Id, deps: seq<Dep>, handler: bool, t: State)
    requires s.examined.Keys == s.modules.Keys && s.settled <= s.modules.Keys && id !in s.modules
    requires Definition(id, deps, handler) in s.origins
    requires Later(Define(s, id, deps, handler), t, {id}) && id in t.settled
    ensures Later(s, t, {})
  {
    hide Monotone;
    DefineOpens(s, id, deps, handler);
    MonotoneTransitive(s, Define(s, id, deps, handler), t, {id});
    NothingOpen(s, t, id);
  }

  lemma DefineOpens(s: State, id: Id, deps: seq<Dep>, handler: bool)
    requires s.examined.Keys == s.modules.Keys && id !in s.modules && Definition(id, deps, handler) in s.origins
    ensures Monotone(s, Define(s, id, deps, handler), {id})
  {
    var t := Define(s, id, deps, handler);
    InformedKept(s, t);
    assert Rooted(t, id);
    assert Traceable(s, t);
    hide Informed, Traceable;
  }

  lemma NothingOpen(s: State, t: State, id: Id)
    requires Monotone(s, t, {id}) && s.examined.Keys == s.modules.Keys && id !in s.modules && id in t.settled
    ensures Monotone(s, t, {})
  {
    hide Barred, Informed, Traceable;
  }

  ghost function Incomplete(s: State): set<Id> {
    set m | m in s.modules && !s.modules[m].done
  }

  /** How many modules are not complete. */
  ghost function Pending(s: State): nat {
    |Incomplete(s)|
  }

  lemma PendingNeverGrows(s: State, t: State)
    requires Monotone(s, t, {}) && s.modules.Keys == t.modules.Keys
    ensures Pending(t) <= Pending(s)
  {
    SubsetIsSmaller(Incomplete(t), Incomplete(s));
  }

  lemma PendingShrinks(s: State, t: State, m: Id)
    requires Monotone(s, t, {}) && s.modules.Keys == t.modules.Keys
    requires m in s.modules && !s.modules[m].done && t.modules[m].done
    ensures Pending(t) < Pending(s)
  {
    assert m in Incomplete(s);
    SubsetIsSmaller(Incomplete(t), Incomplete(s) - {m});
  }

  // ----- A load error

  /** The manager with a module for a script that failed to load. */
  function WithModule(s: State, id: Id): State {
    if id in s.modules then s else Define(s, id, [], false)
  }

  /** The error of `err` has reached the modules in `hit`. */
  function Hit(s: State, hit: seq<Id>, err: Id): State {
    s.(modules := map m | m in s.modules ::
                    if m in hit then s.modules[m].(done := true, error := Some(err)) else s.modules[m])
  }

  lemma HitNobody(s: State, err: Id)
    ensures Hit(s, [], err) == s && !SomeHandler(s, [])
  {
    assert Hit(s, [], err).modules == s.modules;
  }

  ghost predicate SomeHandler(s: State, hit: seq<Id>) {
    exists x :: x in hit && x in s.modules && s.modules[x].handler
  }

  lemma HitHandlers(s: State, hit: seq<Id>, x: Id, err: Id)
    requires x in s.modules
    ensures SomeHandler(s, hit + [x]) <==> SomeHandler(s, hit) || s.modules[x].handler
    ensures Hit(s, hit, err).modules[x].handler == s.modules[x].handler
  {
    assert x in hit + [x];
    assert forall y | y in hit :: y in hit + [x];
  }

  lemma HitOneMore(s: State, hit: seq<Id>, x: Id, err: Id)
    requires x in s.modules
    ensures Fail(Hit(s, hit, err), x, err) == Hit(s, hit + [x], err)
  {
    assert Fail(Hit(s, hit, err), x, err).modules == Hit(s, hit + [x], err).modules;
  }

  /** What a load error of `id` makes of the manager when it reaches the modules in `hit`. */
  function LoadFailure(s: State, id: Id, hit: seq<Id>): State {
    var t := Hit(WithModule(s, id), hit, id);
    if id in s.modules then t else Settle(t, id)
  }

  lemma HandlersUnchanged(s: State, hit: seq<Id>, err: Id)
    ensures SomeHandler(Hit(s, hit, err), hit) <==> SomeHandler(s, hit)
  {
    var t := Hit(s, hit, err);
    if SomeHandler(s, hit) {
      var x :| x in hit && x in s.modules && s.modules[x].handler;
      assert t.modules[x].handler;
    }
    if SomeHandler(t, hit) {
      var x :| x in hit && x in t.modules && t.modules[x].handler;
      assert s.modules[x].handler;
    }
  }

  /** `hit` is whoever waits for `id`, directly or not, and `id` itself. */
  ghost predicate AllWaiting(s: State, id: Id, hit: seq<Id>) {
    forall x :: x in hit <==> Reaches(s.inverse, id, x)
  }

  /** A load error is passed on to everybody: it leaves nobody untold who was not untold before. */
  lemma UntoldBefore(s: State, id: Id, hit: seq<Id>, d: Id)
    requires Waits(s) && AllWaiting(s, id, hit)
    requires Failed(LoadFailure(s, id, hit), d) && Unheard(LoadFailure(s, id, hit), d)
    ensures Failed(s, d) && Unheard(s, d) && d !in hit
  {
    var t := LoadFailure(s, id, hit);
    var m :| Edge(t.inverse, d, m) && !Failed(t, m);
    if Reaches(s.inverse, id, d) {
      ReachStep(s.inverse, id, d, m);
    }
    assert Edge(s.inverse, d, m) && !Failed(s, m);
  }

  lemma LoadFailureIsInformed(s: State, id: Id, hit: seq<Id>)
    requires Waits(s) && AllWaiting(s, id, hit) && Informed(s)
    ensures Informed(LoadFailure(s, id, hit))
  {
    hide Waits, AllWaiting, Unheard;
    var t := LoadFailure(s, id, hit);
    forall d | Failed(t, d) && Unheard(t, d) ensures d in t.silent {
      UntoldBefore(s, id, hit, d);
    }
    forall d | d in t.silent ensures TookOver(t, d) {
      TookOverKept(s, t, d);
    }
  }

  lemma LoadFailureIsLater(s: State, id: Id, hit: seq<Id>)
    requires s.examined.Keys == s.modules.Keys && Waits(s) && AllWaiting(s, id, hit) && id in hit && id in s.failing
    ensures Later(s, LoadFailure(s, id, hit), {})
  {
    hide Informed, Advances;
    LoadFailureAdvances(s, id, hit);
    LoadFailureIsTraceable(s, id, hit);
    hide Traceable;
    if Informed(s) {
      LoadFailureIsInformed(s, id, hit);
    }
  }

  lemma LoadFailureIsTraceable(s: State, id: Id, hit: seq<Id>)
    requires id in hit && id in s.failing
    ensures Traceable(s, LoadFailure(s, id, hit))
  {
    var t := LoadFailure(s, id, hit);
    assert id !in s.modules ==> Rooted(t, id);
  }

  lemma LoadFailureAdvances(s: State, id: Id, hit: seq<Id>)
    requires s.examined.Keys == s.modules.Keys
    ensures Advances(s, LoadFailure(s, id, hit), {})
  {
  }

  lemma LoadFailureKeeps(s: State, id: Id, hit: seq<Id>)
    requires Inv(s) && Inv(Hit(WithModule(s, id), hit, id)) && id in hit && AllWaiting(s, id, hit) && id in s.failing
    ensures Inv(LoadFailure(s, id, hit)) && Later(s, LoadFailure(s, id, hit), {})
    ensures SomeHandler(WithModule(s, id), hit) <==> SomeHandler(LoadFailure(s, id, hit), hit)
  {
    var t := Hit(WithModule(s, id), hit, id);
    if id !in s.modules {
      assert PromptAt(t, id);
      assert Inv(Settle(t, id)) by {
        SettleKeeps(t, id);
      }
    }
    LoadFailureIsLater(s, id, hit);
    HandlersUnchanged(WithModule(s, id), hit, id);
  }

  // ----- Prefixes of lists

  lemma EntryIsLeft(d: multiset<Id>, q: seq<Id>, i: nat)
    requires multiset(q) <= d && i < |q|
    ensures q[i] in d - multiset(q[..i])
    ensures d - multiset(q[..i]) - multiset{q[i]} == d - multiset(q[..i + 1])
  {
    PrefixGrows(q, i);
  }

  lemma PrefixGrows(q: seq<Id>, i: nat)
    requires i < |q|
    ensures q[..i + 1] == q[..i] + [q[i]]
    ensures multiset(q[..i + 1]) == multiset(q[..i]) + multiset{q[i]}
    ensures multiset(q[..i + 1]) <= multiset(q)
  {
    assert q[..i + 1] == q[..i] + [q[i]];
    assert q == q[..i + 1] + q[i + 1..];
  }
}
