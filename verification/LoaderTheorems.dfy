/** What the invariant of the module manager says about whole runs. */
module LoaderTheorems {
  import opened Common
  import opened Graphs
  import opened LoaderState
  import opened LoaderSteps

  /** What is waited for in vain: a script requested but not defined, or a module that failed untold. */
  ghost predicate Culprit(s: State, d: Id) {
    if d in s.modules then Failed(s, d) && Unheard(s, d) else d in s.known
  }

  /** Between calls, an incomplete module waits for some module that has not run. */
  lemma WaitsForSomeone(s: State, m: Id) returns (d: Id)
    requires Inv(s) && Quiescent(s) && m in s.modules && !s.modules[m].done
    ensures Edge(s.inverse, d, m) && d !in s.runs && (d in s.modules || d in s.known)
  {
    assert PromptAt(s, m) && Balanced(s, m);
    d := OccursMeansListed(s.inverse, s.maxId, m);
  }

  /** Follow the waits of an incomplete module: they end at a culprit, as they form no cycle. */
  lemma {:induction false} FollowWaits(s: State, p: seq<Id>) returns (d: Id, x: Id)
    requires Inv(s) && Quiescent(s) && IsPath(s.inverse, p)
    requires forall i | 0 <= i < |p| :: p[i] in s.modules && !s.modules[p[i]].done
    ensures ReachesByEdges(s.inverse, d, p[|p| - 1]) && Culprit(s, d)
    ensures Edge(s.inverse, d, x) && !Failed(s, x) && (d in s.modules ==> Failed(s, d))
    decreases |s.modules.Keys| - |p|
  {
    x := p[0];
    d := WaitsForSomeone(s, x);
    var q := [d] + p;
    EdgePath(s.inverse, d, p[0]);
    JoinPaths(s.inverse, [d, p[0]], p);
    assert q == [d, p[0]] + p[1..];
    assert ModuleOk(s, p[0]) && !Failed(s, p[0]);
    if Culprit(s, d) {
      assert PathFromTo(s.inverse, q, d, p[|p| - 1]);
    } else {
      assert ModuleOk(s, d);
      AcyclicPathIsShort(s.inverse, q, s.modules.Keys);
      d, x := FollowWaits(s, q);
    }
  }

  /** Between calls, only a module that is missing or failed without a word can hold another one back. */
  lemma IncompleteHasCulprit(s: State, m: Id)
    requires Inv(s) && Quiescent(s) && m in s.modules && !s.modules[m].done
    ensures exists d :: ReachesByEdges(s.inverse, d, m) && Culprit(s, d)
  {
    var d, _ := FollowWaits(s, [m]);
  }

  /** Who waits for a module that is missing or did not tell of its failure is not complete. */
  lemma CulpritHoldsUp(s: State, d: Id, m: Id)
    requires Inv(s) && Edge(s.inverse, d, m) && !Failed(s, m)
    ensures m in s.modules && !s.modules[m].done
  {
    assert ModuleOk(s, m);
  }

  /**
   No deadlock, whatever cycles were declared and whatever failed: between calls every module is
   complete, by running or by failing, exactly if nobody waits for a module that is missing or has
   failed without a word.
   */
  lemma AllDoneExactly(s: State)
    requires Inv(s) && Quiescent(s)
    ensures (forall m | m in s.modules :: s.modules[m].done)
            <==> Told(s) && forall d, m | Edge(s.inverse, d, m) && !Failed(s, m) :: d in s.modules
  {
    if forall m | m in s.modules :: s.modules[m].done {
      forall d, m | Edge(s.inverse, d, m) ensures Failed(s, m) {
        if !Failed(s, m) {
          CulpritHoldsUp(s, d, m);
        }
      }
    } else {
      var m :| m in s.modules && !s.modules[m].done;
      var d, x := FollowWaits(s, [m]);
    }
  }

  /** Once everything requested is defined, only silent modules can hold others back. */
  lemma OnlySilenceHoldsUp(s: State, m: Id)
    requires Inv(s) && Quiescent(s) && Informed(s) && m in s.modules && !s.modules[m].done
    requires forall d | d in s.known :: d in s.modules
    ensures exists d :: d in s.silent && TookOver(s, d) && ReachesByEdges(s.inverse, d, m)
  {
    var d, _ := FollowWaits(s, [m]);
    assert d in s.silent;
  }

  /** Without failures: everything runs. */
  lemma NoDeadlock(s: State)
    requires Inv(s) && Quiescent(s)
    requires forall d | d in s.known :: d in s.modules
    requires forall m | m in s.modules :: s.modules[m].error.None?
    ensures forall m | m in s.modules :: s.modules[m].done && m in s.runs
  {
    forall m | m in s.modules ensures s.modules[m].done && m in s.runs {
      assert ModuleOk(s, m);
      if !s.modules[m].done {
        IncompleteHasCulprit(s, m);
      }
    }
  }

  // ----- Which updates tell those waiting

  /** Taking over an error tells those waiting exactly if all of them have an error already. */
  lemma TakeOverTellsExactly(s: State, m: Id, err: Id)
    requires Inv(s) && Told(s) && m in s.modules
    ensures Told(TakeOver(s, m, err)) <==> !Unheard(s, m)
  {
    var t := TakeOver(s, m, err);
    if Unheard(s, m) {
      var x :| Edge(s.inverse, m, x) && !Failed(s, x);
      if x == m {
        EdgePath(s.inverse, m, m);
        ClosedPath(s.inverse, [m, m]);
      }
      assert Edge(t.inverse, m, x) && !Failed(t, x);
      assert Failed(t, m) && Unheard(t, m);
    } else {
      forall d | Failed(t, d) ensures !Unheard(t, d) {
        forall x | Edge(t.inverse, d, x) ensures Failed(t, x) {
          assert Edge(s.inverse, d, x) && !Unheard(s, d);
          assert Failed(s, x);
        }
      }
    }
  }

  /** A load error tells everybody. */
  lemma LoadFailureTells(s: State, id: Id, hit: seq<Id>)
    requires Inv(s) && Told(s) && AllWaiting(s, id, hit)
    ensures Told(LoadFailure(s, id, hit))
  {
    hide AllWaiting, Unheard;
    var t := LoadFailure(s, id, hit);
    forall d | Failed(t, d) ensures !Unheard(t, d) {
      if Unheard(t, d) {
        UntoldBefore(s, id, hit, d);
      }
    }
  }

  /** Modules only begin to wait for others that have not failed, so there is nothing to tell yet. */
  lemma WaitTells(s: State, m: Id, d: Id)
    requires Told(s) && Examining(s, m) && Waitable(s, m, d)
    ensures Told(Wait(s, m, d))
  {
    var t := Wait(s, m, d);
    forall e | Failed(t, e) ensures !Unheard(t, e) {
      forall x | Edge(t.inverse, e, x) ensures Failed(t, x) {
        AddedEdges(s.inverse, d, m, e, x);
        assert Edge(s.inverse, e, x) && !Unheard(s, e);
        assert Failed(s, x);
      }
    }
  }

  /** As long as no module is silent, everybody is told. */
  lemma NoSilenceMeansTold(s: State)
    requires Informed(s) && s.silent == {}
    ensures Told(s)
  {
  }

  /** Without declared cycles, every module runs after all it depends on. */
  lemma RunsInDependencyOrder(s: State, k: nat, i: nat)
    requires Inv(s) && Acyclic(Declared(s))
    requires k < |s.runs| && i < |s.modules[s.runs[k]].deps| && s.modules[s.runs[k]].deps[i].Regular?
    ensures s.modules[s.runs[k]].deps[i].target in s.runs[..k]
  {
    var m, d := s.runs[k], s.modules[s.runs[k]].deps[i].target;
    assert ProvidedBefore(s, k, i);
    if (m, i) in s.skipped {
      assert OnCycle(s, m, i);
      SkippedIsOnCycle(s, m, i);
    }
  }

  lemma SkippedIsOnCycle(s: State, m: Id, i: nat)
    requires OnCycle(s, m, i)
    ensures !Acyclic(Declared(s))
  {
    var g := Declared(s);
    var d := s.modules[m].deps[i].target;
    var p :| PathFromTo(g, p, d, m) && |p| >= 2;
    assert DepIds(s.modules[m].deps)[i] == d;
    EdgePath(g, m, d);
    JoinPaths(g, p, [m, d]);
    ClosedPath(g, p + [m, d][1..]);
  }

  /** The dependencies that make modules wait: all but the three special keys. */
  ghost function RegularDeps(s: State): Graph {
    map m | m in s.modules :: RegularIds(s.modules[m].deps)
  }

  function RegularIds(deps: seq<Dep>): (ids: seq<Id>)
    ensures forall x :: x in ids <==> Regular(x) in deps
  {
    if deps == [] then []
    else
      assert forall d :: d in deps <==> d == deps[0] || d in deps[1..];
      (if deps[0].Regular? then [deps[0].target] else []) + RegularIds(deps[1..])
  }

  lemma {:induction false} PathRunsBackwards(s: State, p: seq<Id>, k: nat) returns (j: nat)
    requires Inv(s) && s.skipped == {}
    requires IsPath(RegularDeps(s), p) && k < |s.runs| && s.runs[k] == p[0]
    requires forall i | 0 <= i < |p| :: p[i] in s.modules
    ensures j <= k < |s.runs| && s.runs[j] == p[|p| - 1]
    ensures |p| >= 2 ==> j < k
    decreases |p|
  {
    if |p| == 1 {
      j := k;
    } else {
      FirstEdge(RegularDeps(s), p);
      assert Regular(p[1]) in s.modules[p[0]].deps;
      var i :| 0 <= i < |s.modules[p[0]].deps| && s.modules[p[0]].deps[i] == Regular(p[1]);
      assert ProvidedBefore(s, k, i);
      var l :| 0 <= l < k && s.runs[l] == p[1];
      j := PathRunsBackwards(s, p[1..], l);
    }
  }

  /** Once everything has run, a cycle of regular dependencies has been reported. */
  lemma RegularCycleIsReported(s: State)
    requires Inv(s) && !Acyclic(RegularDeps(s))
    requires forall m | m in s.modules :: m in s.runs
    ensures s.cycleFound
  {
    var a :| ReachesByEdges(RegularDeps(s), a, a);
    var p :| PathFromTo(RegularDeps(s), p, a, a) && |p| >= 2;
    forall i | 0 <= i < |p| ensures p[i] in s.modules {
      var j := if i < |p| - 1 then i else 0;
      assert Linked(RegularDeps(s), p, j);
    }
    var k :| 0 <= k < |s.runs| && s.runs[k] == p[0];
    if s.skipped == {} {
      var j := PathRunsBackwards(s, p, k);
    }
  }

  /** What is reported is a declared cycle, at any time. */
  lemma ReportedCycleIsDeclared(s: State)
    requires Inv(s) && s.cycleFound
    ensures !Acyclic(Declared(s))
  {
    var pair :| pair in s.skipped;
    assert OnCycle(s, pair.0, pair.1);
    SkippedIsOnCycle(s, pair.0, pair.1);
  }

  /** Nobody defined a module under one of the three special keys. */
  ghost predicate NoSpecialModules(s: State) {
    EXPORTS_ID !in s.modules && MODULE_ID !in s.modules && REQUIRE_ID !in s.modules
  }

  /** Then no cycle can lead through a special key, as that has no dependencies. */
  lemma CyclesAreRegular(s: State, p: seq<Id>)
    requires NoSpecialModules(s) && IsPath(Declared(s), p) && |p| >= 2 && p[0] == p[|p| - 1]
    ensures IsPath(RegularDeps(s), p)
  {
    forall i | 0 <= i < |p| ensures p[i] in s.modules {
      var j := if i < |p| - 1 then i else 0;
      assert Linked(Declared(s), p, j);
    }
    forall i | 0 <= i < |p| - 1 ensures Linked(RegularDeps(s), p, i) {
      assert Linked(Declared(s), p, i);
      var k :| 0 <= k < |s.modules[p[i]].deps| && s.modules[p[i]].deps[k].Id() == p[i + 1];
      assert s.modules[p[i]].deps[k] == Regular(p[i + 1]);
    }
  }

  /**
   Once everything has run: a cycle of regular dependencies is reported, a reported cycle is a
   declared one, and the two agree unless a module was defined under a special key.
   */
  lemma CycleReportIsExact(s: State)
    requires Inv(s) && forall m | m in s.modules :: m in s.runs
    ensures !Acyclic(RegularDeps(s)) ==> s.cycleFound
    ensures s.cycleFound ==> !Acyclic(Declared(s))
    ensures NoSpecialModules(s) ==> (s.cycleFound <==> !Acyclic(Declared(s)))
  {
    if s.cycleFound {
      ReportedCycleIsDeclared(s);
    }
    if !Acyclic(RegularDeps(s)) {
      RegularCycleIsReported(s);
    } else if NoSpecialModules(s) && !Acyclic(Declared(s)) {
      var a :| ReachesByEdges(Declared(s), a, a);
      var p :| PathFromTo(Declared(s), p, a, a) && |p| >= 2;
      CyclesAreRegular(s, p);
      ClosedPath(RegularDeps(s), p);
    }
  }

  // ----- When factories run

  /**
   Between `s` and `t` factories have only been added to the list of those that ran, no factory is
   on it twice, none of a module that was complete without it, and none of a module that has taken
   over the error of another one.
   */
  ghost predicate NoneLetIn(s: State, t: State) {
    && s.runs <= t.runs && Distinct(t.runs)
    && (forall m | m in Barred(s) :: m in t.modules && t.modules[m].done && m !in t.runs)
    && (forall m | m in t.modules && t.modules[m].error.Some? && t.modules[m].error.value != m :: m !in t.runs)
  }

  /** States of a manager between events, in order. */
  ghost predicate IsHistory(history: seq<State>) {
    && (forall i | 0 <= i < |history| :: Inv(history[i]) && Quiescent(history[i]))
    && (forall i, j | 0 <= i <= j < |history| :: Later(history[i], history[j], {}))
  }

  lemma HistoryStarts(failing: set<Id>, origins: set<Definition>)
    ensures IsHistory([Empty(failing, origins)])
  {
    EmptyManager(failing, origins);
    MonotoneReflexive(Empty(failing, origins), {});
  }

  lemma HistoryGrows(history: seq<State>, t: State)
    requires IsHistory(history) && history != [] && Inv(t) && Quiescent(t) && Later(history[|history| - 1], t, {})
    ensures IsHistory(history + [t])
  {
    hide Quiescent, Monotone;
    var h, last := history + [t], history[|history| - 1];
    assert t.examined.Keys == t.modules.Keys;
    hide Inv;
    MonotoneReflexive(t, {});
    forall i, j | 0 <= i <= j < |h| ensures Later(h[i], h[j], {}) {
      if i < j == |history| {
        MonotoneTransitive(h[i], last, t, {});
      }
    }
  }

  /** However long a run goes on, no factory runs twice and none of a module that failed before. */
  lemma FactoriesInHistory(history: seq<State>, i: nat, j: nat)
    requires IsHistory(history) && i <= j < |history|
    ensures NoneLetIn(history[i], history[j])
  {
    NoFactoryAfterError(history[i], history[j]);
  }

  lemma HistoryIsInformed(history: seq<State>, i: nat)
    requires IsHistory(history) && i < |history| && Informed(history[0])
    ensures Informed(history[i])
  {
    hide Informed, Advances, Inv, Quiescent;
    assert Later(history[0], history[i], {});
  }

  lemma NoFactoryAfterError(s: State, t: State)
    requires Inv(t) && Monotone(s, t, {})
    ensures NoneLetIn(s, t)
  {
    forall m | m in Barred(s) ensures m in t.modules && t.modules[m].done && m !in t.runs {
      assert m in Barred(t);
    }
    forall m | m in t.modules && t.modules[m].error.Some? && t.modules[m].error.value != m ensures m !in t.runs {
      assert ModuleOk(t, m);
    }
  }

  /** No module has both run and failed. */
  ghost predicate RunOrFailed(s: State) {
    forall m | m in s.runs :: !Failed(s, m)
  }

  /** A load error makes a module that has run a failed one exactly if it is the error of its own script. */
  lemma RunAndFailedExactly(s: State, id: Id, hit: seq<Id>)
    requires Inv(s) && RunOrFailed(s) && AllWaiting(s, id, hit)
    ensures RunOrFailed(LoadFailure(s, id, hit)) <==> id !in s.runs
  {
    var t := LoadFailure(s, id, hit);
    ReachSelf(s.inverse, id);
    assert id in s.runs ==> Failed(t, id);
    forall m | m in t.runs && m != id ensures !Failed(t, m) {
      if m in hit {
        WaitingHasNotRun(s, id, m);
      }
    }
  }

  // ----- How a run ends

  /**
   What a run with failing scripts `failing` leaves behind. Errors name failing scripts; whoever is
   incomplete waits, perhaps through others, for a culprit; everybody is complete exactly if nobody
   waits for what is missing or failed without a word; and silent modules, which are the only ones to
   do that, have taken over the error of a dependency.
   */
  ghost predicate EndsWell(s: State, failing: set<Id>) {
    && Informed(s) && (s.silent == {} ==> Told(s))
    && (forall m | Failed(s, m) :: s.modules[m].error.value in failing)
    && (forall m | m in s.modules && !s.modules[m].done ::
          exists d :: ReachesByEdges(s.inverse, d, m) && Culprit(s, d))
    && ((forall m | m in s.modules :: s.modules[m].done)
        <==> Told(s) && forall d, m | Edge(s.inverse, d, m) && !Failed(s, m) :: d in s.modules)
    && ((forall d | d in s.known :: d in s.modules) ==>
          && (s.silent == {} ==> forall m | m in s.modules :: s.modules[m].done)
          && (failing == {} ==> forall m | m in s.modules :: m in s.runs))
  }

  lemma EveryEnd(s: State)
    requires Inv(s) && Quiescent(s) && Informed(s)
    ensures EndsWell(s, s.failing)
  {
    hide Inv, Quiescent, Informed, Told, Culprit, TookOver;
    AllDoneExactly(s);
    if s.silent == {} {
      NoSilenceMeansTold(s);
    }
    forall m | Failed(s, m) ensures s.modules[m].error.value in s.failing {
      CompleteMeansRun(s, m);
    }
    forall m | m in s.modules && !s.modules[m].done
      ensures exists d :: ReachesByEdges(s.inverse, d, m) && Culprit(s, d)
    {
      IncompleteHasCulprit(s, m);
    }
    if forall d | d in s.known :: d in s.modules {
      forall m | m in s.modules && s.silent == {} ensures s.modules[m].done {
        if !s.modules[m].done {
          OnlySilenceHoldsUp(s, m);
        }
      }
      if s.failing == {} {
        NoDeadlock(s);
      }
    }
  }
}
