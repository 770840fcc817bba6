/** Two runs of the module manager in which an error is not passed on as one might expect. */
module LoaderExamples {
  import opened Common
  import opened Graphs
  import opened LoaderState
  import opened LoaderSteps
  import opened LoaderTheorems

  // ----- Module 3 needs 4, script 5 cannot be loaded, then 4 is defined and needs 5

  const CALLS := {Definition(3, [Regular(4)], false), Definition(4, [Regular(5)], false)}
  const START := Empty({4, 5}, CALLS).(maxId := 6)
  const DEFINED_3 := Define(START, 3, [Regular(4)], false)
  const WAITING := Settle(Request(Wait(DEFINED_3, 3, 4), 4), 3)
  const FAILED_5 := LoadFailure(WAITING, 5, [5])
  const DEFINED_4 := Define(FAILED_5, 4, [Regular(5)], false)
  ghost const LIMBO := Settle(TakeOver(DEFINED_4, 4, 5), 4)

  lemma StartsWell()
    ensures Inv(START) && Informed(START) && Acyclic(START.inverse)
  {
    EmptyManager({4, 5}, CALLS);
    InternKeeps(Empty({4, 5}, CALLS), 6);
    InternIsMonotone(Empty({4, 5}, CALLS), 6);
  }

  lemma DefinesWell()
    ensures Inv(DEFINED_3) && Informed(DEFINED_3) && Examining(DEFINED_3, 3) && Waitable(DEFINED_3, 3, 4)
  {
    StartsWell();
    DefineKeeps(START, 3, [Regular(4)], false);
    DefineOpens(START, 3, [Regular(4)], false);
    NobodyReached(DEFINED_3, 4, 3);
  }

  lemma WaitsWell()
    ensures Inv(WAITING) && Quiescent(WAITING) && Informed(WAITING)
  {
    hide Inv, Informed, Advances, Core, Prompt, Requested, Waitable;
    DefinesWell();
    assert !Failed(DEFINED_3, 4);
    WaitKeeps(DEFINED_3, 3, 4);
    WaitIsMonotone(DEFINED_3, 3, 4);
    var t := Wait(DEFINED_3, 3, 4);
    RequestKeeps(t, 4);
    RequestIsMonotone(t, 4);
    var u := Request(t, 4);
    assert PromptAt(u, 3);
    SettleKeeps(u, 3);
    SettleIsMonotone(u, 3);
  }

  /** No path starts at a module that is not defined. */
  lemma NobodyReached(s: State, d: Id, m: Id)
    requires d !in s.modules
    ensures !ReachesByEdges(Held(s), d, m)
  {
    forall p | PathFromTo(Held(s), p, d, m) ensures |p| < 2 {
      assert |p| >= 2 ==> Linked(Held(s), p, 0);
    }
  }

  lemma OneWaits()
    ensures WAITING.inverse == LIMBO.inverse == map[4 := [3]]
  {
    hide Unheard;
    assert [] + [3] == [3];
  }

  lemma NobodyWaitsFor5()
    ensures AllWaiting(WAITING, 5, [5])
  {
    var g := WAITING.inverse;
    OneWaits();
    ReachSelf(g, 5);
    forall x | Reaches(g, 5, x) ensures x == 5 {
      var p :| PathFromTo(g, p, 5, x);
      assert |p| >= 2 ==> Linked(g, p, 0);
    }
  }

  lemma FailsWell()
    ensures Inv(FAILED_5) && Quiescent(FAILED_5) && Informed(FAILED_5)
  {
    WaitsWell();
    NobodyWaitsFor5();
    DefineKeeps(WAITING, 5, [], false);
    var s := Define(WAITING, 5, [], false);
    FailKeeps(s, 5, 5);
    HitNobody(s, 5);
    HitOneMore(s, [], 5, 5);
    assert [] + [5] == [5];
    LoadFailureKeeps(WAITING, 5, [5]);
  }

  lemma DefinesOnFailed()
    ensures Inv(DEFINED_4) && Informed(DEFINED_4) && TakesFrom(DEFINED_4, 4, 5)
  {
    hide Inv, Informed, Advances;
    FailsWell();
    InvImpliesKeys(FAILED_5);
    DefineKeeps(FAILED_5, 4, [Regular(5)], false);
    DefineOpens(FAILED_5, 4, [Regular(5)], false);
    assert DEFINED_4.modules[4].deps[0] == Regular(5) && Failed(DEFINED_4, 5);
  }

  lemma WaitsFor4()
    ensures Unheard(DEFINED_4, 4) && Unheard(LIMBO, 4) && LIMBO.silent == {4}
  {
    OneWaits();
    assert Edge(DEFINED_4.inverse, 4, 3) && !Failed(DEFINED_4, 3);
    assert Edge(LIMBO.inverse, 4, 3) && !Failed(LIMBO, 3);
  }

  /** A module just defined takes over an error, and that is the end of its examination. */
  lemma TakesOverAndEnds(s: State, m: Id, err: Id)
    requires Inv(s) && Informed(s) && TakesFrom(s, m, err) && m in s.modules && m !in s.runs && err in s.failing
    requires s.draining == multiset{} && s.settled + {m} == s.modules.Keys
    ensures var t := Settle(TakeOver(s, m, err), m); Inv(t) && Quiescent(t) && Informed(t)
  {
    hide Inv, Informed, Advances, TakesFrom, Unheard, Traceable;
    InvImpliesKeys(s);
    TakeOverKeeps(s, m, err);
    TakeOverIsMonotone(s, m, err, {m});
    var t := TakeOver(s, m, err);
    assert PromptAt(t, m);
    SettleKeeps(t, m);
    SettleIsMonotone(t, m);
  }

  lemma LimboIsReached()
    ensures Inv(LIMBO) && Quiescent(LIMBO) && Informed(LIMBO)
  {
    DefinesOnFailed();
    hide Inv, Informed, TakesFrom, Unheard, TakeOver, Quiescent, Settle, Define;
    SettledSoFar();
    TakesOverAndEnds(DEFINED_4, 4, 5);
  }

  lemma SettledSoFar()
    ensures DEFINED_4.settled + {4} == DEFINED_4.modules.Keys && 4 in DEFINED_4.modules && 4 !in DEFINED_4.runs
    ensures 5 in DEFINED_4.failing && DEFINED_4.draining == multiset{}
  {
    assert DEFINED_4.settled == {3, 5} && DEFINED_4.modules.Keys == {3, 4, 5};
  }

  lemma InvImpliesKeys(s: State)
    requires Inv(s)
    ensures s.examined.Keys == s.modules.Keys
  {
  }

  /**
   Module 4 takes over the error of 5 without a word: 3 stays incomplete for good, although all that
   was requested is defined.
   */
  lemma LeftInLimbo()
    ensures Inv(LIMBO) && Quiescent(LIMBO) && Informed(LIMBO) && LIMBO.silent == {4}
    ensures Failed(LIMBO, 4) && LIMBO.modules[4].error == Some(5) && !LIMBO.modules[3].done && !Told(LIMBO)
    ensures forall d | d in LIMBO.known :: d in LIMBO.modules
  {
    LimboIsReached();
    WaitsFor4();
    hide Inv, Informed, Unheard;
  }

  lemma OnlyThese(x: Id)
    requires Reaches(LIMBO.inverse, 4, x)
    ensures x in [4, 3]
  {
    OneWaits();
    var g := map[4 := [3]];
    var p :| PathFromTo(g, p, 4, x);
    assert |p| >= 2 ==> Linked(g, p, 0);
    assert |p| >= 3 ==> Linked(g, p, 1);
  }

  lemma BothWait()
    ensures AllWaiting(LIMBO, 4, [4, 3])
  {
    OneWaits();
    ReachSelf(LIMBO.inverse, 4);
    ReachStep(LIMBO.inverse, 4, 4, 3);
    hide Reaches, ReachesByEdges;
    forall x | Reaches(LIMBO.inverse, 4, x) ensures x in [4, 3] {
      OnlyThese(x);
    }
  }

  /** Should the script of 4 itself fail later on, 3 is told after all. */
  lemma ToldAfterAll()
    ensures AllWaiting(LIMBO, 4, [4, 3])
    ensures Told(LoadFailure(LIMBO, 4, [4, 3])) && LoadFailure(LIMBO, 4, [4, 3]).modules[3].done
  {
    BothWait();
    OneWaits();
    var t := LoadFailure(LIMBO, 4, [4, 3]);
    forall d, m | Edge(t.inverse, d, m) ensures Failed(t, m) {
      assert m == 3;
    }
  }

  // ----- Module 3 needs nothing and runs, then its script is reported as failed

  const READY := Define(START.(failing := {3}), 3, [], false)
  const RUN_3 := Settle(Complete(READY, 3), 3)

  lemma RunsThenFails()
    ensures Inv(RUN_3) && Quiescent(RUN_3) && RunOrFailed(RUN_3) && AllWaiting(RUN_3, 3, [3])
    ensures var t := LoadFailure(RUN_3, 3, [3]); 3 in t.runs && Failed(t, 3)
  {
    EmptyManager({3}, CALLS);
    InternKeeps(Empty({3}, CALLS), 6);
    DefineKeeps(Empty({3}, CALLS).(maxId := 6), 3, [], false);
    var s := READY;
    assert Ready(s, 3);
    CompleteKeeps(s, 3);
    var t := Complete(s, 3);
    assert t.draining == multiset{};
    assert PromptAt(t, 3);
    SettleKeeps(t, 3);
    var g := RUN_3.inverse;
    ReachSelf(g, 3);
    forall x | Reaches(g, 3, x) ensures x in [3] {
      var p :| PathFromTo(g, p, 3, x);
      assert |p| >= 2 ==> Linked(g, p, 0);
    }
  }
}
