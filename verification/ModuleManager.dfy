/** The AMD module manager: modules, their counters and the lists of those waiting, updated in place. */
module ModuleManagers {
  import opened Common
  import opened Graphs
  import opened LoaderState
  import opened LoaderSteps
  import opened LoaderTheorems

  /** What happens when a script is loaded synchronously: what it defines, and whether it throws then. */
  datatype Script = Script(calls: seq<Definition>, fails: bool)

  /** What reaches the manager from outside, with no call of it under way. */
  datatype Event = OnDefine(call: Definition) | OnFailure(id: Id)

  class Module {
    const id: Id
    var dependencies: Option<seq<Dep>>
    var unresolvedDependenciesCount: int
    var isComplete: bool
    var error: Option<Id>
    var errorback: bool

    /** The object stores what `x` says. */
    ghost predicate Stores(x: Mod)
      reads this
    {
      && dependencies == (if x.held then Some(x.deps) else None)
      && unresolvedDependenciesCount == x.unresolved
      && isComplete == x.done
      && error == x.error
      && errorback == x.handler
    }

    constructor (id: Id, deps: seq<Dep>, errorback: bool)
      ensures this.id == id && Stores(Mod(deps, true, |deps|, false, None, errorback))
    {
      this.id := id;
      this.dependencies := Some(deps);
      this.unresolvedDependenciesCount := |deps|;
      this.isComplete := false;
      this.error := None;
      this.errorback := errorback;
    }

    /** Runs the factory, which is taken to return normally. */
    method Complete(ghost x: Mod)
      requires Stores(x)
      modifies this
      ensures Stores(x.(done := true, held := false, handler := false))
    {
      isComplete := true;
      dependencies := None;
      errorback := false;
    }

    method OnDependencyError(err: Id, ghost x: Mod) returns (notified: bool)
      requires Stores(x)
      modifies this
      ensures Stores(x.(done := true, error := Some(err))) && notified == x.handler
    {
      isComplete := true;
      error := Some(err);
      return errorback;
    }
  }

  /** The module objects store what the value says. */
  ghost predicate Mirrors(modules: map<Id, Module>, mods: map<Id, Mod>)
    reads modules.Values
  {
    && modules.Keys == mods.Keys
    && forall i | i in modules :: modules[i].id == i && modules[i].Stores(mods[i])
  }

  ghost predicate SubMap(a: map<Id, Module>, b: map<Id, Module>) {
    forall i | i in a :: i in b && b[i] == a[i]
  }

  lemma SubMapReflexive(a: map<Id, Module>)
    ensures SubMap(a, a)
  {
  }

  lemma SubMapTransitive(a: map<Id, Module>, b: map<Id, Module>, c: map<Id, Module>)
    requires SubMap(a, b) && SubMap(b, c)
    ensures SubMap(a, c)
  {
  }

  /**
   Scripts that fail while another module asks for them are among those that cannot be loaded, and
   what scripts define is among the calls that can be made.
   */
  ghost predicate Foreseen(scripts: map<Id, Script>, failing: set<Id>, origins: set<Definition>) {
    && (forall i | i in scripts && scripts[i].fails :: i in failing)
    && (forall i, call | i in scripts && call in scripts[i].calls :: call in origins)
  }

  // ----- What events and calls come to

  /** A call: a module that was there already stays as it is, a new one has the dependencies and the handler given. */
  ghost predicate Took(s: State, call: Definition, t: State) {
    && call.id in t.modules
    && (call.id in s.modules ==> t == s)
    && (call.id !in s.modules ==>
          && t.modules[call.id].deps == call.deps
          && (call.id !in t.runs ==> t.modules[call.id].handler == call.handler))
  }

  /** Calls, one after the other. */
  ghost predicate Evaluated(s: State, calls: seq<Definition>, steps: seq<State>, t: State) {
    && |steps| == |calls| + 1 && steps[0] == s && steps[|calls|] == t
    && forall i | 0 <= i < |calls| :: Took(steps[i], calls[i], steps[i + 1])
  }

  /** The modules waiting for `m`, in the order in which they began to. */
  ghost function WaitingFor(s: State, m: Id): seq<Id> {
    if m in s.inverse then s.inverse[m] else []
  }

  /** One fetched entry: if it was the last thing that held up its module, that module runs next. */
  ghost predicate ResolvedOne(s: State, y: Id, t: State) {
    y in s.modules
    && if s.modules[y].unresolved == 1 && !s.modules[y].done then s.runs + [y] <= t.runs else t == Drain(s, y)
  }

  /** Fetched entries, one after the other. */
  ghost predicate Resolved(s: State, waiting: seq<Id>, steps: seq<State>, t: State) {
    && |steps| == |waiting| + 1 && steps[0] == s && steps[|waiting|] == t
    && forall i | 0 <= i < |waiting| :: ResolvedOne(steps[i], waiting[i], steps[i + 1])
  }

  lemma NoneResolved(s: State)
    ensures Resolved(s, [], [s], s)
  {
  }

  lemma OneMoreResolved(s: State, waiting: seq<Id>, i: nat, steps: seq<State>, t: State, u: State)
    requires i < |waiting| && Resolved(s, waiting[..i], steps, t) && ResolvedOne(t, waiting[i], u)
    ensures Resolved(s, waiting[..i + 1], steps + [u], u)
  {
    hide ResolvedOne;
    var more, q := steps + [u], waiting[..i + 1];
    forall j | 0 <= j < |q| ensures ResolvedOne(more[j], q[j], more[j + 1]) {
      if j < i {
        assert ResolvedOne(steps[j], waiting[..i][j], steps[j + 1]);
      }
    }
  }

  lemma CompletionIsKept(s: State, t: State, m: Id)
    requires Monotone(s, t, {}) && m in s.modules && s.modules[m].done
    ensures s.runs <= t.runs && m in t.modules && t.modules[m].done
  {
  }

  /** The failure of a script: its error has reached its own module and exactly those that waited for it. */
  ghost predicate Spread(s: State, id: Id, t: State) {
    && t.modules.Keys == s.modules.Keys + {id} && (id !in s.modules ==> t.modules[id].deps == [])
    && t.runs == s.runs && t.inverse == s.inverse && t.known == s.known
    && Failed(t, id) && (forall x | Reaches(s.inverse, id, x) :: Failed(t, x))
    && (forall x | x in t.modules ::
          if Reaches(s.inverse, id, x) then t.modules[x].done && t.modules[x].error == Some(id)
          else x in s.modules && t.modules[x] == s.modules[x])
  }

  /** A script: its calls, then its failure if it throws. */
  ghost predicate Loaded(s: State, script: Script, id: Id, steps: seq<State>, t: State) {
    && |steps| > 0 && Evaluated(s, script.calls, steps, steps[|steps| - 1])
    && if script.fails then Spread(steps[|steps| - 1], id, t) else t == steps[|steps| - 1]
  }

  /** An event. */
  ghost predicate Handled(s: State, event: Event, t: State) {
    match event
    case OnDefine(call) => Took(s, call, t)
    case OnFailure(id) => Spread(s, id, t)
  }

  class ModuleManager {
    var maxId: nat
    var modules: map<Id, Module>
    var known: set<Id>
    var inverse: Graph
    var hasDependencyCycle: bool

    /** The manager as a value, with its history, the scripts that cannot be loaded, and the calls that can be made. */
    ghost var state: State
    ghost const failing: set<Id>
    ghost const origins: set<Definition>
    ghost var Repr: set<object>

    ghost predicate WellFormed()
      reads this, Repr
      ensures WellFormed() ==> this in Repr
    {
      && this in Repr
      && maxId == state.maxId && known == state.known && inverse == state.inverse
      && hasDependencyCycle == state.cycleFound && failing == state.failing && origins == state.origins
      && modules.Values <= Repr && modules.Keys == state.modules.Keys
      && Mirrors(modules, state.modules)
    }

    ghost predicate Valid()
      reads this, Repr
      ensures Valid() ==> this in Repr
    {
      WellFormed() && Inv(state)
    }

    constructor (ghost failing: set<Id>, ghost origins: set<Definition>)
      ensures Valid() && fresh(Repr) && this.failing == failing && this.origins == origins
      ensures state == Empty(failing, origins)
    {
      maxId := 3;
      modules := map[];
      known := {};
      inverse := map[];
      hasDependencyCycle := false;
      this.failing := failing;
      this.origins := origins;
      state := Empty(failing, origins);
      Repr := {this};
      EmptyManager(failing, origins);
    }

    /** The graph that the search walks, in terms of the stored dependency lists. */
    lemma HeldAt(x: Id)
      requires WellFormed() && x in modules
      ensures Held(state).Keys <= modules.Keys
      ensures match modules[x].dependencies
              case Some(deps) => x in Held(state) && Held(state)[x] == DepIds(deps)
              case None => x !in Held(state)
    {
    }

    /** Whether a non-empty dependency path leads from one module to another, by breadth-first search. */
    method HasDependencyPath(fromId: Id, toId: Id) returns (found: bool)
      requires WellFormed()
      ensures found <==> ReachesByEdges(Held(state), fromId, toId)
    {
      ghost var g := Held(state);
      if fromId !in modules {
        NoWayOut(g, fromId, toId);
        return false;
      }
      var inQueue := {fromId};
      var queue := [fromId];
      ReachSelf(g, fromId);
      while queue != []
        invariant Frontier(g, modules.Keys, inQueue, queue, fromId, toId, {})
        decreases modules.Keys - inQueue, |queue|
      {
        Dequeue(g, modules.Keys, inQueue, queue, fromId, toId);
        var element := queue[0];
        queue := queue[1..];
        HeldAt(element);
        var dependencies := modules[element].dependencies;
        if dependencies.Some? {
          found, inQueue, queue := WalkDependencies(g, element, DepIds(dependencies.value), modules.Keys,
                                                    inQueue, queue, fromId, toId);
          if found {
            ReachStep(g, fromId, element, toId);
            return true;
          }
        } else {
          FinishElement(g, modules.Keys, inQueue, queue, fromId, toId, element);
        }
      }
      NothingLeftToSearch(g, modules.Keys, inQueue, fromId, toId);
      return false;
    }

    ghost predicate Has(m: Module)
      reads this
    {
      m.id in modules && modules[m.id] == m
    }

    // ----- Updates of a single module, seen from the manager

    method DecrementUnresolved(m: Module)
      requires WellFormed() && Has(m)
      modifies m, this`state
      ensures WellFormed() && state == Decrement(old(state), m.id)
    {
      m.unresolvedDependenciesCount := m.unresolvedDependenciesCount - 1;
      state := Decrement(state, m.id);
    }

    method PassOver(m: Module)
      requires Valid() && Has(m) && Examining(state, m.id) && Passable(state, m.id)
      modifies m, this`state
      ensures Valid() && state == Pass(old(state), m.id) && Monotone(old(state), state, {m.id})
    {
      hide Inv, Monotone, Mirrors;
      ghost var s := state;
      PassKeeps(s, m.id);
      PassIsMonotone(s, m.id);
      DecrementUnresolved(m);
      state := Pass(s, m.id);
    }

    method BreakCycle(m: Module)
      requires Valid() && Has(m) && Examining(state, m.id) && OnCycle(state, m.id, state.examined[m.id])
      modifies m, this`state, this`hasDependencyCycle
      ensures Valid() && state == Skip(old(state), m.id) && Monotone(old(state), state, {m.id})
    {
      hide Inv, Monotone, Mirrors, OnCycle;
      ghost var s := state;
      SkipKeeps(s, m.id);
      PassIsMonotone(s, m.id);
      DecrementUnresolved(m);
      hasDependencyCycle := true;
      state := Skip(s, m.id);
    }

    method RecordInverse(m: Module, d: Id)
      requires Valid() && Has(m) && Examining(state, m.id) && Waitable(state, m.id, d)
      modifies this`state, this`inverse
      ensures WellFormed() && state == Wait(old(state), m.id, d) && Monotone(old(state), state, {m.id})
      ensures Core(state) && Prompt(state, {}) && Requested(state, {d})
    {
      hide Inv, Monotone, Core, Prompt, Requested, Mirrors;
      WaitKeeps(state, m.id, d);
      WaitIsMonotone(state, m.id, d);
      inverse := inverse[d := (if d in inverse then inverse[d] else []) + [m.id]];
      state := Wait(state, m.id, d);
    }

    method TakeError(m: Module, err: Id)
      requires Valid() && Has(m) && err in state.failing && m.id !in state.runs && TakesFrom(state, m.id, err)
      modifies m, this`state
      ensures Valid() && state == TakeOver(old(state), m.id, err) && Monotone(old(state), state, {m.id})
    {
      hide Inv, Monotone, TakesFrom, Unheard, Mirrors;
      ghost var s := state;
      TakeOverKeeps(s, m.id, err);
      ValidState();
      TakeOverIsMonotone(s, m.id, err, {m.id});
      var _ := Blame(m, err);
      state := TakeOver(s, m.id, err);
    }

    method Blame(m: Module, err: Id) returns (notified: bool)
      requires WellFormed() && Has(m)
      modifies m, this`state
      ensures WellFormed() && state == Fail(old(state), m.id, err)
      ensures notified == state.modules[m.id].handler
    {
      notified := m.OnDependencyError(err, state.modules[m.id]);
      state := Fail(state, m.id, err);
    }

    /** Resolves one fetched entry. */
    method ResolveEntry(m: Module)
      requires WellFormed() && Has(m)
      modifies m, this`state
      ensures WellFormed() && state == Drain(old(state), m.id)
    {
      hide Mirrors;
      ghost var s := state;
      DecrementUnresolved(m);
      state := Drain(s, m.id);
    }

    /** Runs the factory and fetches the list of those waiting. */
    method CompleteModule(m: Module) returns (inverseDeps: seq<Id>)
      requires WellFormed() && Has(m)
      modifies m, this`state, this`inverse
      ensures WellFormed() && state == LoaderSteps.Complete(old(state), m.id)
      ensures state.draining == old(state).draining + multiset(inverseDeps)
      ensures inverseDeps == WaitingFor(old(state), m.id)
    {
      m.Complete(state.modules[m.id]);
      inverseDeps := if m.id in inverse then inverse[m.id] else [];
      inverse := inverse - {m.id};
      state := LoaderSteps.Complete(state, m.id);
    }

    /** Completes a module and, through those waiting for it, whatever that makes ready. */
    method OnModuleComplete(m: Module) returns (ghost steps: seq<State>)
      requires WellFormed() && Has(m)
      requires Core(state) && Prompt(state, {m.id}) && Requested(state, {})
      requires m.isComplete || Ready(state, m.id)
      modifies Repr
      ensures Valid() && Repr == old(Repr) && modules == old(modules) && known == old(known)
      ensures Later(old(state), state, {}) && m.isComplete
      ensures old(m.isComplete) ==> state == old(state)
      ensures !old(m.isComplete) ==> old(state).runs + [m.id] <= state.runs
      ensures !old(m.isComplete) ==>
        Resolved(LoaderSteps.Complete(old(state), m.id), WaitingFor(old(state), m.id), steps, state)
      decreases Pending(state), 0
    {
      hide Inv, Core, Requested, Prompt, Monotone, Resolved, Pending;
      ghost var s := state;
      if m.isComplete {
        NothingToComplete(s, m.id);
        return [];
      }
      var inverseDeps := CompleteModule(m);
      CompleteKeeps(s, m.id);
      CompleteIsMonotone(s, m.id);
      PendingShrinks(s, state, m.id);
      ghost var t := state;
      steps := ResolveInverses(inverseDeps);
      CompletionIsKept(t, state, m.id);
      MonotoneTransitive(s, t, state, {});
    }

    /** Resolves a fetched list, one entry at a time and in order. */
    method ResolveInverses(inverseDeps: seq<Id>) returns (ghost steps: seq<State>)
      requires Valid() && multiset(inverseDeps) <= state.draining
      modifies Repr
      ensures Valid() && Repr == old(Repr) && modules == old(modules) && known == old(known)
      ensures state.modules.Keys == old(state).modules.Keys
      ensures Monotone(old(state), state, {}) && state.draining == old(state).draining - multiset(inverseDeps)
      ensures Resolved(old(state), inverseDeps, steps, state)
      decreases Pending(state), 2
    {
      hide Inv, Monotone, Pending, Valid, WellFormed, Resolved, ResolvedOne;
      ghost var s := state;
      ValidState();
      MonotoneReflexive(s, {});
      NoneResolved(s);
      steps := [s];
      for i := 0 to |inverseDeps|
        invariant Valid() && Repr == old(Repr) && modules == old(modules) && known == old(known)
        invariant state.modules.Keys == s.modules.Keys
        invariant Monotone(s, state, {}) && state.draining == s.draining - multiset(inverseDeps[..i])
        invariant Resolved(s, inverseDeps[..i], steps, state)
      {
        EntryIsLeft(s.draining, inverseDeps, i);
        ghost var t := state;
        PendingNeverGrows(s, t);
        ResolveInverse(inverseDeps[i]);
        MonotoneTransitive(s, t, state, {});
        OneMoreResolved(s, inverseDeps, i, steps, t, state);
        steps := steps + [state];
      }
      assert inverseDeps[..|inverseDeps|] == inverseDeps;
    }

    lemma ValidState()
      requires Valid()
      ensures WellFormed() && Inv(state)
      ensures state.examined.Keys == state.modules.Keys == modules.Keys && state.settled <= modules.Keys
      ensures inverse == state.inverse && known == state.known && maxId == state.maxId
    {
    }

    lemma StoredAt(x: Id)
      requires Valid() && x in modules
      ensures x in state.modules && modules[x] in Repr && modules[x].id == x && modules[x].Stores(state.modules[x])
    {
    }

    lemma WaitersAreDefined()
      requires Valid()
      ensures forall d, y | Edge(inverse, d, y) :: y in modules
    {
    }

    /** Takes one fetched entry off the counter of its module, which may thereby become ready. */
    method ResolveInverse(y: Id)
      requires Valid() && y in state.draining
      modifies Repr
      ensures Valid() && Repr == old(Repr) && modules == old(modules) && known == old(known)
      ensures state.modules.Keys == old(state).modules.Keys
      ensures Monotone(old(state), state, {}) && state.draining == old(state).draining - multiset{y}
      ensures ResolvedOne(old(state), y, state)
      decreases Pending(state), 1
    {
      hide Inv, Core, Requested, Prompt, Resolved;
      ghost var s := state;
      DrainIsMonotone(s, y);
      DrainKeeps(s, y);
      var inverseDependency := modules[y];
      ResolveEntry(inverseDependency);
      if inverseDependency.unresolvedDependenciesCount == 0 {
        ghost var steps := OnModuleComplete(inverseDependency);
        MonotoneTransitive(s, Drain(s, y), state, {});
      }
    }

    /** Adds a module object for `id`. */
    method AddModule(id: Id, deps: seq<Dep>, handler: bool) returns (m: Module)
      requires WellFormed() && id !in modules
      modifies this`modules, this`state, this`Repr
      ensures WellFormed() && fresh(Repr - old(Repr)) && SubMap(old(modules), modules) && Has(m) && m.id == id
      ensures state == Define(old(state), id, deps, handler)
    {
      m := new Module(id, deps, handler);
      modules := modules[id := m];
      Repr := Repr + {m};
      state := Define(state, id, deps, handler);
    }

    /** Passes the error of `id` to one more module. */
    method BlameNext(id: Id, x: Id, ghost base: State, ghost hit: seq<Id>) returns (notified: bool)
      requires Valid() && state == Hit(base, hit, id) && x in modules && id in failing && Reaches(inverse, id, x)
      modifies modules[x], this`state
      ensures Valid() && state == Hit(base, hit + [x], id)
      ensures notified == base.modules[x].handler
    {
      if x != id {
        WaitingHasNotRun(state, id, x);
      }
      FailKeeps(state, x, id);
      HitOneMore(base, hit, x, id);
      HitHandlers(base, hit, x, id);
      notified := Blame(modules[x], id);
    }

    /**
     A script could not be loaded: the error goes to all modules that wait for it, directly or not,
     and to the global handler if none of them has a handler of its own.
     */
    method OnLoadError(id: Id) returns (reported: bool, ghost visited: seq<Id>)
      requires Valid() && id < maxId && id in failing
      modifies Repr
      ensures Valid() && fresh(Repr - old(Repr)) && SubMap(old(modules), modules) && known == old(known)
      ensures Distinct(visited) && id in visited && forall x :: x in visited <==> Reaches(old(inverse), id, x)
      ensures state == LoadFailure(old(state), id, visited) && Later(old(state), state, {})
      ensures Spread(old(state), id, state)
      ensures reported <==> !SomeHandler(state, visited)
    {
      hide Inv, Later, Hit, SomeHandler, Mirrors, Spread;
      ghost var s := state;
      if id !in modules {
        DefineKeeps(s, id, [], false);
        var m := AddModule(id, [], false);
      }
      ghost var base := state;
      reported, visited := SpreadError(id);
      ReachSelf(old(inverse), id);
      assert id in visited;
      LoadFailureKeeps(s, id, visited);
      InvImpliesWaits(s);
      LoadFailureSpreads(s, id, visited);
      state := LoadFailure(s, id, visited);
    }

    /** Passes the error of `id` on, breadth first, to whoever is held up by it. */
    method SpreadError(id: Id) returns (reported: bool, ghost visited: seq<Id>)
      requires Valid() && id in modules && id in failing
      modifies Repr
      ensures Valid() && Repr == old(Repr) && modules == old(modules) && known == old(known)
      ensures Distinct(visited) && forall x :: x in visited <==> Reaches(old(inverse), id, x)
      ensures state == Hit(old(state), visited, id)
      ensures reported <==> !SomeHandler(old(state), visited)
    {
      hide Inv, Hit, Wave, SomeHandler, WellFormed;
      ghost var base := state;
      ValidState();
      HitNobody(base, id);
      WaveStarts(inverse, id);
      var someoneNotified := false;
      var seen, queue := {id}, [id];
      ghost var order := [id];
      ghost var k := 0;
      while queue != []
        invariant Valid() && Repr == old(Repr) && modules == old(modules)
        invariant known == old(known) && inverse == old(inverse)
        invariant k <= |order| && Wave(inverse, id, order, k, seen) && seen <= modules.Keys && queue == order[k..]
        invariant state == Hit(base, order[..k], id)
        invariant someoneNotified <==> SomeHandler(base, order[..k])
        decreases modules.Keys - seen, |queue|
      {
        WaveFront(inverse, id, order, k, seen);
        var x := queue[0];
        StoredAt(x);
        PrefixGrows(order, k);
        HitHandlers(base, order[..k], x, id);
        var notified := BlameNext(id, x, base, order[..k]);
        someoneNotified := notified || someoneNotified;
        WaitersAreDefined();
        var inverseDeps := if x in inverse then inverse[x] else [];
        assert forall y | y in inverseDeps :: Edge(inverse, x, y);
        seen, queue, order := WalkInverse(inverse, id, order, k, inverseDeps, seen, queue[1..], modules.Keys);
        k := k + 1;
      }
      visited := order;
      assert order[..k] == order;
      WaveEnds(inverse, id, visited, seen);
      reported := !someoneNotified;
    }

    /** Marks a script as requested, unless it already is. */
    method MarkKnown(id: Id) returns (isNew: bool)
      requires WellFormed() && state.examined.Keys == state.modules.Keys
      requires Core(state) && Prompt(state, {}) && Requested(state, {id})
      modifies this`known, this`state
      ensures Valid() && isNew == (id !in modules && id !in old(known))
      ensures known == (if isNew then old(known) + {id} else old(known)) && Later(old(state), state, {})
      ensures state == if isNew then Request(old(state), id) else old(state)
    {
      hide Inv, Core, Prompt, Requested, Monotone, Mirrors;
      if id in modules || id in known {
        AlreadyRequested(state, id);
        MonotoneReflexive(state, {});
        return false;
      }
      RequestKeeps(state, id);
      RequestIsMonotone(state, id);
      known := known + {id};
      state := Request(state, id);
      return true;
    }

    /** Requests a script; it may be evaluated, or fail, before this returns. */
    method LoadModule(scripts: map<Id, Script>, id: Id) returns (ghost steps: seq<State>)
      requires Foreseen(scripts, failing, origins)
      requires WellFormed() && id < state.maxId && state.examined.Keys == state.modules.Keys
      requires Core(state) && Prompt(state, {}) && Requested(state, {id})
      modifies Repr
      ensures Valid() && fresh(Repr - old(Repr)) && SubMap(old(modules), modules) && old(known) <= known
      ensures Later(old(state), state, {})
      ensures id in modules || id in known
      ensures var isNew := id !in old(modules) && id !in old(known);
        && (!isNew ==> state == old(state))
        && (isNew && id !in scripts ==> state == Request(old(state), id))
        && (isNew && id in scripts ==> Loaded(Request(old(state), id), scripts[id], id, steps, state))
      decreases |scripts.Keys - known|, 0
    {
      hide Inv, Core, Prompt, Requested, Monotone, Mirrors, SubMap, WellFormed, Valid, Loaded, Foreseen;
      ghost var s := state;
      SubMapReflexive(modules);
      var isNew := MarkKnown(id);
      steps := [];
      if isNew && id in scripts {
        FewerLeft(scripts.Keys, old(known), known, id);
        ghost var t := state;
        IdsAreKept(s, t);
        steps := LoadScript(scripts, id);
        MonotoneTransitive(s, t, state, {});
      }
    }

    /** Evaluates a script; it may throw after its `define` calls. */
    method LoadScript(scripts: map<Id, Script>, id: Id) returns (ghost steps: seq<State>)
      requires Foreseen(scripts, failing, origins) && Valid() && id < state.maxId && id in scripts
      modifies Repr
      ensures Valid() && fresh(Repr - old(Repr)) && SubMap(old(modules), modules) && old(known) <= known
      ensures Later(old(state), state, {}) && Loaded(old(state), scripts[id], id, steps, state)
      decreases |scripts.Keys - known|, 10
    {
      hide Inv, Monotone, Mirrors, SubMap, WellFormed, Valid, LoadFailure, SomeHandler, Distinct, Spread, AllWaiting;
      ghost var s := state;
      steps := Evaluate(scripts, scripts[id].calls);
      if scripts[id].fails {
        ghost var u, before := state, modules;
        IdsAreKept(s, u);
        ValidState();
        var reported, visited := OnLoadError(id);
        SubMapTransitive(old(modules), before, modules);
        MonotoneTransitive(s, u, state, {});
      }
    }

    /** Examines a dependency of a module on one that is not complete. */
    method ExamineIncomplete(scripts: map<Id, Script>, m: Module, d: Id)
      requires Foreseen(scripts, failing, origins)
      requires Valid() && Has(m) && Examining(state, m.id) && d !in state.runs && !Failed(state, d)
      requires state.modules[m.id].deps[state.examined[m.id]] == Regular(d)
      modifies Repr
      ensures Valid() && fresh(Repr - old(Repr)) && SubMap(old(modules), modules) && old(known) <= known
      ensures Later(old(state), state, {m.id}) && m.id in state.examined && m.id !in state.settled
      ensures state.examined[m.id] == old(state).examined[m.id] + 1
      decreases |scripts.Keys - known|, 2
    {
      hide Inv, Monotone, WellFormed, Valid, OnCycle, SubMap, Mirrors, Held;
      ghost var s := state;
      ValidState();
      SubMapReflexive(modules);
      var leadsBack := HasDependencyPath(d, m.id);
      if leadsBack {
        FoundPathIsCycle(s, m.id, d);
        BreakCycle(m);
      } else {
        DependencyIdsAreKnown(s, m.id);
        WaitFor(scripts, m, d);
      }
    }

    /** Records that a module waits for another one, and requests the latter. */
    method WaitFor(scripts: map<Id, Script>, m: Module, d: Id)
      requires Foreseen(scripts, failing, origins)
      requires Valid() && Has(m) && Examining(state, m.id) && Waitable(state, m.id, d)
      modifies Repr
      ensures Valid() && fresh(Repr - old(Repr)) && SubMap(old(modules), modules) && old(known) <= known
      ensures Later(old(state), state, {m.id}) && m.id in state.examined && m.id !in state.settled
      ensures state.examined[m.id] == old(state).examined[m.id] + 1
      decreases |scripts.Keys - known|, 1
    {
      hide Inv, Monotone, WellFormed, Valid, Core, Prompt, Requested, OnCycle, SubMap, Mirrors, Held;
      ghost var s := state;
      ValidState();
      RecordInverse(m, d);
      ghost var t := state;
      ghost var steps := LoadModule(scripts, d);
      MonotoneWeaken(t, state, {m.id});
      MonotoneTransitive(s, t, state, {m.id});
      ExaminationIsKept(t, state, m.id);
    }

    /** Examines one dependency of a module. */
    method ExamineDependency(scripts: map<Id, Script>, m: Module, dep: Dep) returns (failed: bool)
      requires Foreseen(scripts, failing, origins)
      requires Valid() && Has(m) && Examining(state, m.id)
      requires dep == state.modules[m.id].deps[state.examined[m.id]]
      modifies Repr
      ensures Valid() && fresh(Repr - old(Repr)) && SubMap(old(modules), modules) && old(known) <= known
      ensures Later(old(state), state, {m.id}) && m.id in state.examined && m.id !in state.settled
      ensures failed <==> dep.Regular? && Failed(old(state), dep.target)
      ensures failed ==> state == TakeOver(old(state), m.id, old(state).modules[dep.target].error.value)
      ensures if failed then PromptAt(state, m.id)
              else state.examined[m.id] == old(state).examined[m.id] + 1
      decreases |scripts.Keys - known|, 3
    {
      hide Inv, Monotone, WellFormed, Valid, SubMap, Mirrors;
      ValidState();
      SubMapReflexive(modules);
      failed := false;
      if !dep.Regular? {
        PassOver(m);
      } else {
        var d := dep.target;
        CompleteMeansRun(state, d);
        if d in modules { StoredAt(d); }
        if !(d in modules && modules[d].isComplete) {
          ExamineIncomplete(scripts, m, d);
        } else if modules[d].error.Some? {
          DependencyIdsAreKnown(state, m.id);
          TakeError(m, modules[d].error.value);
          failed := true;
        } else {
          PassOver(m);
        }
      }
    }

    /** Looks at what a new module depends on, and completes it if nothing holds it up. */
    method Resolve(scripts: map<Id, Script>, m: Module)
      requires Foreseen(scripts, failing, origins)
      requires Valid() && Has(m) && m.id in state.examined && state.examined[m.id] == 0 && m.id !in state.settled
      requires m.dependencies == Some(state.modules[m.id].deps)
      modifies Repr
      ensures Valid() && fresh(Repr - old(Repr)) && SubMap(old(modules), modules) && old(known) <= known
      ensures Later(old(state), state, {m.id}) && m.id in state.settled
      decreases |scripts.Keys - known|, 6
    {
      hide Inv, Monotone, WellFormed, Valid, SubMap, Mirrors;
      ghost var s := state;
      var done := ExamineDependencies(scripts, m, m.dependencies.value);
      if !done {
        ghost var t := state;
        CompleteIfResolved(m);
        MonotoneTransitive(s, t, state, {m.id});
      }
      ValidState();
      Close(m, s);
    }

    /** Examines the dependencies one by one, until one turns out to have failed. */
    method ExamineDependencies(scripts: map<Id, Script>, m: Module, dependencies: seq<Dep>) returns (failed: bool)
      requires Foreseen(scripts, failing, origins)
      requires Valid() && Has(m) && m.id in state.examined && state.examined[m.id] == 0 && m.id !in state.settled
      requires dependencies == state.modules[m.id].deps
      modifies Repr
      ensures Valid() && fresh(Repr - old(Repr)) && SubMap(old(modules), modules) && old(known) <= known
      ensures Later(old(state), state, {m.id}) && m.id in state.examined && m.id !in state.settled && Has(m)
      ensures if failed then m.id in state.modules && PromptAt(state, m.id)
              else m.id in state.modules && state.examined[m.id] == |state.modules[m.id].deps|
      decreases |scripts.Keys - known|, 5
    {
      hide Inv, Monotone, WellFormed, Valid, SubMap, Mirrors, Foreseen, PromptAt;
      ghost var s := state;
      ValidState();
      MonotoneReflexive(s, {m.id});
      SubMapReflexive(modules);
      for i := 0 to |dependencies|
        invariant Valid() && fresh(Repr - old(Repr)) && SubMap(old(modules), modules) && old(known) <= known
        invariant Later(s, state, {m.id}) && m.id in state.examined && m.id !in state.settled && Has(m)
        invariant m.id in state.modules && state.examined[m.id] == i && state.modules[m.id].deps == dependencies
      {
        SubsetIsSmaller(scripts.Keys - known, scripts.Keys - old(known));
        failed := ExamineNext(scripts, m, dependencies, i, old(modules), s);
        if failed {
          return;
        }
      }
      failed := false;
    }

    /** Examines dependency `i`, in a loop that began in `s` with the modules in `first`. */
    method ExamineNext(scripts: map<Id, Script>, m: Module, dependencies: seq<Dep>, i: nat,
                       ghost first: map<Id, Module>, ghost s: State) returns (failed: bool)
      requires Foreseen(scripts, failing, origins)
      requires Valid() && Has(m) && SubMap(first, modules) && Later(s, state, {m.id})
      requires m.id in state.modules && m.id in state.examined && m.id !in state.settled
      requires dependencies == state.modules[m.id].deps && state.examined[m.id] == i < |dependencies|
      modifies Repr
      ensures Valid() && fresh(Repr - old(Repr)) && SubMap(first, modules) && old(known) <= known
      ensures Later(s, state, {m.id}) && m.id in state.examined && m.id !in state.settled && Has(m)
      ensures m.id in state.modules && state.modules[m.id].deps == dependencies
      ensures if failed then PromptAt(state, m.id) else state.examined[m.id] == i + 1
      decreases |scripts.Keys - known|, 4
    {
      hide Inv, Monotone, WellFormed, Valid, SubMap, Mirrors, Foreseen, PromptAt, TakeOver, Failed;
      ghost var t, before := state, modules;
      failed := ExamineDependency(scripts, m, dependencies[i]);
      StillThere(m, first, before, s, t);
    }

    lemma StillThere(m: Module, first: map<Id, Module>, before: map<Id, Module>, s: State, t: State)
      requires SubMap(first, before) && SubMap(before, modules) && m.id in before && before[m.id] == m
      requires Later(s, t, {m.id}) && Later(t, state, {m.id}) && m.id in t.modules
      ensures SubMap(first, modules) && Has(m) && Later(s, state, {m.id})
      ensures m.id in state.modules && state.modules[m.id].deps == t.modules[m.id].deps
    {
      MonotoneTransitive(s, t, state, {m.id});
    }

    /** Completes a module whose examination left nothing to wait for. */
    method CompleteIfResolved(m: Module)
      requires Valid() && Has(m) && m.id in state.examined && m.id in state.modules
      requires state.examined[m.id] == |state.modules[m.id].deps|
      modifies Repr
      ensures Valid() && Repr == old(Repr) && modules == old(modules) && known == old(known)
      ensures Later(old(state), state, {m.id}) && PromptAt(state, m.id)
    {
      hide Inv, Monotone, WellFormed, Valid, Core, Prompt, Requested, Mirrors;
      ValidState();
      StoredAt(m.id);
      ghost var s := state;
      MonotoneReflexive(s, {m.id});
      ExaminedToTheEnd(s, m.id);
      if m.unresolvedDependenciesCount == 0 {
        ghost var steps := OnModuleComplete(m);
        MonotoneWeaken(s, state, {m.id});
        ValidState();
        StoredAt(m.id);
      }
    }

    /** The examination of `m` is over. */
    ghost method Close(m: Module, s: State)
      requires Valid() && Has(m) && PromptAt(state, m.id) && Later(s, state, {m.id})
      modifies this`state
      ensures Valid() && state == Settle(old(state), m.id) && Later(s, state, {m.id})
    {
      hide Inv, Monotone, Mirrors;
      SettleKeeps(state, m.id);
      SettleIsMonotone(state, m.id);
      MonotoneTransitive(s, state, Settle(state, m.id), {m.id});
      state := Settle(state, m.id);
    }

    /** The ids of a new module and its dependencies have been handed out. */
    method Intern(id: Id, deps: seq<Dep>)
      requires Valid()
      modifies this`maxId, this`state
      ensures Valid() && Later(old(state), state, {}) && Definable(state.(modules := map[]), id, deps)
      ensures state == old(state).(maxId := state.maxId)
    {
      hide Inv, Monotone, Mirrors;
      var n := Max(maxId, id + 1);
      for i := 0 to |deps|
        invariant n >= maxId && n > id && forall j | 0 <= j < i :: deps[j].Id() < n
      {
        n := Max(n, deps[i].Id() + 1);
      }
      InternKeeps(state, n);
      ValidState();
      InternIsMonotone(state, n);
      state := state.(maxId := n);
      maxId := n;
    }

    /** Defines a module and begins resolving its dependencies; a second definition is ignored. */
    method DefineModule(scripts: map<Id, Script>, id: Id, deps: seq<Dep>, handler: bool)
      requires Foreseen(scripts, failing, origins) && Valid() && Definition(id, deps, handler) in origins
      modifies Repr
      ensures Valid() && fresh(Repr - old(Repr)) && SubMap(old(modules), modules) && old(known) <= known
      ensures Later(old(state), state, {}) && Took(old(state), Definition(id, deps, handler), state)
      decreases |scripts.Keys - known|, 8
    {
      hide Inv, Monotone, WellFormed, Valid, SubMap, Mirrors, Foreseen;
      ghost var s := state;
      ValidState();
      SubMapReflexive(modules);
      if id in modules {
        MonotoneReflexive(s, {});
        return;
      }
      Intern(id, deps);
      ghost var t := state;
      AddAndResolve(scripts, id, deps, handler);
      MonotoneTransitive(s, t, state, {});
    }

    /** Adds a module that is not there yet and resolves it. */
    method AddAndResolve(scripts: map<Id, Script>, id: Id, deps: seq<Dep>, handler: bool)
      requires Foreseen(scripts, failing, origins)
      requires Valid() && id !in modules && Definable(state.(modules := map[]), id, deps)
      requires Definition(id, deps, handler) in origins
      modifies Repr
      ensures Valid() && fresh(Repr - old(Repr)) && SubMap(old(modules), modules) && old(known) <= known
      ensures Later(old(state), state, {}) && Took(old(state), Definition(id, deps, handler), state)
      decreases |scripts.Keys - known|, 7
    {
      hide Inv, Monotone, WellFormed, Valid, SubMap, Mirrors, Foreseen;
      ghost var t := state;
      ValidState();
      DefineKeeps(t, id, deps, handler);
      var m := AddModule(id, deps, handler);
      ghost var u, before := state, modules;
      FreshlyDefined(m, t, deps, handler);
      Resolve(scripts, m);
      SubMapTransitive(old(modules), before, modules);
      DefinedAndResolved(t, id, deps, handler, state);
      DefinitionIsKept(u, state, {id}, id);
    }

    lemma FreshlyDefined(m: Module, s: State, deps: seq<Dep>, handler: bool)
      requires WellFormed() && Has(m) && state == Define(s, m.id, deps, handler) && Inv(state)
      requires s.settled <= s.modules.Keys && m.id !in s.modules
      ensures Valid() && m.id in state.examined && state.examined[m.id] == 0 && m.id !in state.settled
      ensures m.dependencies == Some(deps) && state.modules[m.id].deps == deps
      ensures state.modules[m.id].handler == handler
    {
      assert m.Stores(state.modules[m.id]);
    }

    /** Evaluates the `define` calls of a script; `steps` are the states before, between and after them. */
    method Evaluate(scripts: map<Id, Script>, calls: seq<Definition>) returns (ghost steps: seq<State>)
      requires Foreseen(scripts, failing, origins) && Valid() && forall call | call in calls :: call in origins
      modifies Repr
      ensures Valid() && fresh(Repr - old(Repr)) && SubMap(old(modules), modules) && old(known) <= known
      ensures Later(old(state), state, {}) && Evaluated(old(state), calls, steps, state)
      decreases |scripts.Keys - known|, 9
    {
      hide Inv, Monotone, WellFormed, Valid, SubMap, Mirrors, Foreseen, Took, Evaluated;
      ghost var s := state;
      ValidState();
      MonotoneReflexive(s, {});
      SubMapReflexive(modules);
      NothingEvaluated(s);
      steps := [s];
      for i := 0 to |calls|
        invariant Valid() && fresh(Repr - old(Repr)) && SubMap(old(modules), modules) && old(known) <= known
        invariant Later(s, state, {}) && Evaluated(s, calls[..i], steps, state)
      {
        SubsetIsSmaller(scripts.Keys - known, scripts.Keys - old(known));
        ghost var t, before := state, modules;
        DefineModule(scripts, calls[i].id, calls[i].deps, calls[i].handler);
        SubMapTransitive(old(modules), before, modules);
        MonotoneTransitive(s, t, state, {});
        OneMoreCall(s, calls, i, steps, t, state);
        steps := steps + [state];
      }
      assert calls[..|calls|] == calls;
    }
  }

  /** The scripts that cannot be loaded, while another one asks for them or at some later time. */
  ghost function Failing(scripts: map<Id, Script>, events: seq<Event>): set<Id> {
    (set i | i in scripts && scripts[i].fails) + (set e | e in events && e.OnFailure? :: e.id)
  }

  /** The calls that scripts and events make. */
  ghost function Calls(scripts: map<Id, Script>, events: seq<Event>): (r: set<Definition>)
    ensures forall call :: call in r <==>
      OnDefine(call) in events || exists i :: i in scripts && call in scripts[i].calls
  {
    (set i, call | i in scripts && call in scripts[i].calls :: call) + (set e | e in events && e.OnDefine? :: e.call)
  }

  /**
   Where a module of the final state comes from: an event or a script called for it with these
   dependencies, and with its handler if it has not run; or its own script could not be loaded.
   */
  ghost predicate Stems(scripts: map<Id, Script>, events: seq<Event>, s: State, m: Id) {
    m in s.modules
    && var x := s.modules[m];
    || Definition(m, x.deps, x.handler) in Calls(scripts, events)
    || (m in s.runs && exists handler :: Definition(m, x.deps, handler) in Calls(scripts, events))
    || (x.deps == [] && m in Failing(scripts, events) && Failed(s, m))
  }

  lemma RootedStems(scripts: map<Id, Script>, events: seq<Event>, s: State, m: Id)
    requires Rooted(s, m) && s.failing == Failing(scripts, events) && s.origins == Calls(scripts, events)
    ensures Stems(scripts, events, s, m)
  {
    hide Failing, Calls;
  }

  lemma AllStem(scripts: map<Id, Script>, events: seq<Event>, t: State)
    requires Monotone(Empty(Failing(scripts, events), Calls(scripts, events)), t, {})
    ensures forall m | m in t.modules :: Stems(scripts, events, t, m)
  {
    hide Failing, Calls, Advances, Informed, Stems;
    forall m | m in t.modules ensures Stems(scripts, events, t, m) {
      assert Rooted(t, m);
      RootedStems(scripts, events, t, m);
    }
  }

  lemma AllForeseen(scripts: map<Id, Script>, events: seq<Event>)
    ensures Foreseen(scripts, Failing(scripts, events), Calls(scripts, events))
    ensures forall e | e in events ::
      if e.OnFailure? then e.id in Failing(scripts, events) else e.call in Calls(scripts, events)
  {
  }

  /**
   A whole run: whatever the scripts do and in whatever order definitions and failures come in, the
   manager ends with its invariant intact and nothing half done, and every event has had its effect.
   Every module comes from a call or a failure. Every error comes from a script that could not be
   loaded. A module is left incomplete only by one that is missing or by one that took over an error
   without telling those waiting for it; if there are none, every module has run or failed, and if
   all scripts load, every module has run.
   */
  method Run(scripts: map<Id, Script>, events: seq<Event>) returns (manager: ModuleManager, ghost history: seq<State>)
    ensures manager.Valid() && Quiescent(manager.state) && IsHistory(history)
    ensures |history| == |events| + 1 && history[0] == Empty(Failing(scripts, events), Calls(scripts, events))
    ensures history[|events|] == manager.state
    ensures forall i | 0 <= i < |events| :: Handled(history[i], events[i], history[i + 1])
    ensures forall m | m in manager.state.modules :: Stems(scripts, events, manager.state, m)
    ensures forall i, j | 0 <= i <= j < |history| :: NoneLetIn(history[i], history[j])
    ensures EndsWell(manager.state, Failing(scripts, events))
  {
    hide Inv, Quiescent, Monotone, IsHistory, NoneLetIn, Informed, EndsWell, Handled, Stems, Foreseen, Failing, Calls;
    ghost var failing, calls := Failing(scripts, events), Calls(scripts, events);
    AllForeseen(scripts, events);
    manager := new ModuleManager(failing, calls);
    EmptyManager(failing, calls);
    history := [manager.state];
    HistoryStarts(failing, calls);
    for i := 0 to |events|
      invariant manager.Valid() && Quiescent(manager.state) && fresh(manager.Repr)
      invariant manager.failing == failing && manager.origins == calls
      invariant |history| == i + 1 && history[0] == Empty(failing, calls) && history[i] == manager.state
      invariant IsHistory(history) && forall j | 0 <= j < i :: Handled(history[j], events[j], history[j + 1])
    {
      assert events[i] in events;
      Dispatch(manager, scripts, events[i]);
      HistoryGrows(history, manager.state);
      history := history + [manager.state];
    }
    forall i, j | 0 <= i <= j < |history| ensures NoneLetIn(history[i], history[j]) {
      FactoriesInHistory(history, i, j);
    }
    HistoryIsInformed(history, |events|);
    EveryEnd(manager.state);
    HistoryIsMonotone(history, 0, |events|);
    AllStem(scripts, events, manager.state);
  }

  lemma HistoryIsMonotone(history: seq<State>, i: nat, j: nat)
    requires IsHistory(history) && i <= j < |history|
    ensures Monotone(history[i], history[j], {})
  {
    hide Inv, Quiescent, Advances, Informed, Traceable;
    assert Later(history[i], history[j], {});
  }

  /** One event from outside. */
  method Dispatch(manager: ModuleManager, scripts: map<Id, Script>, event: Event)
    requires Foreseen(scripts, manager.failing, manager.origins)
    requires if event.OnFailure? then event.id in manager.failing else event.call in manager.origins
    requires manager.Valid() && Quiescent(manager.state)
    modifies manager.Repr
    ensures manager.Valid() && Quiescent(manager.state) && fresh(manager.Repr - old(manager.Repr))
    ensures Later(old(manager.state), manager.state, {}) && Handled(old(manager.state), event, manager.state)
  {
    hide Inv, Monotone, Quiescent, Mirrors, LoadFailure, SomeHandler, SubMap, Foreseen, Took;
    ghost var s := manager.state;
    match event {
      case OnDefine(call) =>
        manager.DefineModule(scripts, call.id, call.deps, call.handler);
      case OnFailure(id) =>
        manager.Intern(id, []);
        ghost var t := manager.state;
        var reported, visited := manager.OnLoadError(id);
        MonotoneTransitive(s, t, manager.state, {});
    }
    InvImpliesShape(manager.state);
    LaterQuiescent(s, manager.state);
  }

  lemma NothingEvaluated(s: State)
    ensures Evaluated(s, [], [s], s)
  {
  }

  lemma OneMoreCall(s: State, calls: seq<Definition>, i: nat, steps: seq<State>, t: State, u: State)
    requires i < |calls| && Evaluated(s, calls[..i], steps, t) && Took(t, calls[i], u)
    ensures Evaluated(s, calls[..i + 1], steps + [u], u)
  {
    hide Took;
    var more, q := steps + [u], calls[..i + 1];
    forall j | 0 <= j < |q| ensures Took(more[j], q[j], more[j + 1]) {
      if j < i {
        assert Took(steps[j], calls[..i][j], steps[j + 1]);
      }
    }
  }

  lemma IdsAreKept(s: State, t: State)
    requires Monotone(s, t, {})
    ensures s.maxId <= t.maxId
  {
  }

  /** What has become of a load error: it has reached the script itself and exactly those waiting for it. */
  lemma LoadFailureSpreads(s: State, id: Id, hit: seq<Id>)
    requires AllWaiting(s, id, hit) && Waits(s)
    ensures Spread(s, id, LoadFailure(s, id, hit))
  {
    var t := LoadFailure(s, id, hit);
    ReachSelf(s.inverse, id);
    forall x | x in t.modules ensures
      if Reaches(s.inverse, id, x) then t.modules[x].done && t.modules[x].error == Some(id)
      else x in s.modules && t.modules[x] == s.modules[x]
    {
      assert x in hit <==> Reaches(s.inverse, id, x);
    }
    forall x | Reaches(s.inverse, id, x) ensures x in t.modules {
      if x != id {
        WaiterIsDefined(s, id, x);
      }
    }
  }

  lemma WaiterIsDefined(s: State, id: Id, x: Id)
    requires Waits(s) && Reaches(s.inverse, id, x) && x != id
    ensures x in s.modules
  {
    var p :| PathFromTo(s.inverse, p, id, x);
    LastEdge(s.inverse, p);
  }

  lemma ExaminationIsKept(s: State, t: State, m: Id)
    requires Monotone(s, t, {}) && m in s.modules && m in s.examined
    ensures m in t.examined && t.examined[m] == s.examined[m] && (m in t.settled <==> m in s.settled)
  {
  }

  lemma DefinitionIsKept(s: State, t: State, open: set<Id>, m: Id)
    requires Monotone(s, t, open) && m in s.modules
    ensures m in t.modules && t.modules[m].deps == s.modules[m].deps
    ensures m !in t.runs ==> t.modules[m].handler == s.modules[m].handler
  {
  }

  lemma FewerLeft(all: set<Id>, before: set<Id>, after: set<Id>, id: Id)
    requires id in all && id !in before && after == before + {id}
    ensures |all - after| < |all - before|
  {
    assert all - after == (all - before) - {id};
  }

  lemma WaveFront(g: Graph, root: Id, order: seq<Id>, k: nat, seen: set<Id>)
    requires Wave(g, root, order, k, seen) && order[k..] != []
    ensures order[k] in seen && Reaches(g, root, order[k]) && order[k..][1..] == order[k + 1..]
  {
  }

  lemma InvImpliesShape(s: State)
    requires Inv(s)
    ensures Shape(s)
  {
  }

  lemma InvImpliesWaits(s: State)
    requires Inv(s)
    ensures Waits(s)
  {
  }

  // ----- The wave of an error through those waiting

  /**
   `order` lists what was seen, each id once and all reached from `root`; the successors of its
   first `k` ids are among it.
   */
  ghost predicate Wave(g: Graph, root: Id, order: seq<Id>, k: nat, seen: set<Id>) {
    && k <= |order| && Distinct(order)
    && (forall x :: x in seen <==> x in order)
    && root in seen
    && (forall x | x in seen :: Reaches(g, root, x))
    && (forall j, y | 0 <= j < k && Edge(g, order[j], y) :: y in seen)
  }

  lemma WaveStarts(g: Graph, root: Id)
    ensures Wave(g, root, [root], 0, {root})
  {
    ReachSelf(g, root);
  }

  lemma WaveEnds(g: Graph, root: Id, order: seq<Id>, seen: set<Id>)
    requires Wave(g, root, order, |order|, seen)
    ensures Distinct(order) && forall x :: x in order <==> Reaches(g, root, x)
  {
    forall x | Reaches(g, root, x) ensures x in order {
      var p :| PathFromTo(g, p, root, x);
      WaveCovers(g, root, order, seen, p);
    }
  }

  lemma {:induction false} WaveCovers(g: Graph, root: Id, order: seq<Id>, seen: set<Id>, p: seq<Id>)
    requires Wave(g, root, order, |order|, seen) && IsPath(g, p) && p[0] == root
    ensures p[|p| - 1] in seen
    decreases |p|
  {
    if |p| > 1 {
      LastEdge(g, p);
      WaveCovers(g, root, order, seen, p[..|p| - 1]);
    }
  }

  /** Queues those waiting for one module that were not seen before. */
  method WalkInverse(ghost g: Graph, ghost root: Id, ghost order0: seq<Id>, ghost k: nat, inverseDeps: seq<Id>,
                     seen0: set<Id>, queue0: seq<Id>, ghost all: set<Id>)
    returns (seen: set<Id>, queue: seq<Id>, ghost order: seq<Id>)
    requires Wave(g, root, order0, k, seen0) && k < |order0| && queue0 == order0[k + 1..]
    requires inverseDeps == if order0[k] in g then g[order0[k]] else []
    requires seen0 <= all && forall y | y in inverseDeps :: y in all
    ensures k < |order| && Wave(g, root, order, k + 1, seen)
    ensures queue == order[k + 1..] && order[..k + 1] == order0[..k + 1]
    ensures seen0 <= seen <= all && (seen == seen0 ==> queue == queue0)
  {
    hide Wave, Reaches;
    seen, queue, order := seen0, queue0, order0;
    for i := 0 to |inverseDeps|
      invariant Wave(g, root, order, k, seen) && k < |order| && queue == order[k + 1..] && order0 <= order
      invariant seen0 <= seen <= all && (seen == seen0 ==> queue == queue0)
      invariant forall j | 0 <= j < i :: inverseDeps[j] in seen
    {
      var y := inverseDeps[i];
      if y !in seen {
        WaveGrows(g, root, order, k, seen, y);
        queue := queue + [y];
        seen := seen + {y};
        order := order + [y];
      }
    }
    WaveAdvances(g, root, order, k, seen);
  }

  lemma WaveGrows(g: Graph, root: Id, order: seq<Id>, k: nat, seen: set<Id>, y: Id)
    requires Wave(g, root, order, k, seen) && k < |order| && Edge(g, order[k], y) && y !in seen
    ensures Wave(g, root, order + [y], k, seen + {y})
  {
    ReachStep(g, root, order[k], y);
  }

  lemma WaveAdvances(g: Graph, root: Id, order: seq<Id>, k: nat, seen: set<Id>)
    requires Wave(g, root, order, k, seen) && k < |order| && forall y | Edge(g, order[k], y) :: y in seen
    ensures Wave(g, root, order, k + 1, seen)
  {
  }

  lemma NothingToComplete(s: State, m: Id)
    requires Core(s) && Prompt(s, {m}) && Requested(s, {}) && m in s.modules && s.modules[m].done
    ensures Inv(s) && Monotone(s, s, {})
  {
    assert PromptAt(s, m);
  }

  // ----- Breadth-first search

  /** All dependencies of `x` have been looked at. */
  ghost predicate Walked(ids: seq<Id>, defined: set<Id>, inQueue: set<Id>, toId: Id) {
    forall j | 0 <= j < |ids| :: ids[j] != toId && (ids[j] in defined ==> ids[j] in inQueue)
  }

  ghost predicate Searched(g: Graph, defined: set<Id>, inQueue: set<Id>, x: Id, toId: Id) {
    x in g ==> Walked(g[x], defined, inQueue, toId)
  }

  /** What was queued is reachable; what has left the queue, but for `busy`, has been searched. */
  ghost predicate Frontier(g: Graph, defined: set<Id>, inQueue: set<Id>, queue: seq<Id>, fromId: Id, toId: Id,
                           busy: set<Id>) {
    && g.Keys <= defined && fromId in inQueue && inQueue <= defined
    && (forall x | x in queue :: x in inQueue)
    && (forall x | x in inQueue :: Reaches(g, fromId, x))
    && (forall x | x in inQueue && x !in queue && x !in busy :: Searched(g, defined, inQueue, x, toId))
  }

  lemma Dequeue(g: Graph, defined: set<Id>, inQueue: set<Id>, queue: seq<Id>, fromId: Id, toId: Id)
    requires Frontier(g, defined, inQueue, queue, fromId, toId, {}) && queue != []
    ensures Frontier(g, defined, inQueue, queue[1..], fromId, toId, {queue[0]})
  {
    assert queue == [queue[0]] + queue[1..];
  }

  lemma Enqueue(g: Graph, defined: set<Id>, inQueue: set<Id>, queue: seq<Id>, fromId: Id, toId: Id,
                busy: set<Id>, d: Id)
    requires Frontier(g, defined, inQueue, queue, fromId, toId, busy) && d in defined && Reaches(g, fromId, d)
    ensures Frontier(g, defined, inQueue + {d}, queue + [d], fromId, toId, busy)
  {
    forall x | x in inQueue + {d} && x !in queue + [d] && x !in busy
      ensures Searched(g, defined, inQueue + {d}, x, toId)
    {
      assert Searched(g, defined, inQueue, x, toId);
    }
  }

  lemma FinishElement(g: Graph, defined: set<Id>, inQueue: set<Id>, queue: seq<Id>, fromId: Id, toId: Id, x: Id)
    requires Frontier(g, defined, inQueue, queue, fromId, toId, {x}) && Searched(g, defined, inQueue, x, toId)
    ensures Frontier(g, defined, inQueue, queue, fromId, toId, {})
  {
  }

  /** Looks for `toId` among the dependencies of one module and queues those seen for the first time. */
  method WalkDependencies(ghost g: Graph, ghost element: Id, ids: seq<Id>, defined: set<Id>,
                          inQueue0: set<Id>, queue0: seq<Id>, ghost fromId: Id, toId: Id)
    returns (found: bool, inQueue: set<Id>, queue: seq<Id>)
    requires Frontier(g, defined, inQueue0, queue0, fromId, toId, {element})
    requires element in inQueue0 && element in g && g[element] == ids
    ensures found <==> toId in ids
    ensures !found ==> Frontier(g, defined, inQueue, queue, fromId, toId, {})
    ensures inQueue0 <= inQueue && (inQueue == inQueue0 ==> queue == queue0)
  {
    inQueue, queue := inQueue0, queue0;
    for i := 0 to |ids|
      invariant inQueue0 <= inQueue && (inQueue == inQueue0 ==> queue == queue0)
      invariant Frontier(g, defined, inQueue, queue, fromId, toId, {element})
      invariant Walked(ids[..i], defined, inQueue, toId) && toId !in ids[..i]
    {
      var d := ids[i];
      assert ids[..i + 1] == ids[..i] + [d];
      if d == toId {
        return true, inQueue, queue;
      }
      if d in defined && d !in inQueue {
        ReachStep(g, fromId, element, d);
        Enqueue(g, defined, inQueue, queue, fromId, toId, {element}, d);
        inQueue := inQueue + {d};
        queue := queue + [d];
      }
    }
    assert ids[..|ids|] == ids;
    FinishElement(g, defined, inQueue, queue, fromId, toId, element);
    return false, inQueue, queue;
  }

  lemma NoWayOut(g: Graph, a: Id, b: Id)
    requires a !in g
    ensures !ReachesByEdges(g, a, b)
  {
    forall p | PathFromTo(g, p, a, b) ensures |p| < 2 {
      assert |p| >= 2 ==> Linked(g, p, 0);
    }
  }

  lemma NothingLeftToSearch(g: Graph, defined: set<Id>, inQueue: set<Id>, fromId: Id, toId: Id)
    requires Frontier(g, defined, inQueue, [], fromId, toId, {})
    ensures !ReachesByEdges(g, fromId, toId)
  {
    forall p | PathFromTo(g, p, fromId, toId) ensures |p| < 2 {
      if |p| >= 2 {
        LastEdge(g, p);
        StaysInQueue(g, defined, inQueue, fromId, toId, p[..|p| - 1]);
      }
    }
  }

  lemma {:induction false} StaysInQueue(g: Graph, defined: set<Id>, inQueue: set<Id>, fromId: Id, toId: Id,
                                        p: seq<Id>)
    requires Frontier(g, defined, inQueue, [], fromId, toId, {})
    requires IsPath(g, p) && p[0] == fromId && p[|p| - 1] in g
    ensures p[|p| - 1] in inQueue && Searched(g, defined, inQueue, p[|p| - 1], toId)
    decreases |p|
  {
    if |p| > 1 {
      var q := p[..|p| - 1];
      LastEdge(g, p);
      StaysInQueue(g, defined, inQueue, fromId, toId, q);
    }
  }
}
