/** The order in which a bundle contains its modules, and the bundle itself. */
module Bundles {
  import opened Common
  import opened Graphs
  import opened Postorders
  import opened SourceMapFormat
  import opened SourceMapConcat
  import opened SourceMapMachines
  import opened SourceMapBuilders

  type Id = nat

  /** Modules, what each of them depends on, and the code of each. */
  datatype Program = Program(dependencies: Graph, sources: map<Id, Source>)

  /** Every module has its code, and dependencies are modules themselves. */
  ghost predicate Loaded(p: Program) {
    p.sources.Keys == p.dependencies.Keys && Closed(p.dependencies)
  }

  /** `d` comes before the module at `k`, or the two depend on each other. */
  ghost predicate ComesFirst(g: Graph, order: seq<Id>, k: nat, d: Id)
    requires k < |order|
  {
    d in order[..k] || Reaches(g, d, order[k])
  }

  ghost predicate InOrder(g: Graph, order: seq<Id>) {
    forall k, d {:trigger ComesFirst(g, order, k, d)} |
      0 <= k < |order| && Edge(g, order[k], d) :: ComesFirst(g, order, k, d)
  }

  /** A traversal under way: modules entered, and modules left in the order they were left. */
  ghost predicate Traversal(g: Graph, visited: set<Id>, order: seq<Id>) {
    && Distinct(order) && InOrder(g, order)
    && (forall x | x in order :: x in visited)
    && (forall x | x in visited :: x in g)
    && (forall x, d | x in order && Edge(g, x, d) :: d in visited)
  }

  /** Modules entered but not left lead to `m`. */
  ghost predicate OpenLeadTo(g: Graph, visited: set<Id>, order: seq<Id>, m: Id) {
    forall x | x in visited && x !in order :: Reaches(g, x, m)
  }

  /** From one point of a traversal to a later one: what was entered since has been left again. */
  ghost predicate Grown(g: Graph, v0: set<Id>, o0: seq<Id>, v: set<Id>, o: seq<Id>, m: Id) {
    && v0 <= v && o0 <= o
    && (forall x | x in v && x !in v0 :: x in o && Reaches(g, m, x))
    && (forall x | x in o && x !in o0 :: x !in v0)
  }

  // ----- Pure steps of the traversal

  lemma EnterKeeps(g: Graph, visited: set<Id>, order: seq<Id>, m: Id)
    requires Traversal(g, visited, order) && OpenLeadTo(g, visited, order, m) && m in g && m !in visited
    ensures Traversal(g, visited + {m}, order)
    ensures forall c | Edge(g, m, c) :: OpenLeadTo(g, visited + {m}, order, c)
  {
    forall c, x | Edge(g, m, c) && x in visited + {m} && x !in order ensures Reaches(g, x, c) {
      ReachSelf(g, m);
      ReachStep(g, x, m, c);
    }
  }

  lemma NothingGrown(g: Graph, visited: set<Id>, order: seq<Id>, m: Id)
    ensures Grown(g, visited, order, visited, order, m)
  {
  }

  lemma OpenUnchanged(g: Graph, v0: set<Id>, o0: seq<Id>, v: set<Id>, o: seq<Id>, m: Id, c: Id)
    requires Grown(g, v0, o0, v, o, m) && OpenLeadTo(g, v0, o0, c)
    ensures OpenLeadTo(g, v, o, c)
  {
    forall x | x in v && x !in o ensures Reaches(g, x, c) {
      assert forall y | y in o0 :: y in o;
    }
  }

  lemma GrownTransitive(g: Graph, v0: set<Id>, o0: seq<Id>, v1: set<Id>, o1: seq<Id>, v2: set<Id>, o2: seq<Id>,
                        m: Id, c: Id)
    requires Grown(g, v0, o0, v1, o1, m) && Grown(g, v1, o1, v2, o2, c) && Edge(g, m, c)
    ensures Grown(g, v0, o0, v2, o2, m)
  {
    forall x | x in v2 && x !in v0 ensures x in o2 && Reaches(g, m, x) {
      if x !in v1 {
        ReachSelf(g, m);
        ReachStep(g, m, m, c);
        ReachTransitive(g, m, c, x);
      }
    }
  }

  /** Leaving a module whose dependencies have all been entered. */
  lemma LeaveKeeps(g: Graph, v0: set<Id>, o0: seq<Id>, v: set<Id>, o: seq<Id>, m: Id)
    requires Traversal(g, v, o) && Grown(g, v0 + {m}, o0, v, o, m)
    requires Traversal(g, v0, o0) && m !in v0 && m in g && OpenLeadTo(g, v0, o0, m)
    requires forall d | Edge(g, m, d) :: d in v
    ensures Traversal(g, v, o + [m]) && Grown(g, v0, o0, v, o + [m], m)
  {
    assert m !in o;
    var order := o + [m];
    forall k, d | 0 <= k < |order| && Edge(g, order[k], d) ensures ComesFirst(g, order, k, d) {
      if k < |o| {
        assert ComesFirst(g, o, k, d);
        assert order[..k] == o[..k];
      } else {
        assert order[..k] == o;
        if d !in o {
          ReachSelf(g, m);
        }
      }
    }
    ReachSelf(g, m);
  }

  // ----- What a traversal adds to what was entered and left before

  ghost predicate Appended(v0: set<Id>, o0: seq<Id>, v: set<Id>, o: seq<Id>, added: seq<Id>) {
    o == o0 + added && v == v0 + ToSet(added)
  }

  lemma NothingAppended(g: Graph, v: set<Id>, o: seq<Id>, deps: seq<Id>)
    ensures Appended(v, o, v, o, []) && Appended(v, o, v, o, AddedBy(g, v, deps[..0]))
  {
    assert o + [] == o && v + ToSet([]) == v;
  }

  lemma OneMoreAppended(g: Graph, v0: set<Id>, o0: seq<Id>, v1: set<Id>, o1: seq<Id>, v2: set<Id>, o2: seq<Id>,
                        deps: seq<Id>, i: nat)
    requires i < |deps| && Appended(v0, o0, v1, o1, AddedBy(g, v0, deps[..i]))
    requires Appended(v1, o1, v2, o2, Added(g, v1, deps[i]))
    ensures Appended(v0, o0, v2, o2, AddedBy(g, v0, deps[..i + 1]))
  {
    assert deps[..i + 1] == deps[..i] + [deps[i]];
    AddedNext(g, v0, deps[..i], deps[i]);
    hide AddedBy, Added;
    var a, b := AddedBy(g, v0, deps[..i]), Added(g, v1, deps[i]);
    assert o0 + a + b == o0 + (a + b);
    assert ToSet(a + b) == ToSet(a) + ToSet(b);
  }

  /** The first `i` dependencies of `m` have been visited. */
  ghost predicate Through(g: Graph, v0: set<Id>, o0: seq<Id>, v: set<Id>, o: seq<Id>, m: Id, deps: seq<Id>, i: nat)
    requires i <= |deps|
  {
    && Grown(g, v0, o0, v, o, m) && (forall j | 0 <= j < i :: deps[j] in v)
    && Appended(v0, o0, v, o, AddedBy(g, v0, deps[..i]))
  }

  lemma ThroughNone(g: Graph, v: set<Id>, o: seq<Id>, m: Id, deps: seq<Id>)
    ensures Through(g, v, o, v, o, m, deps, 0)
  {
    NothingGrown(g, v, o, m);
    NothingAppended(g, v, o, deps);
  }

  lemma BeforeNext(g: Graph, v0: set<Id>, o0: seq<Id>, v: set<Id>, o: seq<Id>, m: Id, deps: seq<Id>, i: nat)
    requires i < |deps| && Through(g, v0, o0, v, o, m, deps, i) && OpenLeadTo(g, v0, o0, deps[i])
    ensures v0 <= v && OpenLeadTo(g, v, o, deps[i]) && |g.Keys - v| <= |g.Keys - v0|
  {
    OpenUnchanged(g, v0, o0, v, o, m, deps[i]);
    SubsetIsSmaller(g.Keys - v, g.Keys - v0);
  }

  lemma ThroughNext(g: Graph, v0: set<Id>, o0: seq<Id>, v1: set<Id>, o1: seq<Id>, v2: set<Id>, o2: seq<Id>,
                    m: Id, deps: seq<Id>, i: nat)
    requires i < |deps| && Through(g, v0, o0, v1, o1, m, deps, i) && Edge(g, m, deps[i])
    requires Grown(g, v1, o1, v2, o2, deps[i]) && deps[i] in v2 && v1 <= v2
    requires Appended(v1, o1, v2, o2, Added(g, v1, deps[i]))
    ensures Through(g, v0, o0, v2, o2, m, deps, i + 1)
  {
    hide Grown, Appended, Added, AddedBy;
    GrownTransitive(g, v0, o0, v1, o1, v2, o2, m, deps[i]);
    OneMoreAppended(g, v0, o0, v1, o1, v2, o2, deps, i);
  }

  lemma ThroughAll(g: Graph, v0: set<Id>, o0: seq<Id>, v: set<Id>, o: seq<Id>, m: Id, deps: seq<Id>)
    requires Through(g, v0, o0, v, o, m, deps, |deps|)
    ensures Grown(g, v0, o0, v, o, m) && (forall d | d in deps :: d in v)
    ensures Appended(v0, o0, v, o, AddedBy(g, v0, deps))
  {
    assert deps[..|deps|] == deps;
  }

  lemma ItselfAppended(g: Graph, v0: set<Id>, o0: seq<Id>, v: set<Id>, o: seq<Id>, m: Id)
    requires m in g && m !in v0 && Appended(v0 + {m}, o0, v, o, AddedBy(g, v0 + {m}, g[m]))
    ensures Appended(v0, o0, v, o + [m], Added(g, v0, m))
  {
    var rest := AddedBy(g, v0 + {m}, g[m]);
    assert Added(g, v0, m) == rest + [m];
    hide AddedBy, Added;
    assert o0 + rest + [m] == o0 + (rest + [m]);
    assert ToSet(rest + [m]) == ToSet(rest) + {m};
  }

  // ----- The bundle

  function SourcesOf(p: Program, order: seq<Id>): (ss: seq<Source>)
    requires forall i | 0 <= i < |order| :: order[i] in p.sources
    ensures |ss| == |order| && forall i | 0 <= i < |order| :: ss[i] == p.sources[order[i]]
  {
    seq(|order|, i requires 0 <= i < |order| => p.sources[order[i]])
  }

  lemma OneMoreSource(p: Program, order: seq<Id>, m: Id)
    requires (forall i | 0 <= i < |order| :: order[i] in p.sources) && m in p.sources
    ensures AddRawAll(SourcesOf(p, order + [m])) == AddRaw(AddRawAll(SourcesOf(p, order)), p.sources[m])
  {
    var ss := SourcesOf(p, order + [m]);
    assert ss[..|ss| - 1] == SourcesOf(p, order);
  }

  /** Among `m` and all it depends on there is a map that makes the builder throw. */
  ghost predicate Broken(p: Program, m: Id) {
    exists x :: Reaches(p.dependencies, m, x) && x in p.sources && !Accepted(p.sources[x].mappings)
  }

  lemma BrokenItself(p: Program, m: Id)
    requires m in p.sources && !Accepted(p.sources[m].mappings)
    ensures Broken(p, m)
  {
    ReachSelf(p.dependencies, m);
  }

  lemma BrokenBelow(p: Program, m: Id, d: Id)
    requires Edge(p.dependencies, m, d) && Broken(p, d)
    ensures Broken(p, m)
  {
    var x :| Reaches(p.dependencies, d, x) && x in p.sources && !Accepted(p.sources[x].mappings);
    ReachFromEdge(p.dependencies, m, d, x);
  }

  class Bundler {
    const program: Program
    const builder: SourceMapBuilder
    var visited: set<Id>
    ghost var order: seq<Id>

    ghost predicate Valid()
      reads this, builder, builder.output, builder.mappings, builder.output.buffer, builder.mappings.buffer
    {
      && Loaded(program) && builder.Valid()
      && Traversal(program.dependencies, visited, order)
      && (forall i | 0 <= i < |order| ::
            order[i] in program.sources && Accepted(program.sources[order[i]].mappings))
      && builder.View() == AddRawAll(SourcesOf(program, order))
    }

    constructor (program: Program)
      requires Loaded(program)
      ensures Valid() && fresh(builder.Repr()) && this.program == program && visited == {} && order == []
    {
      this.program := program;
      builder := new SourceMapBuilder();
      visited := {};
      order := [];
    }

    lemma Parts()
      requires Valid()
      ensures builder.Valid() && Traversal(program.dependencies, visited, order)
      ensures program.sources.Keys == program.dependencies.Keys
    {
    }

    lemma DependencyIsModule(m: Id, d: Id)
      requires Valid() && Edge(program.dependencies, m, d)
      ensures d in program.dependencies
    {
    }

    /** Marks a module as entered. */
    method Enter(m: Id)
      requires Valid() && Traversal(program.dependencies, visited + {m}, order)
      modifies this`visited
      ensures Valid() && visited == old(visited) + {m}
    {
      hide Traversal, Loaded, AddRawAll, SourcesOf;
      visited := visited + {m};
    }

    /** Adds the source of a module that is left. */
    method Leave(m: Id) returns (ok: bool)
      requires Valid() && m in program.sources && Traversal(program.dependencies, visited, order + [m])
      modifies this`order, builder.Repr()
      ensures builder.Valid() && fresh(builder.Repr() - old(builder.Repr()))
      ensures ok <==> Accepted(program.sources[m].mappings)
      ensures ok ==> Valid() && order == old(order) + [m]
    {
      hide Traversal, AddRawAll, SourcesOf, AddRaw, Accepted;
      OneMoreSource(program, order, m);
      ok := builder.AddSource(program.sources[m]);
      if ok {
        order := order + [m];
      }
    }

    /** Enters a module unless it was entered before, then its dependencies, then adds its source. */
    method Visit(m: Id) returns (ok: bool)
      requires Valid() && m in program.dependencies && OpenLeadTo(program.dependencies, visited, order, m)
      modifies this, builder.Repr()
      ensures builder.Valid() && fresh(builder.Repr() - old(builder.Repr())) && old(visited) <= visited
      ensures ok ==> Valid() && Grown(program.dependencies, old(visited), old(order), visited, order, m) && m in visited
      ensures ok ==> Appended(old(visited), old(order), visited, order, Added(program.dependencies, old(visited), m))
      ensures !ok ==> Broken(program, m)
      decreases |program.dependencies.Keys - visited|, 0
    {
      hide AddRaw, Traversal, Grown, OpenLeadTo, SourcesOf, AddRawAll, Valid, Accepted, Loaded, Broken;
      ghost var g, v0, o0 := program.dependencies, visited, order;
      Parts();
      if m in visited {
        NothingGrown(g, v0, o0, m);
        NothingAppended(g, v0, o0, []);
        assert Added(g, v0, m) == [];
        return true;
      }
      EnterKeeps(g, v0, o0, m);
      FewerLeft(g.Keys, v0, m);
      Enter(m);
      ok := VisitEntered(m, v0, o0);
    }

    /** Visits the dependencies of a module just entered, then leaves it. */
    method VisitEntered(m: Id, ghost v0: set<Id>, ghost o0: seq<Id>) returns (ok: bool)
      requires Valid() && m in program.dependencies && m !in v0 && visited == v0 + {m} && order == o0
      requires Traversal(program.dependencies, v0, o0) && OpenLeadTo(program.dependencies, v0, o0, m)
      requires forall d | Edge(program.dependencies, m, d) :: OpenLeadTo(program.dependencies, visited, order, d)
      modifies this, builder.Repr()
      ensures builder.Valid() && fresh(builder.Repr() - old(builder.Repr())) && old(visited) <= visited
      ensures ok ==> Valid() && Grown(program.dependencies, v0, o0, visited, order, m) && m in visited
      ensures ok ==> Appended(v0, o0, visited, order, Added(program.dependencies, v0, m))
      ensures !ok ==> Broken(program, m)
      decreases |program.dependencies.Keys - visited|, 2
    {
      hide AddRaw, Traversal, Grown, OpenLeadTo, SourcesOf, AddRawAll, Valid, Accepted, Loaded, Broken,
        Appended, Added, AddedBy;
      ok := VisitDependencies(m, program.dependencies[m]);
      if ok {
        Parts();
        LeaveKeeps(program.dependencies, v0, o0, visited, order, m);
        ItselfAppended(program.dependencies, v0, o0, visited, order, m);
        ok := Leave(m);
        if !ok {
          BrokenItself(program, m);
        }
      }
    }

    /** Visits the dependencies of `m` in order. */
    method VisitDependencies(m: Id, deps: seq<Id>) returns (ok: bool)
      requires Valid() && (forall d | d in deps :: Edge(program.dependencies, m, d))
      requires forall d | Edge(program.dependencies, m, d) :: OpenLeadTo(program.dependencies, visited, order, d)
      modifies this, builder.Repr()
      ensures builder.Valid() && fresh(builder.Repr() - old(builder.Repr())) && old(visited) <= visited
      ensures ok ==> Valid() && Grown(program.dependencies, old(visited), old(order), visited, order, m)
      ensures ok ==> forall d | d in deps :: d in visited
      ensures ok ==>
        Appended(old(visited), old(order), visited, order, AddedBy(program.dependencies, old(visited), deps))
      ensures !ok ==> Broken(program, m)
      decreases |program.dependencies.Keys - visited|, 1
    {
      hide AddRaw, Traversal, Grown, OpenLeadTo, SourcesOf, AddRawAll, Valid, Accepted, Loaded, Broken,
        Appended, Added, AddedBy, Through, Edge;
      ghost var g, v0, o0 := program.dependencies, visited, order;
      Parts();
      ThroughNone(g, v0, o0, m, deps);
      for i := 0 to |deps|
        invariant Valid() && builder.Valid() && fresh(builder.Repr() - old(builder.Repr())) && v0 <= visited
        invariant Through(g, v0, o0, visited, order, m, deps, i)
      {
        var d := deps[i];
        DependencyIsModule(m, d);
        ghost var v1, o1 := visited, order;
        BeforeNext(g, v0, o0, v1, o1, m, deps, i);
        ok := Visit(d);
        if !ok {
          BrokenBelow(program, m, d);
          return;
        }
        ThroughNext(g, v0, o0, v1, o1, visited, order, m, deps, i);
      }
      ThroughAll(g, v0, o0, visited, order, m, deps);
      ok := true;
    }
  }

  // ----- The finished traversal

  /** Every module needed is there once, and only those. */
  ghost predicate IsBundleOf(g: Graph, entry: Id, order: seq<Id>) {
    && Distinct(order)
    && (forall x :: x in order <==> Reaches(g, entry, x))
    && InOrder(g, order)
  }

  lemma FinishedTraversal(g: Graph, entry: Id, visited: set<Id>, order: seq<Id>)
    requires Traversal(g, visited, order) && Grown(g, {}, [], visited, order, entry) && entry in visited
    ensures IsBundleOf(g, entry, order)
  {
    forall x | Reaches(g, entry, x) ensures x in order {
      var p :| PathFromTo(g, p, entry, x);
      PathIsVisited(g, entry, visited, order, p);
    }
  }

  lemma {:induction false} PathIsVisited(g: Graph, entry: Id, visited: set<Id>, order: seq<Id>, p: seq<Id>)
    requires Traversal(g, visited, order) && Grown(g, {}, [], visited, order, entry) && entry in visited
    requires IsPath(g, p) && p[0] == entry
    ensures p[|p| - 1] in order
    decreases |p|
  {
    if |p| > 1 {
      LastEdge(g, p);
      PathIsVisited(g, entry, visited, order, p[..|p| - 1]);
    }
  }

  /** Without cycles, every dependency comes before its dependents. */
  lemma AcyclicOrder(g: Graph, entry: Id, order: seq<Id>, k: nat, d: Id)
    requires Acyclic(g) && IsBundleOf(g, entry, order) && k < |order| && Edge(g, order[k], d)
    ensures d in order[..k]
  {
    assert ComesFirst(g, order, k, d);
    if Reaches(g, d, order[k]) {
      ReachStep(g, d, order[k], d);
    }
  }

  /** `y` is needed by the dependency of `m` at `j`, and by none before that. */
  ghost predicate FirstNeededBy(g: Graph, m: Id, j: nat, y: Id)
    requires m in g
  {
    && j < |g[m]| && Reaches(g, g[m][j], y)
    && (forall k | 0 <= k < j :: !Reaches(g, g[m][k], y))
  }

  /** What an earlier dependency of the entry needs comes before what is first needed by a later one. */
  ghost predicate SiblingsInTurn(g: Graph, entry: Id, order: seq<Id>)
    requires entry in g
  {
    forall i: nat, j: nat, x, y | i < j < |g[entry]| && Reaches(g, g[entry][i], x) && FirstNeededBy(g, entry, j, y) ::
      Before(order, x, y)
  }

  lemma AcyclicSiblings(g: Graph, entry: Id)
    requires Closed(g) && Acyclic(g) && entry in g
    ensures SiblingsInTurn(g, entry, Added(g, {}, entry))
  {
    hide Reaches, Acyclic, Closed, Added, Before;
    forall i: nat, j: nat, x, y | i < j < |g[entry]| && Reaches(g, g[entry][i], x) && FirstNeededBy(g, entry, j, y)
      ensures Before(Added(g, {}, entry), x, y)
    {
      EarlierDependenciesFirst(g, entry, i, j, x, y);
    }
  }

  /** The map of every module in the bundle is well formed and fits its code. */
  ghost predicate AllFit(p: Program, entry: Id) {
    forall x | Reaches(p.dependencies, entry, x) && x in p.sources :: WellFormed(p.sources[x]) && Fits(p.sources[x])
  }

  /** Bundles an entry point with all it depends on; `footer` is the line that refers to the map. */
  method BundleWithDependencies(p: Program, entry: Id, footer: seq<byte>)
    returns (ok: bool, content: seq<byte>, sources: seq<string>, mappings: seq<byte>, ghost order: seq<Id>)
    requires Loaded(p) && entry in p.dependencies
    ensures ok <==> !Broken(p, entry)
    ensures ok ==> order == Added(p.dependencies, {}, entry)
    ensures ok && Acyclic(p.dependencies) ==> SiblingsInTurn(p.dependencies, entry, order)
    ensures ok ==> IsBundleOf(p.dependencies, entry, order) && forall i | 0 <= i < |order| :: order[i] in p.sources
    ensures ok ==> content == AllContent(SourcesOf(p, order)) + (footer + [10])
    ensures ok ==> var b := AddRawAll(SourcesOf(p, order)); sources == b.sources && mappings == b.mappings
    ensures ok && TotalSources(SourcesOf(p, order)) <= LIMIT && AllFit(p, entry) ==>
              NameAll(Mappings(mappings), sources) == Concatenated(SourcesOf(p, order))
  {
    hide Fits, WellFormed, Accepted, Readable, IsBundleOf, Mappings, Concatenated, Traversal, Grown, AddRawAll, AllFit,
      Broken, AllContent, Acyclic, SiblingsInTurn, Added, Closed;
    var bundler := new Bundler(p);
    content, sources, mappings, order := [], [], [], [];
    ok := bundler.Visit(entry);
    if !ok {
      return;
    }
    order := bundler.order;
    assert order == [] + Added(p.dependencies, {}, entry);
    if Acyclic(p.dependencies) {
      AcyclicSiblings(p.dependencies, entry);
    }
    FinishedTraversal(p.dependencies, entry, bundler.visited, order);
    NothingBroken(p, entry, order);
    ContentOf(SourcesOf(p, order));
    sources, mappings, content := Finish(bundler.builder, footer);
    if TotalSources(SourcesOf(p, order)) <= LIMIT && AllFit(p, entry) {
      MeaningOfBundle(p, entry, order);
    }
  }

  lemma NothingBroken(p: Program, entry: Id, order: seq<Id>)
    requires IsBundleOf(p.dependencies, entry, order)
    requires forall i | 0 <= i < |order| :: order[i] in p.sources && Accepted(p.sources[order[i]].mappings)
    ensures !Broken(p, entry)
  {
    hide Accepted;
  }

  lemma MeaningOfBundle(p: Program, entry: Id, order: seq<Id>)
    requires IsBundleOf(p.dependencies, entry, order) && AllFit(p, entry)
    requires forall i | 0 <= i < |order| :: order[i] in p.sources
    requires TotalSources(SourcesOf(p, order)) <= LIMIT
    ensures var b := AddRawAll(SourcesOf(p, order));
            NameAll(Mappings(b.mappings), b.sources) == Concatenated(SourcesOf(p, order))
  {
    hide Fits, Readable, Accepted, AddRawAll, AddAll, Mappings, Concatenated, InOrder;
    var ss := SourcesOf(p, order);
    forall i | 0 <= i < |ss| ensures WellFormed(ss[i]) && Fits(ss[i]) {
      assert order[i] in order;
    }
    AddRawAllIsAddAll(ss);
    ConcatenationTheorem(ss);
  }

  /** Takes the map, then appends the line that refers to it. */
  method Finish(builder: SourceMapBuilder, footer: seq<byte>)
    returns (sources: seq<string>, mappings: seq<byte>, content: seq<byte>)
    requires builder.Valid()
    modifies builder.Repr()
    ensures sources == old(builder.View()).sources && mappings == old(builder.View()).mappings
    ensures content == old(builder.View()).content + (footer + [10])
  {
    sources := builder.sources;
    mappings := builder.mappings.ToBuffer();
    builder.AddLine(footer);
    content := builder.output.ToBuffer();
  }

  lemma {:induction false} ContentOf(ss: seq<Source>)
    ensures AddRawAll(ss).content == AllContent(ss)
    decreases |ss|
  {
    hide Accepted, StepAll, Emit, Intern, RemapOf;
    if ss != [] {
      ContentOf(ss[..|ss| - 1]);
    }
  }
}
