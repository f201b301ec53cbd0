/** The two grounding loops (internal/engine/brain/bamcp.go:723-786 and
belief_slice_native.go:174-227) and the slices they are applied to. */
module SamplerGround {
  import opened Factors
  import opened Order
  import opened Graphs
  import opened Lists
  import opened AttackGraph
  import opened Tables
  import opened Ground
  import opened Sampler
  import opened TopoOrder
  import opened NativeGround
  import opened SamplerNetwork
  import NoisyOr
  import Slice
  import SweepOrder

  // ----- the sampler's grounding -----

  function Draft(strengths: Strengths, n: GraphNode, x: string, into: seq<NoisyOr.Cause>): Var
    requires x in n.variables
  {
    Var(GroundName(n.id, x), strengths.leak(n.kind, x), IntraCauses(strengths, n, x, n.variables[x]), into)
  }

  /** `byName` holds a draft without edge causes for exactly the variables of
      the nodes before `i` and those of node `i` that are not `left`. */
  ghost predicate Drafted(g: Graph, strengths: Strengths, byName: map<string, Var>, i: nat, left: set<string>)
    requires i <= |g.nodes|
  {
    && (forall j, x {:trigger GroundName(g.nodes[j].id, x)} ::
          (0 <= j < |g.nodes| && x in g.nodes[j].variables && (j < i || (j == i && x !in left))) ==>
          GroundName(g.nodes[j].id, x) in byName
          && byName[GroundName(g.nodes[j].id, x)] == Draft(strengths, g.nodes[j], x, []))
    && (forall name {:trigger HasHeight(g, name)} :: name in byName ==> HasHeight(g, name))
  }

  method CollectIntra(strengths: Strengths, n: GraphNode, x: string, dependsOn: seq<string>)
    returns (causes: seq<NoisyOr.Cause>)
    ensures causes == IntraCauses(strengths, n, x, dependsOn)
  {
    causes := [];
    var rest := dependsOn;
    while rest != []
      invariant causes + IntraCauses(strengths, n, x, rest) == IntraCauses(strengths, n, x, dependsOn)
    {
      if Groundable(rest[0]) {
        var c := NoisyOr.Cause(GroundName(n.id, rest[0]), strengths.inNode(n.kind, x, rest[0]));
        Associate(causes, [c], IntraCauses(strengths, n, x, rest[1..]));
        causes := causes + [c];
      } else {
        assert IntraCauses(strengths, n, x, rest) == IntraCauses(strengths, n, x, rest[1..]);
      }
      rest := rest[1..];
    }
    assert causes + [] == causes;
  }

  method DraftNode(g: Graph, strengths: Strengths, i: nat, before: map<string, Var>) returns (byName: map<string, Var>)
    requires Grounded(g) && i < |g.nodes| && Drafted(g, strengths, before, i, g.nodes[i].variables.Keys)
    ensures Drafted(g, strengths, byName, i, {})
  {
    byName := before;
    var n := g.nodes[i];
    assert n in g.nodes;
    var left := n.variables.Keys;
    while left != {}
      invariant left <= n.variables.Keys && Drafted(g, strengths, byName, i, left)
    {
      var x :| x in left;
      var gname := GroundName(n.id, x);
      if Groundable(n.id) && Groundable(x) {
        var intra := CollectIntra(strengths, n, x, n.variables[x]);
        assert Owns(g, gname, n, x) && HasHeight(g, gname);
        byName := byName[gname := Var(gname, strengths.leak(n.kind, x), intra, [])];
      }
      left := left - {x};
    }
  }

  /** The entry of one variable, with the edges in `rest` still to come. */
  ghost predicate WiredAt(g: Graph, registry: Registry, strengths: Strengths, byName: map<string, Var>, rest: seq<Edge>,
                          n: GraphNode, x: string)
    requires x in n.variables
  {
    var name := GroundName(n.id, x);
    && name in byName
    && byName[name] == Draft(strengths, n, x, byName[name].edges)
    && byName[name].edges + CausesInto(registry, strengths, ById(g.nodes), rest, n.id, x)
       == CausesInto(registry, strengths, ById(g.nodes), g.edges, n.id, x)
  }

  ghost predicate Wired(g: Graph, registry: Registry, strengths: Strengths, byName: map<string, Var>, rest: seq<Edge>) {
    && (forall n, x {:trigger WiredAt(g, registry, strengths, byName, rest, n, x)} ::
          n in g.nodes && x in n.variables ==> WiredAt(g, registry, strengths, byName, rest, n, x))
    && (forall name {:trigger HasHeight(g, name)} :: name in byName ==> HasHeight(g, name))
  }

  lemma DraftedIsWired(g: Graph, registry: Registry, strengths: Strengths, byName: map<string, Var>)
    requires Drafted(g, strengths, byName, |g.nodes|, {})
    ensures Wired(g, registry, strengths, byName, g.edges)
  {
    forall n, x | n in g.nodes && x in n.variables ensures WiredAt(g, registry, strengths, byName, g.edges, n, x) {
      var j :| 0 <= j < |g.nodes| && g.nodes[j] == n;
      assert GroundName(g.nodes[j].id, x) in byName;
      var into := CausesInto(registry, strengths, ById(g.nodes), g.edges, n.id, x);
      assert [] + into == into;
    }
  }

  method CollectSources(from: string, sources: seq<string>, strength: real) returns (causes: seq<NoisyOr.Cause>)
    ensures causes == SourceCauses(from, sources, strength)
  {
    causes := [];
    var rest := sources;
    while rest != []
      invariant causes + SourceCauses(from, rest, strength) == SourceCauses(from, sources, strength)
    {
      if Groundable(from) && Groundable(rest[0]) {
        var c := NoisyOr.Cause(GroundName(from, rest[0]), strength);
        Associate(causes, [c], SourceCauses(from, rest[1..], strength));
        causes := causes + [c];
      } else {
        assert SourceCauses(from, rest, strength) == SourceCauses(from, rest[1..], strength);
      }
      rest := rest[1..];
    }
    assert causes + [] == causes;
  }

  /** An edge that does not feed `x` of `n` leaves its entry alone. */
  lemma WiredElsewhere(g: Graph, registry: Registry, strengths: Strengths, before: map<string, Var>,
                       byName: map<string, Var>, rest: seq<Edge>, n: GraphNode, x: string)
    requires rest != [] && x in n.variables && WiredAt(g, registry, strengths, before, rest, n, x)
    requires !(rest[0].to == n.id && rest[0].kind in registry.feeds && registry.feeds[rest[0].kind] == x)
    requires GroundName(n.id, x) in byName && byName[GroundName(n.id, x)] == before[GroundName(n.id, x)]
    ensures WiredAt(g, registry, strengths, byName, rest[1..], n, x)
  {
    var byId := ById(g.nodes);
    assert CausesInto(registry, strengths, byId, rest, n.id, x)
           == CausesInto(registry, strengths, byId, rest[1..], n.id, x);
  }

  lemma WiredHere(g: Graph, registry: Registry, strengths: Strengths, before: map<string, Var>,
                  byName: map<string, Var>, rest: seq<Edge>, n: GraphNode, x: string, causes: seq<NoisyOr.Cause>)
    requires rest != [] && x in n.variables && WiredAt(g, registry, strengths, before, rest, n, x)
    requires rest[0].to == n.id && rest[0].kind in registry.feeds && registry.feeds[rest[0].kind] == x
    requires causes == SourceCauses(rest[0].from, Terminals(registry, KindAt(ById(g.nodes), rest[0].from)),
                                    strengths.edge(rest[0].kind))
    requires var name := GroundName(n.id, x);
             name in byName && byName[name] == before[name].(edges := before[name].edges + causes)
    ensures WiredAt(g, registry, strengths, byName, rest[1..], n, x)
  {
    var tail := CausesInto(registry, strengths, ById(g.nodes), rest[1..], n.id, x);
    assert CausesInto(registry, strengths, ById(g.nodes), rest, n.id, x) == causes + tail;
    Associate(before[GroundName(n.id, x)].edges, causes, tail);
  }

  method WireEdge(g: Graph, registry: Registry, strengths: Strengths, byId: map<string, GraphNode>,
                  before: map<string, Var>, rest: seq<Edge>)
    returns (byName: map<string, Var>)
    requires WellFormed(g) && Grounded(g) && byId == ById(g.nodes) && rest != []
    requires Wired(g, registry, strengths, before, rest)
    ensures Wired(g, registry, strengths, byName, rest[1..])
  {
    byName := before;
    var e := rest[0];
    ByIdKeys(g.nodes);
    if e.kind in registry.feeds && DeclaresAt(byId, e.to, registry.feeds[e.kind]) {
      var target := registry.feeds[e.kind];
      var tgname := GroundName(e.to, target);
      ghost var owner := byId[e.to];
      assert owner in g.nodes && WiredAt(g, registry, strengths, before, rest, owner, target);
      var sources := TerminalVariables(registry, KindAt(byId, e.from));
      var causes := CollectSources(e.from, sources, strengths.edge(e.kind));
      byName := byName[tgname := byName[tgname].(edges := byName[tgname].edges + causes)];
      WiredUpdate(g, registry, strengths, before, byName, rest, causes);
    } else {
      WiredSkip(g, registry, strengths, before, rest);
    }
  }

  lemma WiredUpdate(g: Graph, registry: Registry, strengths: Strengths, before: map<string, Var>,
                    byName: map<string, Var>, rest: seq<Edge>, causes: seq<NoisyOr.Cause>)
    requires WellFormed(g) && Grounded(g) && rest != [] && Wired(g, registry, strengths, before, rest)
    requires rest[0].kind in registry.feeds && DeclaresAt(ById(g.nodes), rest[0].to, registry.feeds[rest[0].kind])
    requires causes == SourceCauses(rest[0].from, Terminals(registry, KindAt(ById(g.nodes), rest[0].from)),
                                    strengths.edge(rest[0].kind))
    requires var name := GroundName(rest[0].to, registry.feeds[rest[0].kind]);
             name in before && byName == before[name := before[name].(edges := before[name].edges + causes)]
    ensures Wired(g, registry, strengths, byName, rest[1..])
  {
    var target := registry.feeds[rest[0].kind];
    ByIdKeys(g.nodes);
    var owner := ById(g.nodes)[rest[0].to];
    forall n, x | n in g.nodes && x in n.variables ensures WiredAt(g, registry, strengths, byName, rest[1..], n, x) {
      assert WiredAt(g, registry, strengths, before, rest, n, x);
      if n == owner && x == target {
        WiredHere(g, registry, strengths, before, byName, rest, n, x, causes);
      } else {
        NodeIndexed(g, n);
        WiredElsewhere(g, registry, strengths, before, byName, rest, n, x);
      }
    }
  }

  lemma WiredSkip(g: Graph, registry: Registry, strengths: Strengths, byName: map<string, Var>, rest: seq<Edge>)
    requires WellFormed(g) && rest != [] && Wired(g, registry, strengths, byName, rest)
    requires rest[0].kind in registry.feeds ==> !DeclaresAt(ById(g.nodes), rest[0].to, registry.feeds[rest[0].kind])
    ensures Wired(g, registry, strengths, byName, rest[1..])
  {
    forall n, x | n in g.nodes && x in n.variables ensures WiredAt(g, registry, strengths, byName, rest[1..], n, x) {
      assert WiredAt(g, registry, strengths, byName, rest, n, x);
      NodeIndexed(g, n);
      WiredElsewhere(g, registry, strengths, byName, byName, rest, n, x);
    }
  }

  // ----- collecting the variables -----

  predicate NameLess(v: Var, u: Var) {
    Less(v.name, u.name)
  }

  function Finished(v: Var): Var {
    v.(intra := Sort(ParentLess, v.intra), edges := Sort(ParentLess, v.edges))
  }

  function FinishedAll(byName: map<string, Var>, names: seq<string>): (r: seq<Var>)
    requires forall x :: x in names ==> x in byName
    ensures |r| == |names| && forall i :: 0 <= i < |r| ==> names[i] in byName && r[i] == Finished(byName[names[i]])
  {
    seq(|names|, i requires 0 <= i < |names| => Finished(byName[names[i]]))
  }

  method Collect(byName: map<string, Var>) returns (vars: seq<Var>)
    requires forall name :: name in byName ==> byName[name].name == name
    ensures NoDup(NamesOf(vars))
    ensures forall v :: v in vars <==> exists name :: name in byName && v == Finished(byName[name])
  {
    var names := KeysOf(byName.Keys);
    assert forall x :: x in names <==> x in Elems(names);
    var out := FinishedAll(byName, names);
    vars := Sort(NameLess, out);
    assert NamesOf(out) == names;
    SortedNames(out, vars);
    CollectedMembers(byName, names, out, vars);
  }

  lemma CollectedMembers(byName: map<string, Var>, names: seq<string>, out: seq<Var>, vars: seq<Var>)
    requires forall x :: x in names <==> x in byName
    requires out == FinishedAll(byName, names) && multiset(out) == multiset(vars)
    ensures forall v :: v in vars <==> exists name :: name in byName && v == Finished(byName[name])
  {
    forall v ensures v in vars <==> exists name :: name in byName && v == Finished(byName[name]) {
      InSame(vars, out, v);
      FinishedMember(byName, names, v);
    }
  }

  lemma FinishedMember(byName: map<string, Var>, names: seq<string>, v: Var)
    requires forall x :: x in names <==> x in byName
    ensures v in FinishedAll(byName, names) <==> exists name :: name in byName && v == Finished(byName[name])
  {
    forall name | name in byName && v == Finished(byName[name]) ensures v in FinishedAll(byName, names) {
      var i :| 0 <= i < |names| && names[i] == name;
      assert FinishedAll(byName, names)[i] == v;
    }
  }

  lemma SortedNames(out: seq<Var>, vars: seq<Var>)
    requires multiset(out) == multiset(vars) && NoDup(NamesOf(out))
    ensures NoDup(NamesOf(vars))
  {
    var f := (v: Var) => v.name;
    ImagePermuted(f, out, vars);
    assert Image(f, out) == NamesOf(out) && Image(f, vars) == NamesOf(vars);
    NoDupPermuted(NamesOf(out), NamesOf(vars));
  }

  /** One sampled variable for each declared variable of the slice. */
  method GroundForSampling(g: Graph, registry: Registry, strengths: Strengths) returns (vars: seq<Var>)
    requires WellFormed(g) && Grounded(g)
    ensures IsSampled(g, registry, strengths, vars)
  {
    var byId := IndexNodes(g.nodes);
    var byName: map<string, Var> := map[];
    var i := 0;
    while i < |g.nodes|
      invariant 0 <= i <= |g.nodes|
      invariant Drafted(g, strengths, byName, i, if i < |g.nodes| then g.nodes[i].variables.Keys else {})
    {
      byName := DraftNode(g, strengths, i, byName);
      i := i + 1;
    }
    DraftedIsWired(g, registry, strengths, byName);
    var rest := g.edges;
    while rest != []
      invariant Wired(g, registry, strengths, byName, rest)
    {
      byName := WireEdge(g, registry, strengths, byId, byName, rest);
      rest := rest[1..];
    }
    WiredNames(g, registry, strengths, byName);
    vars := Collect(byName);
    WiredIsSampled(g, registry, strengths, byName, vars);
  }

  lemma WiredNames(g: Graph, registry: Registry, strengths: Strengths, byName: map<string, Var>)
    requires Wired(g, registry, strengths, byName, [])
    ensures forall name :: name in byName ==> byName[name].name == name
  {
    forall name | name in byName ensures byName[name].name == name {
      assert HasHeight(g, name);
      var n, x :| Owns(g, name, n, x);
      assert WiredAt(g, registry, strengths, byName, [], n, x);
    }
  }

  lemma FinishedIs(g: Graph, registry: Registry, strengths: Strengths, byName: map<string, Var>, n: GraphNode,
                   x: string)
    requires x in n.variables && WiredAt(g, registry, strengths, byName, [], n, x)
    ensures Finished(byName[GroundName(n.id, x)]) == SampledVar(g, registry, strengths, n, x)
  {
    var v := byName[GroundName(n.id, x)];
    assert v.edges + [] == v.edges;
  }

  lemma WiredIsSampled(g: Graph, registry: Registry, strengths: Strengths, byName: map<string, Var>, vars: seq<Var>)
    requires Wired(g, registry, strengths, byName, []) && NoDup(NamesOf(vars))
    requires forall v :: v in vars <==> exists name :: name in byName && v == Finished(byName[name])
    ensures IsSampled(g, registry, strengths, vars)
  {
    forall v | v in vars ensures HasOwner(g, registry, strengths, v) {
      var name :| name in byName && v == Finished(byName[name]);
      assert HasHeight(g, name);
      var n, x :| Owns(g, name, n, x);
      assert WiredAt(g, registry, strengths, byName, [], n, x);
      FinishedIs(g, registry, strengths, byName, n, x);
      assert Grounds(g, registry, strengths, v, n, x);
    }
    forall n, x | n in g.nodes && x in n.variables ensures SampledVar(g, registry, strengths, n, x) in vars {
      assert WiredAt(g, registry, strengths, byName, [], n, x);
      FinishedIs(g, registry, strengths, byName, n, x);
    }
  }

  // ----- grounding, ordering and sampling -----

  /** The ground names of a slice. */
  ghost function GroundNames(g: Graph): set<string> {
    set n, x | n in g.nodes && x in n.variables :: GroundName(n.id, x)
  }

  lemma SampledNames(g: Graph, registry: Registry, strengths: Strengths, vars: seq<Var>)
    requires IsSampled(g, registry, strengths, vars)
    ensures Elems(NamesOf(vars)) == GroundNames(g)
  {
    forall name | name in Elems(NamesOf(vars)) ensures name in GroundNames(g) {
      var i :| 0 <= i < |vars| && vars[i].name == name;
      assert vars[i] in vars && HasOwner(g, registry, strengths, vars[i]);
      var n, x :| Grounds(g, registry, strengths, vars[i], n, x);
    }
    forall n, x | n in g.nodes && x in n.variables ensures GroundName(n.id, x) in Elems(NamesOf(vars)) {
      var v := SampledVar(g, registry, strengths, n, x);
      var i :| 0 <= i < |vars| && vars[i] == v;
      assert NamesOf(vars)[i] == GroundName(n.id, x);
    }
  }

  /** The coin flips `d` give every world the weight of the solver's network. */
  ghost predicate HasSolverWeights(g: Graph, registry: Registry, strengths: Strengths, d: Dist<Assignment>) {
    forall w: Assignment ::
      Prob(d, w) == if w.Keys == GroundNames(g) then Joint(SolverTables(g, registry, strengths), w) else 0.0
  }

  lemma SampledWeights(g: Graph, registry: Registry, strengths: Strengths, vars: seq<Var>, order: seq<string>,
                       ready: nat)
    requires Coherent(g, registry) && Grounded(g) && !Cyclic(g.edges) && AcyclicKinds(g)
    requires IsSampled(g, registry, strengths, vars)
    requires NoDup(order) && Elems(order) == Elems(NamesOf(vars)) && ready <= |order|
    requires Ordered(CauseEdges(vars), order[..ready])
    requires DeclaredCauses(vars) && !Cyclic(CauseEdges(vars)) ==> ready == |order|
    ensures HasSolverWeights(g, registry, strengths, WorldDist(InOrder(ByName(vars), order), map[]))
  {
    SampledNames(g, registry, strengths, vars);
    var d := WorldDist(InOrder(ByName(vars), order), map[]);
    forall w: Assignment
      ensures Prob(d, w)
           == if w.Keys == GroundNames(g) then Joint(SolverTables(g, registry, strengths), w) else 0.0
    {
      SamplerMatchesSolver(g, registry, strengths, vars, order, ready, w);
    }
  }

  // What the sampler prepares is the same for every listing, so the coin flips
  // are a function of the slice alone.

  ghost function OwnedVars(g: Graph, registry: Registry, strengths: Strengths): set<Var> {
    set n, x | n in g.nodes && x in n.variables :: SampledVar(g, registry, strengths, n, x)
  }

  ghost function SliceVars(g: Graph, registry: Registry, strengths: Strengths): seq<Var> {
    Listing(OwnedVars(g, registry, strengths))
  }

  lemma OwnedExactly(g: Graph, registry: Registry, strengths: Strengths, v: Var)
    ensures v in OwnedVars(g, registry, strengths) <==> HasOwner(g, registry, strengths, v)
  {
    if v in OwnedVars(g, registry, strengths) {
      var n, x :| n in g.nodes && x in n.variables && v == SampledVar(g, registry, strengths, n, x);
      assert Grounds(g, registry, strengths, v, n, x);
    }
    if HasOwner(g, registry, strengths, v) {
      var n, x :| Grounds(g, registry, strengths, v, n, x);
    }
  }

  ghost function FlipsOf(vars: seq<Var>): Dist<Assignment> {
    WorldDist(InOrder(ByName(vars), SweptOrder(SortStrings(NamesOf(vars)), CauseEdges(vars))), map[])
  }

  /** The coin flips that sample a world of the slice. */
  ghost function SliceFlips(g: Graph, registry: Registry, strengths: Strengths): Dist<Assignment> {
    FlipsOf(SliceVars(g, registry, strengths))
  }

  lemma ListedOwned(g: Graph, registry: Registry, strengths: Strengths, v: Var)
    ensures v in SliceVars(g, registry, strengths) <==> HasOwner(g, registry, strengths, v)
  {
    assert v in SliceVars(g, registry, strengths) <==> v in Elems(SliceVars(g, registry, strengths));
    OwnedExactly(g, registry, strengths, v);
  }

  lemma SameNameSame(g: Graph, registry: Registry, strengths: Strengths, v: Var, u: Var)
    requires Grounded(g) && HasOwner(g, registry, strengths, v) && HasOwner(g, registry, strengths, u)
    requires v.name == u.name
    ensures v == u
  {
    var n, x :| Grounds(g, registry, strengths, v, n, x);
    var m, y :| Grounds(g, registry, strengths, u, m, y);
  }

  lemma SliceNamesDistinct(g: Graph, registry: Registry, strengths: Strengths, vars: seq<Var>)
    requires Grounded(g) && NoDup(vars) && forall v :: v in vars ==> HasOwner(g, registry, strengths, v)
    ensures NoDup(NamesOf(vars))
  {
    forall i, j | 0 <= i < j < |vars| ensures vars[i].name != vars[j].name {
      assert vars[i] in vars && vars[j] in vars;
      if vars[i].name == vars[j].name {
        SameNameSame(g, registry, strengths, vars[i], vars[j]);
      }
    }
  }

  lemma SliceVarsSampled(g: Graph, registry: Registry, strengths: Strengths)
    requires Grounded(g)
    ensures IsSampled(g, registry, strengths, SliceVars(g, registry, strengths))
  {
    var vars := SliceVars(g, registry, strengths);
    forall v ensures v in vars <==> HasOwner(g, registry, strengths, v) {
      ListedOwned(g, registry, strengths, v);
    }
    forall n, x | n in g.nodes && x in n.variables ensures SampledVar(g, registry, strengths, n, x) in vars {
      assert Grounds(g, registry, strengths, SampledVar(g, registry, strengths, n, x), n, x);
    }
    SliceNamesDistinct(g, registry, strengths, vars);
  }

  lemma SampledIncludes(g: Graph, registry: Registry, strengths: Strengths, vars: seq<Var>, others: seq<Var>, v: Var)
    requires IsSampled(g, registry, strengths, vars) && IsSampled(g, registry, strengths, others) && v in vars
    ensures v in others
  {
    assert HasOwner(g, registry, strengths, v);
    var n, x :| Grounds(g, registry, strengths, v, n, x);
  }

  /** Two groundings of a slice are listings of the same variables. */
  lemma SampledRelisted(g: Graph, registry: Registry, strengths: Strengths, vars: seq<Var>, others: seq<Var>)
    requires IsSampled(g, registry, strengths, vars) && IsSampled(g, registry, strengths, others)
    ensures multiset(vars) == multiset(others) && ByName(vars) == ByName(others)
  {
    forall v ensures v in vars <==> v in others {
      if v in vars {
        SampledIncludes(g, registry, strengths, vars, others, v);
      }
      if v in others {
        SampledIncludes(g, registry, strengths, others, vars, v);
      }
    }
    DistinctVars(vars);
    DistinctVars(others);
    assert Elems(vars) == Elems(others);
    SameListing(vars, others);
    ByNameSame(vars, others);
  }

  lemma DistinctVars(vars: seq<Var>)
    requires NoDup(NamesOf(vars))
    ensures NoDup(vars) && Distinct(vars)
  {
    forall i, j | 0 <= i < j < |vars| ensures vars[i].name != vars[j].name {
      assert NamesOf(vars)[i] != NamesOf(vars)[j];
    }
  }

  lemma ByNameSame(vars: seq<Var>, others: seq<Var>)
    requires Distinct(vars) && Distinct(others) && forall v :: v in vars <==> v in others
    ensures ByName(vars) == ByName(others)
  {
    ByNameKeys(vars);
    ByNameKeys(others);
    forall v | v in vars ensures v.name in ByName(vars) && v.name in ByName(others)
      ensures v.name in ByName(vars) && ByName(vars)[v.name] == v && ByName(others)[v.name] == v
    {
      ByNameHas(vars, v);
      ByNameHas(others, v);
    }
  }

  lemma FlipsRelisted(g: Graph, registry: Registry, strengths: Strengths, vars: seq<Var>)
    requires Grounded(g) && IsSampled(g, registry, strengths, vars)
    ensures FlipsOf(vars) == SliceFlips(g, registry, strengths)
  {
    SliceVarsSampled(g, registry, strengths);
    SampledRelisted(g, registry, strengths, vars, SliceVars(g, registry, strengths));
    SweepOrder.OrderRelisted(vars, SliceVars(g, registry, strengths));
  }

  /** Grounding and ordering, once for all the worlds of a plan.  On an acyclic
      slice the coin flips give every world the weight of the solver's network. */
  method PrepareSlice(g: Graph, registry: Registry, strengths: Strengths)
    returns (vars: seq<Var>, order: seq<string>)
    requires WellFormed(g) && Grounded(g)
    ensures WorldDist(InOrder(ByName(vars), order), map[]) == SliceFlips(g, registry, strengths)
    ensures Coherent(g, registry) && !Cyclic(g.edges) && AcyclicKinds(g) ==>
              HasSolverWeights(g, registry, strengths, SliceFlips(g, registry, strengths))
  {
    vars := GroundForSampling(g, registry, strengths);
    ghost var ready;
    order, ready := SamplingOrder(vars);
    FlipsRelisted(g, registry, strengths, vars);
    if Coherent(g, registry) && !Cyclic(g.edges) && AcyclicKinds(g) {
      SampledWeights(g, registry, strengths, vars, order, ready);
    }
  }

  /** The planner's sampling as a whole: for every tape of random numbers the
      world follows the coin flips of the slice, which are fixed before any draw
      and, on an acyclic slice, have the weights of the solver's network. */
  method SampleSlice(g: Graph, registry: Registry, strengths: Strengths, rng: Rng) returns (realized: Assignment)
    requires WellFormed(g) && Grounded(g)
    modifies rng
    ensures (realized, rng.at) == Follow(SliceFlips(g, registry, strengths), rng.tape, old(rng.at))
    ensures Coherent(g, registry) && !Cyclic(g.edges) && AcyclicKinds(g) ==>
              HasSolverWeights(g, registry, strengths, SliceFlips(g, registry, strengths))
  {
    var vars, order := PrepareSlice(g, registry, strengths);
    realized := SampleWorld(vars, order, rng);
  }

  // ----- the solver's grounding -----

  method SpecifyVariable(strengths: Strengths, kind: string, x: string, dependsOn: seq<string>)
    returns (spec: VariableSpec)
    ensures spec == SpecOfVariable(strengths, kind, x, dependsOn)
  {
    var parents := SortedKeys(Elems(dependsOn));
    var deps: seq<Dependency> := [];
    while |deps| < |parents|
      invariant |deps| <= |parents|
      invariant forall i :: 0 <= i < |deps| ==> deps[i] == DependencyAt(strengths, kind, x, parents[i])
    {
      deps := deps + [Dependency(parents[|deps|], strengths.inNode(kind, x, parents[|deps|]))];
    }
    spec := VariableSpec(x, deps, strengths.leak(kind, x));
  }

  method SpecifyAll(strengths: Strengths, kind: string, variables: Variables, names: seq<string>)
    returns (specs: seq<VariableSpec>)
    requires forall x :: x in names ==> x in variables
    ensures specs == SpecsFor(strengths, kind, variables, names)
  {
    specs := [];
    while |specs| < |names|
      invariant |specs| <= |names| && specs == SpecsFor(strengths, kind, variables, names)[..|specs|]
    {
      var x := names[|specs|];
      var v := SpecifyVariable(strengths, kind, x, variables[x]);
      specs := specs + [v];
    }
  }

  method SpecifyNode(strengths: Strengths, n: GraphNode) returns (spec: NodeSpec)
    ensures spec == SpecOfNode(strengths, n)
  {
    var names := SortedKeys(n.variables.Keys);
    assert forall x :: x in names ==> x in Elems(names);
    var variables := SpecifyAll(strengths, n.kind, n.variables, names);
    spec := NodeSpec(n.id, variables);
  }

  method SpecifyNodes(strengths: Strengths, nodes: seq<GraphNode>) returns (specs: seq<NodeSpec>)
    ensures specs == SpecsOf(strengths, nodes)
  {
    specs := [];
    ghost var all := SpecsOf(strengths, nodes);
    while |specs| < |nodes|
      invariant |specs| <= |nodes| && forall i :: 0 <= i < |specs| ==> specs[i] == all[i]
    {
      var spec := SpecifyNode(strengths, nodes[|specs|]);
      specs := specs + [spec];
    }
  }

  /** Together with `SliceTables` this is the network of the exact solver. */
  method GroundAttackGraph(g: Graph, registry: Registry, strengths: Strengths)
    returns (specs: seq<NodeSpec>, causes: seq<EnablementCause>)
    ensures specs == SpecsOf(strengths, g.nodes)
    ensures causes == AllCauses(registry, strengths, ById(g.nodes), g.edges)
  {
    var byId := IndexNodes(g.nodes);
    specs := SpecifyNodes(strengths, g.nodes);
    causes := [];
    var rest := g.edges;
    while rest != []
      invariant causes + AllCauses(registry, strengths, byId, rest) == AllCauses(registry, strengths, byId, g.edges)
    {
      var e := rest[0];
      if e.kind in registry.feeds && DeclaresAt(byId, e.to, registry.feeds[e.kind]) {
        var sources := TerminalVariables(registry, KindAt(byId, e.from));
        var own := FromSources(e, registry.feeds[e.kind], sources, strengths.edge(e.kind));
        Associate(causes, own, AllCauses(registry, strengths, byId, rest[1..]));
        causes := causes + own;
      } else {
        assert AllCauses(registry, strengths, byId, rest) == AllCauses(registry, strengths, byId, rest[1..]);
      }
      rest := rest[1..];
    }
    assert causes + [] == causes;
  }

  // ----- derived slices qualify -----

  /** What the schema validation accepts, with no parent listed twice. */
  ghost predicate ValidRegistry(registry: Registry) {
    forall kind :: kind in registry.bearing ==>
      ValidKind(registry.bearing[kind]) && AcyclicKind(registry.bearing[kind])
  }

  ghost predicate FromRegistry(nodes: seq<GraphNode>, registry: Registry) {
    forall n :: n in nodes ==> n.kind in registry.bearing && n.variables == registry.bearing[n.kind]
  }

  lemma EnabledFromRegistry(nodes: seq<InfraNode>, edges: seq<Edge>, registry: Registry)
    ensures FromRegistry(Enabled(nodes, edges, registry).nodes, registry)
  {
    BearingSound(nodes, registry);
    EnabledWellFormed(nodes, edges, registry);
  }

  lemma CutFromRegistry(g: Graph, registry: Registry)
    requires WellFormed(g) && FromRegistry(g.nodes, registry)
    ensures FromRegistry(Cut(g).nodes, registry) && WellFormed(Cut(g))
  {
    CutNodes(g);
    NoDupSorted(Ids(g.nodes));
    var kept := Forward(g.edges, TopologicalRank(g));
    forall e | e in Cut(g).edges ensures e.from in Elems(Ids(Cut(g).nodes)) && e.to in Elems(Ids(Cut(g).nodes)) {
      InSame(Cut(g).edges, kept, e);
      assert e.from in Elems(Ids(g.nodes)) && e.to in Elems(Ids(g.nodes));
    }
  }

  lemma UncutFromRegistry(g: Graph, registry: Registry, target: string, opts: Slice.Options,
                          relevance: map<string, real>)
    requires FromRegistry(g.nodes, registry) && target in ById(g.nodes)
    ensures FromRegistry(Slice.Uncut(g, target, opts, relevance).nodes, registry)
  {
    ByIdKeys(g.nodes);
    Slice.KeptWithin(g, target, opts, relevance);
    var u := Slice.Uncut(g, target, opts, relevance);
    var ids := SortStrings(Listing(Slice.Kept(g, target, opts, relevance)));
    NoDupSorted(Listing(Slice.Kept(g, target, opts, relevance)));
    forall n | n in u.nodes ensures n in g.nodes {
      var i :| 0 <= i < |u.nodes| && u.nodes[i] == n;
      assert ids[i] in Elems(ids);
    }
  }

  /** Every slice of every derived graph meets the conditions under which
      sampler and solver agree, up to the ground names. */
  lemma DerivedSlices(nodes: seq<InfraNode>, edges: seq<Edge>, registry: Registry, target: string, opts: Slice.Options,
                      relevance: map<string, real>)
    requires ValidRegistry(registry)
    ensures var g := Slice.Extract(Enabled(nodes, edges, registry), target, opts, relevance);
            Coherent(g, registry) && !Cyclic(g.edges) && AcyclicKinds(g)
  {
    var whole := Enabled(nodes, edges, registry);
    EnabledFromRegistry(nodes, edges, registry);
    if target in ById(whole.nodes) {
      Slice.UncutWellFormed(whole, target, opts, relevance);
      UncutFromRegistry(whole, registry, target, opts, relevance);
      var u := Slice.Uncut(whole, target, opts, relevance);
      CutFromRegistry(u, registry);
      CutAcyclic(u);
    } else {
      RankedAcyclic([], map[]);
    }
  }
}
