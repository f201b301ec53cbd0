/** The sampler and the exact solver describe the same network
(internal/engine/brain/bamcp.go:723-899 against
belief_slice_native.go:174-227). */
module SamplerNetwork {
  import opened Factors
  import opened Order
  import opened Graphs
  import opened Lists
  import opened AttackGraph
  import opened Tables
  import opened Ground
  import opened Sampler
  import opened TopoOrder
  import opened NativeGround
  import NoisyOr

  /** `v` is what the sampler grounds for variable `x` of node `n`. */
  ghost predicate Grounds(g: Graph, registry: Registry, strengths: Strengths, v: Var, n: GraphNode, x: string) {
    n in g.nodes && x in n.variables && v == SampledVar(g, registry, strengths, n, x)
  }

  ghost predicate HasOwner(g: Graph, registry: Registry, strengths: Strengths, v: Var) {
    exists n, x :: Grounds(g, registry, strengths, v, n, x)
  }

  /** `vars` holds one grounded variable for each declared one. */
  ghost predicate IsSampled(g: Graph, registry: Registry, strengths: Strengths, vars: seq<Var>) {
    && NoDup(NamesOf(vars))
    && (forall v {:trigger HasOwner(g, registry, strengths, v)} :: v in vars ==> HasOwner(g, registry, strengths, v))
    && (forall n, x {:trigger SampledVar(g, registry, strengths, n, x)} ::
          n in g.nodes && x in n.variables ==> SampledVar(g, registry, strengths, n, x) in vars)
  }

  // ----- one joint weight -----

  lemma {:induction false} ConcatDistinct(ss: seq<seq<Table>>)
    requires forall i :: 0 <= i < |ss| ==> DistinctSubjects(ss[i])
    requires forall i, j, t, u :: 0 <= i < j < |ss| && t in ss[i] && u in ss[j] ==> t.variable != u.variable
    ensures DistinctSubjects(Concat(ss))
  {
    if ss != [] {
      var rest := Concat(ss[1..]);
      ConcatDistinct(ss[1..]);
      var all := ss[0] + rest;
      forall i, j | 0 <= i < j < |all| ensures all[i].variable != all[j].variable {
        if i < |ss[0]| <= j {
          assert all[j] in rest;
          ConcatMember(ss[1..], all[j]);
          var k :| 0 <= k < |ss[1..]| && all[j] in ss[1..][k];
          assert all[j] in ss[k + 1] && all[i] in ss[0];
        }
      }
    }
  }

  ghost predicate SpecFor(g: Graph, strengths: Strengths, spec: NodeSpec) {
    exists n :: n in g.nodes && spec == SpecOfNode(strengths, n)
  }

  lemma SpecTables(g: Graph, strengths: Strengths, n: GraphNode, es: seq<EnablementCause>, t: Table)
    requires t in NodeTables(n.id, Sort(VariableLess, SpecOfNode(strengths, n).variables), es)
    ensures exists x :: x in n.variables && t.variable == GroundName(n.id, x)
  {
    NodeTablesMember(SpecOfNode(strengths, n), es, t);
    var spec :| spec in SpecOfNode(strengths, n).variables && t == TableOf(n.id, spec, es);
    SpecDeclared(strengths, n, es, t, spec);
    var x :| DeclaredBy(n, strengths, es, t, x);
  }

  function NameOf(spec: VariableSpec): string {
    spec.name
  }

  lemma SpecListed(strengths: Strengths, n: GraphNode)
    ensures Image(NameOf, SpecOfNode(strengths, n).variables) == Sorting(n.variables.Keys)
  {
    var names := Sorting(n.variables.Keys);
    assert forall x :: x in names ==> x in Elems(names);
  }

  lemma SpecNames(strengths: Strengths, n: GraphNode)
    ensures var sorted := Sort(VariableLess, SpecOfNode(strengths, n).variables);
            && (forall i :: 0 <= i < |sorted| ==> sorted[i].name in n.variables)
            && (forall i, j :: 0 <= i < j < |sorted| ==> sorted[i].name != sorted[j].name)
  {
    var specs := SpecOfNode(strengths, n).variables;
    var sorted := Sort(VariableLess, specs);
    SpecListed(strengths, n);
    ImagePermuted(NameOf, specs, sorted);
    NamesInside(Sorting(n.variables.Keys), n.variables.Keys, sorted);
  }

  lemma NamesInside(names: seq<string>, keys: set<string>, sorted: seq<VariableSpec>)
    requires NoDup(names) && Elems(names) == keys && multiset(names) == multiset(Image(NameOf, sorted))
    ensures forall i :: 0 <= i < |sorted| ==> sorted[i].name in keys
    ensures forall i, j :: 0 <= i < j < |sorted| ==> sorted[i].name != sorted[j].name
  {
    var ordered := Image(NameOf, sorted);
    NoDupPermuted(names, ordered);
    forall i | 0 <= i < |sorted| ensures sorted[i].name in keys {
      assert ordered[i] in ordered;
      InSame(ordered, names, ordered[i]);
    }
    forall i, j | 0 <= i < j < |sorted| ensures sorted[i].name != sorted[j].name {
      assert ordered[i] != ordered[j];
    }
  }

  lemma NodeTablesDistinct(g: Graph, strengths: Strengths, n: GraphNode, es: seq<EnablementCause>)
    requires Grounded(g) && n in g.nodes
    ensures DistinctSubjects(NodeTables(n.id, Sort(VariableLess, SpecOfNode(strengths, n).variables), es))
  {
    SpecNames(strengths, n);
  }

  lemma SpecsDistinct(strengths: Strengths, nodes: seq<GraphNode>)
    requires NoDup(Ids(nodes))
    ensures NoDup(Sort(NodeLess, SpecsOf(strengths, nodes)))
  {
    var specs := SpecsOf(strengths, nodes);
    forall i, j | 0 <= i < j < |specs| ensures specs[i] != specs[j] {
      assert Ids(nodes)[i] != Ids(nodes)[j];
    }
    NoDupPermuted(specs, Sort(NodeLess, specs));
  }

  lemma SolverDistinct(g: Graph, registry: Registry, strengths: Strengths)
    requires Coherent(g, registry) && Grounded(g)
    ensures DistinctSubjects(SolverTables(g, registry, strengths))
  {
    var specs := SpecsOf(strengths, g.nodes);
    var sorted := Sort(NodeLess, specs);
    var es := AllCauses(registry, strengths, ById(g.nodes), g.edges);
    var each := TablesOfEach(sorted, es);
    SpecsDistinct(strengths, g.nodes);
    forall i | 0 <= i < |sorted| ensures SpecFor(g, strengths, sorted[i]) {
      InSame(sorted, specs, sorted[i]);
      var k :| 0 <= k < |specs| && specs[k] == sorted[i];
      assert g.nodes[k] in g.nodes;
    }
    forall i | 0 <= i < |each| ensures DistinctSubjects(each[i]) {
      SpecDistinct(g, strengths, sorted[i], es);
    }
    forall i, j, t: Table, u: Table | 0 <= i < j < |each| && t in each[i] && u in each[j]
      ensures t.variable != u.variable
    {
      CrossDistinct(g, strengths, sorted[i], sorted[j], es, t, u);
    }
    ConcatDistinct(each);
  }

  lemma SpecDistinct(g: Graph, strengths: Strengths, spec: NodeSpec, es: seq<EnablementCause>)
    requires Grounded(g) && SpecFor(g, strengths, spec)
    ensures DistinctSubjects(NodeTables(spec.id, Sort(VariableLess, spec.variables), es))
  {
    var n :| n in g.nodes && spec == SpecOfNode(strengths, n);
    NodeTablesDistinct(g, strengths, n, es);
  }

  lemma CrossDistinct(g: Graph, strengths: Strengths, a: NodeSpec, b: NodeSpec, es: seq<EnablementCause>, t: Table,
                      u: Table)
    requires Grounded(g) && SpecFor(g, strengths, a) && SpecFor(g, strengths, b) && a != b
    requires t in NodeTables(a.id, Sort(VariableLess, a.variables), es)
    requires u in NodeTables(b.id, Sort(VariableLess, b.variables), es)
    ensures t.variable != u.variable
  {
    var m :| m in g.nodes && a == SpecOfNode(strengths, m);
    var n :| n in g.nodes && b == SpecOfNode(strengths, n);
    SpecTables(g, strengths, m, es, t);
    SpecTables(g, strengths, n, es, u);
  }

  lemma SampledCovered(g: Graph, registry: Registry, strengths: Strengths, vars: seq<Var>)
    requires Coherent(g, registry) && Grounded(g) && IsSampled(g, registry, strengths, vars)
    ensures Covered(TablesOf(vars), SolverTables(g, registry, strengths))
  {
    var us := SolverTables(g, registry, strengths);
    forall t | t in TablesOf(vars) ensures HasLike(us, t) {
      var i :| 0 <= i < |vars| && t == vars[i].Table();
      assert vars[i] in vars && HasOwner(g, registry, strengths, vars[i]);
      var n, x :| Grounds(g, registry, strengths, vars[i], n, x);
      VariablesAlike(g, registry, strengths, n, x);
      var u := TableOf(n.id, SpecOfVariable(strengths, n.kind, x, n.variables[x]),
                       AllCauses(registry, strengths, ById(g.nodes), g.edges));
      DeclaredTableSolved(g, registry, strengths, u, n, x);
      assert u in us && Alike(t, u);
    }
  }

  lemma SampledLike(g: Graph, registry: Registry, strengths: Strengths, vars: seq<Var>, n: GraphNode, x: string)
    requires Coherent(g, registry) && Grounded(g) && IsSampled(g, registry, strengths, vars)
    requires n in g.nodes && x in n.variables
    ensures HasLike(TablesOf(vars), TableOf(n.id, SpecOfVariable(strengths, n.kind, x, n.variables[x]),
                                            AllCauses(registry, strengths, ById(g.nodes), g.edges)))
  {
    VariablesAlike(g, registry, strengths, n, x);
    var v := SampledVar(g, registry, strengths, n, x);
    var i :| 0 <= i < |vars| && vars[i] == v;
    LikeAt(vars, i, TableOf(n.id, SpecOfVariable(strengths, n.kind, x, n.variables[x]),
                            AllCauses(registry, strengths, ById(g.nodes), g.edges)));
  }

  lemma LikeAt(vars: seq<Var>, i: nat, u: Table)
    requires i < |vars| && Alike(vars[i].Table(), u)
    ensures HasLike(TablesOf(vars), u)
  {
    assert TablesOf(vars)[i] == vars[i].Table();
    assert Alike(u, vars[i].Table());
  }

  lemma SolverCovered(g: Graph, registry: Registry, strengths: Strengths, vars: seq<Var>)
    requires Coherent(g, registry) && Grounded(g) && IsSampled(g, registry, strengths, vars)
    ensures Covered(SolverTables(g, registry, strengths), TablesOf(vars))
  {
    forall u | u in SolverTables(g, registry, strengths) ensures HasLike(TablesOf(vars), u) {
      SolverTableDeclared(g, registry, strengths, u);
      var n, x :| n in g.nodes
        && DeclaredBy(n, strengths, AllCauses(registry, strengths, ById(g.nodes), g.edges), u, x);
      SampledLike(g, registry, strengths, vars, n, x);
    }
  }

  /** Sampler and solver give every world the same weight. */
  lemma SameWeights(g: Graph, registry: Registry, strengths: Strengths, vars: seq<Var>, w: Assignment)
    requires Coherent(g, registry) && Grounded(g) && IsSampled(g, registry, strengths, vars)
    ensures Joint(TablesOf(vars), w) == Joint(SolverTables(g, registry, strengths), w)
  {
    SampledCovered(g, registry, strengths, vars);
    SolverCovered(g, registry, strengths, vars);
    SolverDistinct(g, registry, strengths);
    var ts := TablesOf(vars);
    assert DistinctSubjects(ts) by {
      forall i, j | 0 <= i < j < |ts| ensures ts[i].variable != ts[j].variable {
        assert NamesOf(vars)[i] != NamesOf(vars)[j];
      }
    }
    LengthsMatch(ts, SolverTables(g, registry, strengths));
    JointMatched(ts, SolverTables(g, registry, strengths), w);
  }

  // ----- the order exists -----

  ghost function Bound(nodes: seq<GraphNode>): nat {
    if nodes == [] then 1 else |nodes[0].variables| + Bound(nodes[1..])
  }

  lemma {:induction false} Bounded(nodes: seq<GraphNode>, n: GraphNode)
    requires n in nodes
    ensures |n.variables| < Bound(nodes)
  {
    BoundPositive(nodes[1..]);
    if n != nodes[0] {
      Bounded(nodes[1..], n);
    }
  }

  lemma {:induction false} BoundPositive(nodes: seq<GraphNode>)
    ensures Bound(nodes) > 0
  {
    if nodes != [] {
      BoundPositive(nodes[1..]);
    }
  }

  /** Nodes by topological rank, and within a node variables by depth. */
  ghost function Height(g: Graph, n: GraphNode, x: string): int
    requires WellFormed(g) && n in g.nodes && x in n.variables
  {
    RankKeys(g);
    NodeIndexed(g, n);
    DepthsBounded(n.variables);
    TopologicalRank(g)[n.id] * Bound(g.nodes) + Depths(n.variables)[x]
  }

  lemma {:induction false} Carry(a: int, b: int, m: int, x: int, y: int)
    requires a < b && 0 <= x < m && 0 <= y
    ensures a * m + x < b * m + y
    decreases b - a
  {
    assert b * m == (b - 1) * m + m;
    if a < b - 1 {
      Carry(a, b - 1, m, x, y);
    }
  }

  lemma EdgeClimbs(g: Graph, e: Edge, m: GraphNode, n: GraphNode, s: string, x: string)
    requires WellFormed(g) && !Cyclic(g.edges) && e in g.edges
    requires m in g.nodes && n in g.nodes && m.id == e.from && n.id == e.to && s in m.variables && x in n.variables
    ensures Height(g, m, s) < Height(g, n, x)
  {
    RankKeys(g);
    CutsNothingIffAcyclic(g);
    CutNodes(g);
    assert e !in Backward(g.edges, TopologicalRank(g));
    DepthsBounded(m.variables);
    DepthsBounded(n.variables);
    Bounded(g.nodes, m);
    Carry(TopologicalRank(g)[m.id], TopologicalRank(g)[n.id], Bound(g.nodes), Depths(m.variables)[s],
          Depths(n.variables)[x]);
  }

  ghost predicate Owns(g: Graph, name: string, n: GraphNode, x: string) {
    n in g.nodes && x in n.variables && name == GroundName(n.id, x)
  }

  lemma {:induction false} IntraMember(strengths: Strengths, n: GraphNode, x: string, dependsOn: seq<string>,
                                       c: NoisyOr.Cause)
    requires c in IntraCauses(strengths, n, x, dependsOn)
    ensures exists d :: d in dependsOn && c.parent == GroundName(n.id, d)
  {
    if c in IntraCauses(strengths, n, x, dependsOn[1..]) {
      IntraMember(strengths, n, x, dependsOn[1..], c);
      var d :| d in dependsOn[1..] && c.parent == GroundName(n.id, d);
      assert d in dependsOn;
    } else {
      assert dependsOn[0] in dependsOn;
    }
  }

  lemma {:induction false} SourceMember(from: string, sources: seq<string>, strength: real, c: NoisyOr.Cause)
    requires c in SourceCauses(from, sources, strength)
    ensures exists s :: s in sources && c.parent == GroundName(from, s)
  {
    if c in SourceCauses(from, sources[1..], strength) {
      SourceMember(from, sources[1..], strength, c);
      var s :| s in sources[1..] && c.parent == GroundName(from, s);
      assert s in sources;
    } else {
      assert sources[0] in sources;
    }
  }

  lemma {:induction false} IntoMember(registry: Registry, strengths: Strengths, byId: map<string, GraphNode>,
                                      edges: seq<Edge>, node: string, x: string, c: NoisyOr.Cause)
    returns (e: Edge, s: string)
    requires c in CausesInto(registry, strengths, byId, edges, node, x)
    ensures e in edges && e.to == node && s in Terminals(registry, KindAt(byId, e.from))
    ensures c.parent == GroundName(e.from, s)
  {
    if c in CausesInto(registry, strengths, byId, edges[1..], node, x) {
      e, s := IntoMember(registry, strengths, byId, edges[1..], node, x, c);
    } else {
      e := edges[0];
      SourceMember(e.from, Terminals(registry, KindAt(byId, e.from)), strengths.edge(e.kind), c);
      s :| s in Terminals(registry, KindAt(byId, e.from)) && c.parent == GroundName(e.from, s);
    }
  }

  ghost predicate AcyclicKinds(g: Graph) {
    forall n :: n in g.nodes ==> AcyclicKind(n.variables)
  }

  /** The owner of a cause stands lower than the variable it causes. */
  lemma CauseBelow(g: Graph, registry: Registry, strengths: Strengths, n: GraphNode, x: string, c: NoisyOr.Cause)
    returns (m: GraphNode, y: string)
    requires Coherent(g, registry) && !Cyclic(g.edges) && AcyclicKinds(g)
    requires n in g.nodes && x in n.variables && c in SampledVar(g, registry, strengths, n, x).Causes()
    ensures Owns(g, c.parent, m, y) && Height(g, m, y) < Height(g, n, x)
  {
    var deps := n.variables[x];
    var intra := IntraCauses(strengths, n, x, deps);
    var byId := ById(g.nodes);
    var into := CausesInto(registry, strengths, byId, g.edges, n.id, x);
    InSame(Sort(ParentLess, intra), intra, c);
    InSame(Sort(ParentLess, into), into, c);
    if c in intra {
      IntraMember(strengths, n, x, deps, c);
      var d :| d in deps && c.parent == GroundName(n.id, d);
      assert d in Elems(deps);
      DepthsClimb(n.variables, x, d);
      m, y := n, d;
    } else {
      var e, s := IntoMember(registry, strengths, byId, g.edges, n.id, x, c);
      m := SourceNode(g, registry, e, s);
      y := s;
      EdgeClimbs(g, e, m, n, s, x);
    }
  }

  lemma SourceNode(g: Graph, registry: Registry, e: Edge, s: string) returns (m: GraphNode)
    requires Coherent(g, registry) && e in g.edges && s in Terminals(registry, KindAt(ById(g.nodes), e.from))
    ensures m in g.nodes && m.id == e.from && s in m.variables
  {
    ByIdKeys(g.nodes);
    assert e.from in Elems(Ids(g.nodes));
    m := ById(g.nodes)[e.from];
    assert s in Elems(Terminals(registry, m.kind));
  }

  /** The ground name of each declared variable with its height. */
  ghost function Heights(g: Graph, vars: seq<Var>): map<string, int>
    requires WellFormed(g)
  {
    map name | name in NamesOf(vars) && HasHeight(g, name) :: HeightOf(g, name)
  }

  ghost predicate HasHeight(g: Graph, name: string) {
    exists n, x :: Owns(g, name, n, x)
  }

  ghost function HeightOf(g: Graph, name: string): int
    requires WellFormed(g) && HasHeight(g, name)
  {
    var n, x :| Owns(g, name, n, x);
    Height(g, n, x)
  }

  lemma HeightUnique(g: Graph, name: string, n: GraphNode, x: string)
    requires WellFormed(g) && Grounded(g) && Owns(g, name, n, x)
    ensures HasHeight(g, name) && HeightOf(g, name) == Height(g, n, x)
  {
    var m, y :| Owns(g, name, m, y) && HeightOf(g, name) == Height(g, m, y);
  }

  /** Every cause is declared and stands lower, so the causes of a slice have
      no cycle. */
  lemma CausesClimb(g: Graph, registry: Registry, strengths: Strengths, vars: seq<Var>, e: Edge)
    requires Coherent(g, registry) && Grounded(g) && !Cyclic(g.edges) && AcyclicKinds(g)
    requires IsSampled(g, registry, strengths, vars) && e in CauseEdges(vars)
    ensures e.from in NamesOf(vars) && e.to in NamesOf(vars)
    ensures HasHeight(g, e.from) && HasHeight(g, e.to) && HeightOf(g, e.from) < HeightOf(g, e.to)
  {
    EdgesIntoNames(vars);
    CauseEdgesInside(vars, e);
    var v :| v in vars && e in OwnEdges(v);
    assert HasOwner(g, registry, strengths, v);
    var n, x :| Grounds(g, registry, strengths, v, n, x);
    var i :| 0 <= i < |v.Causes()| && OwnEdges(v)[i] == e;
    var m, y := CauseBelow(g, registry, strengths, n, x, v.Causes()[i]);
    HeightUnique(g, e.to, n, x);
    HeightUnique(g, e.from, m, y);
    var u := SampledVar(g, registry, strengths, m, y);
    var j :| 0 <= j < |vars| && vars[j] == u;
    assert NamesOf(vars)[j] == e.from;
  }

  lemma CausesAcyclic(g: Graph, registry: Registry, strengths: Strengths, vars: seq<Var>)
    requires Coherent(g, registry) && Grounded(g) && !Cyclic(g.edges) && AcyclicKinds(g)
    requires IsSampled(g, registry, strengths, vars)
    ensures DeclaredCauses(vars) && !Cyclic(CauseEdges(vars))
  {
    var rank := Heights(g, vars);
    forall e | e in CauseEdges(vars)
      ensures e.from in NamesOf(vars) && e.from in rank && e.to in rank && rank[e.from] < rank[e.to]
    {
      CausesClimb(g, registry, strengths, vars, e);
    }
    RankedAcyclic(CauseEdges(vars), rank);
  }

  // ----- the theorem -----

  /** For fixed strengths and an acyclic slice with declared parents, the
      sampling order is topological and the probability of sampling a world is
      the product of the tables that the solver gets. */
  lemma SamplerMatchesSolver(g: Graph, registry: Registry, strengths: Strengths, vars: seq<Var>, order: seq<string>,
                             ready: nat, w: Assignment)
    requires Coherent(g, registry) && Grounded(g) && !Cyclic(g.edges) && AcyclicKinds(g)
    requires IsSampled(g, registry, strengths, vars)
    requires NoDup(order) && Elems(order) == Elems(NamesOf(vars)) && ready <= |order|
    requires Ordered(CauseEdges(vars), order[..ready])
    requires DeclaredCauses(vars) && !Cyclic(CauseEdges(vars)) ==> ready == |order|
    ensures Ordered(CauseEdges(vars), order)
    ensures Prob(WorldDist(InOrder(ByName(vars), order), map[]), w)
         == if w.Keys == Elems(NamesOf(vars)) then Joint(SolverTables(g, registry, strengths), w) else 0.0
  {
    CausesAcyclic(g, registry, strengths, vars);
    assert order[..ready] == order;
    SamplerExact(vars, order, w);
    SameWeights(g, registry, strengths, vars, w);
  }
}
