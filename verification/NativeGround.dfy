/** Two groundings of one slice: for the exact solver
(internal/engine/brain/belief_slice_native.go:174-280) and for the sampler
(bamcp.go:723-786).  Every strength is a fixed number: the mean of its
posterior for the solver, the value drawn for the sampler. */
module NativeGround {
  import opened Factors
  import opened Order
  import opened Graphs
  import opened Lists
  import opened AttackGraph
  import opened Tables
  import opened Ground
  import opened Sampler
  import NoisyOr

  datatype Strengths = Strengths(
    leak: (string, string) -> real, inNode: (string, string, string) -> real, edge: string -> real)

  // ----- terminal variables (belief_slice_native.go:264-280) -----

  function Depended(variables: Variables): set<string> {
    set v, d | v in variables && d in variables[v] :: d
  }

  /** The variables of a kind that no variable of that kind depends on. */
  function Sinks(registry: Registry, kind: string): set<string> {
    if kind in registry.bearing then registry.bearing[kind].Keys - Depended(registry.bearing[kind]) else {}
  }

  ghost function Terminals(registry: Registry, kind: string): seq<string> {
    Sorting(Sinks(registry, kind))
  }

  method TerminalVariables(registry: Registry, kind: string) returns (out: seq<string>)
    ensures out == Terminals(registry, kind)
  {
    out := SortedKeys(Sinks(registry, kind));
  }

  // ----- for the solver (belief_slice_native.go:174-227) -----

  predicate DeclaresAt(byId: map<string, GraphNode>, id: string, variable: string) {
    id in byId && variable in byId[id].variables
  }

  function KindAt(byId: map<string, GraphNode>, id: string): string {
    if id in byId then byId[id].kind else ""
  }

  function FromSources(e: Edge, target: string, sources: seq<string>, strength: real): seq<EnablementCause> {
    seq(|sources|, i requires 0 <= i < |sources| => EnablementCause(e.from, sources[i], e.to, target, strength))
  }

  /** What one edge contributes: one cause per terminal variable of its source,
      if its target declares the variable that the edge type feeds. */
  ghost function CausesOf(registry: Registry, strengths: Strengths, byId: map<string, GraphNode>, e: Edge)
    : seq<EnablementCause>
  {
    if e.kind in registry.feeds && DeclaresAt(byId, e.to, registry.feeds[e.kind]) then
      FromSources(e, registry.feeds[e.kind], Terminals(registry, KindAt(byId, e.from)), strengths.edge(e.kind))
    else []
  }

  ghost function AllCauses(registry: Registry, strengths: Strengths, byId: map<string, GraphNode>, edges: seq<Edge>)
    : seq<EnablementCause>
  {
    if edges == [] then []
    else CausesOf(registry, strengths, byId, edges[0]) + AllCauses(registry, strengths, byId, edges[1..])
  }

  function DependencyAt(strengths: Strengths, kind: string, variable: string, parent: string): Dependency {
    Dependency(parent, strengths.inNode(kind, variable, parent))
  }

  /** A map from parent to strength: a parent listed twice counts once. */
  ghost function SpecOfVariable(strengths: Strengths, kind: string, variable: string, dependsOn: seq<string>)
    : VariableSpec
  {
    var parents := Sorting(Elems(dependsOn));
    VariableSpec(variable,
                 seq(|parents|, i requires 0 <= i < |parents| => DependencyAt(strengths, kind, variable, parents[i])),
                 strengths.leak(kind, variable))
  }

  ghost function SpecsFor(strengths: Strengths, kind: string, variables: Variables, names: seq<string>)
    : (specs: seq<VariableSpec>)
    requires forall x :: x in names ==> x in variables
    ensures |specs| == |names|
    ensures forall i :: 0 <= i < |names| ==>
        names[i] in variables && specs[i] == SpecOfVariable(strengths, kind, names[i], variables[names[i]])
  {
    seq(|names|, i requires 0 <= i < |names| => SpecOfVariable(strengths, kind, names[i], variables[names[i]]))
  }

  ghost function SpecOfNode(strengths: Strengths, n: GraphNode): NodeSpec {
    var names := Sorting(n.variables.Keys);
    assert forall x :: x in names ==> x in Elems(names);
    NodeSpec(n.id, SpecsFor(strengths, n.kind, n.variables, names))
  }

  ghost function SpecsOf(strengths: Strengths, nodes: seq<GraphNode>): (specs: seq<NodeSpec>)
    ensures |specs| == |nodes| && forall i :: 0 <= i < |nodes| ==> specs[i] == SpecOfNode(strengths, nodes[i])
  {
    seq(|nodes|, i requires 0 <= i < |nodes| => SpecOfNode(strengths, nodes[i]))
  }

  /** The network that the solver gets for a slice. */
  ghost function SolverTables(g: Graph, registry: Registry, strengths: Strengths): seq<Table> {
    SliceTables(SpecsOf(strengths, g.nodes), AllCauses(registry, strengths, ById(g.nodes), g.edges))
  }

  // ----- for the sampler (bamcp.go:723-786) -----

  predicate ParentLess(x: NoisyOr.Cause, y: NoisyOr.Cause) {
    Less(x.parent, y.parent)
  }

  /** One cause per listed parent; a parent listed twice counts twice. */
  function IntraCauses(strengths: Strengths, n: GraphNode, variable: string, dependsOn: seq<string>)
    : seq<NoisyOr.Cause>
  {
    if dependsOn == [] then []
    else
      (if Groundable(dependsOn[0])
       then [NoisyOr.Cause(GroundName(n.id, dependsOn[0]), strengths.inNode(n.kind, variable, dependsOn[0]))]
       else [])
      + IntraCauses(strengths, n, variable, dependsOn[1..])
  }

  function SourceCauses(from: string, sources: seq<string>, strength: real): seq<NoisyOr.Cause> {
    if sources == [] then []
    else
      (if Groundable(from) && Groundable(sources[0])
       then [NoisyOr.Cause(GroundName(from, sources[0]), strength)] else [])
      + SourceCauses(from, sources[1..], strength)
  }

  /** The causes that the edges give one declared variable. */
  ghost function CausesInto(registry: Registry, strengths: Strengths, byId: map<string, GraphNode>, edges: seq<Edge>,
                            node: string, variable: string): seq<NoisyOr.Cause>
  {
    if edges == [] then []
    else
      var e := edges[0];
      (if e.to == node && e.kind in registry.feeds && registry.feeds[e.kind] == variable
       then SourceCauses(e.from, Terminals(registry, KindAt(byId, e.from)), strengths.edge(e.kind))
       else [])
      + CausesInto(registry, strengths, byId, edges[1..], node, variable)
  }

  ghost function SampledVar(g: Graph, registry: Registry, strengths: Strengths, n: GraphNode, variable: string): Var
    requires variable in n.variables
  {
    Var(GroundName(n.id, variable), strengths.leak(n.kind, variable),
        Sort(ParentLess, IntraCauses(strengths, n, variable, n.variables[variable])),
        Sort(ParentLess, CausesInto(registry, strengths, ById(g.nodes), g.edges, n.id, variable)))
  }

  // ----- what a derived slice satisfies -----

  /** A registry that the schema validation accepts for one kind, with no
      parent listed twice. */
  ghost predicate ValidKind(variables: Variables) {
    forall v :: v in variables ==> NoDup(variables[v]) && Elems(variables[v]) <= variables.Keys
  }

  ghost predicate Coherent(g: Graph, registry: Registry) {
    && WellFormed(g)
    && forall n :: n in g.nodes ==>
         n.kind in registry.bearing && n.variables == registry.bearing[n.kind] && ValidKind(n.variables)
  }

  /** Every ground name is accepted, and no two variables share one. */
  ghost predicate Grounded(g: Graph) {
    && (forall n :: n in g.nodes ==> Groundable(n.id) && forall v :: v in n.variables ==> Groundable(v))
    && (forall m, n, v, u ::
          (m in g.nodes && n in g.nodes && v in m.variables && u in n.variables
           && GroundName(m.id, v) == GroundName(n.id, u))
          ==> m == n && v == u)
  }

  // ----- the causes of a variable agree -----

  lemma {:induction false} IntraIsImage(strengths: Strengths, n: GraphNode, variable: string, dependsOn: seq<string>)
    requires forall d :: d in dependsOn ==> Groundable(d)
    ensures IntraCauses(strengths, n, variable, dependsOn)
         == Image((d: string) => NoisyOr.Cause(GroundName(n.id, d), strengths.inNode(n.kind, variable, d)), dependsOn)
  {
    if dependsOn != [] {
      assert dependsOn[0] in dependsOn;
      IntraIsImage(strengths, n, variable, dependsOn[1..]);
    }
  }

  lemma DependencyCausesImage(strengths: Strengths, n: GraphNode, variable: string, dependsOn: seq<string>)
    ensures multiset(DependencyCauses(n.id,
                                      Sort(DependencyLess,
                                           SpecOfVariable(strengths, n.kind, variable, dependsOn).dependsOn)))
         == multiset(Image((d: string) => NoisyOr.Cause(GroundName(n.id, d), strengths.inNode(n.kind, variable, d)),
                           Sorting(Elems(dependsOn))))
  {
    var spec := SpecOfVariable(strengths, n.kind, variable, dependsOn);
    var f := (d: Dependency) => NoisyOr.Cause(GroundName(n.id, d.name), d.strength);
    var sorted := Sort(DependencyLess, spec.dependsOn);
    ImagePermuted(f, sorted, spec.dependsOn);
    assert DependencyCauses(n.id, sorted) == Image(f, sorted);
    assert Image(f, spec.dependsOn)
        == Image((d: string) => NoisyOr.Cause(GroundName(n.id, d), strengths.inNode(n.kind, variable, d)),
                 Sorting(Elems(dependsOn)));
  }

  /** The two groundings give a variable the same causes inside its node
      exactly when no parent is listed twice. */
  lemma IntraAgree(strengths: Strengths, n: GraphNode, variable: string, dependsOn: seq<string>)
    requires forall d :: d in dependsOn ==> Groundable(d)
    ensures multiset(IntraCauses(strengths, n, variable, dependsOn))
         == multiset(DependencyCauses(n.id,
                                      Sort(DependencyLess,
                                           SpecOfVariable(strengths, n.kind, variable, dependsOn).dependsOn)))
       <==> NoDup(dependsOn)
  {
    var f := (d: string) => NoisyOr.Cause(GroundName(n.id, d), strengths.inNode(n.kind, variable, d));
    var parents := Sorting(Elems(dependsOn));
    IntraIsImage(strengths, n, variable, dependsOn);
    DependencyCausesImage(strengths, n, variable, dependsOn);
    if NoDup(dependsOn) {
      SameListing(dependsOn, parents);
      ImagePermuted(f, dependsOn, parents);
    }
    if multiset(Image(f, dependsOn)) == multiset(Image(f, parents)) {
      assert |multiset(Image(f, dependsOn))| == |dependsOn| && |multiset(Image(f, parents))| == |parents|;
      ElemsCount(parents);
      CountNoDup(dependsOn);
    }
  }

  // ----- what a parent listed twice changes -----

  /** Every listed parent is on and may act or fail. */
  ghost predicate Undecided(f: string -> NoisyOr.Cause, ds: seq<string>, leak: real, a: Assignment) {
    leak < 1.0 && forall d :: d in ds ==> Val(a, f(d).parent) && 0.0 < f(d).strength < 1.0
  }

  ghost function FailChance(f: string -> NoisyOr.Cause, ds: seq<string>, leak: real, a: Assignment): real {
    NoisyOr.Off(Image(f, ds), leak, a)
  }

  lemma FailSnoc(f: string -> NoisyOr.Cause, ds: seq<string>, d: string, leak: real, a: Assignment)
    requires Val(a, f(d).parent)
    ensures FailChance(f, ds + [d], leak, a) == Times(FailChance(f, ds, leak, a), 1.0 - f(d).strength)
  {
    assert Image(f, ds + [d])[..|ds|] == Image(f, ds);
  }

  lemma FailSameListing(f: string -> NoisyOr.Cause, ds: seq<string>, es: seq<string>, leak: real, a: Assignment)
    requires NoDup(ds) && NoDup(es) && Elems(ds) == Elems(es)
    ensures FailChance(f, ds, leak, a) == FailChance(f, es, leak, a)
  {
    SameListing(ds, es);
    ImagePermuted(f, ds, es);
    OffPermutation(Image(f, ds), Image(f, es), leak, a);
  }

  lemma FailSorting(f: string -> NoisyOr.Cause, ds: seq<string>, d: string, leak: real, a: Assignment)
    requires d !in ds && Val(a, f(d).parent)
    ensures FailChance(f, Sorting(Elems(ds + [d])), leak, a)
         == Times(FailChance(f, Sorting(Elems(ds)), leak, a), 1.0 - f(d).strength)
  {
    var longer := Sorting(Elems(ds)) + [d];
    ElemsSnoc(Sorting(Elems(ds)), d);
    ElemsSnoc(ds, d);
    assert d !in Elems(Sorting(Elems(ds)));
    NoDupSnoc(Sorting(Elems(ds)), d);
    FailSameListing(f, longer, Sorting(Elems(ds + [d])), leak, a);
    FailSnoc(f, Sorting(Elems(ds)), d, leak, a);
  }

  lemma Scaled(x: real, y: real, s: real)
    requires 0.0 < x <= y && 0.0 < s < 1.0
    ensures 0.0 < Times(x, s) < x && Times(x, s) <= Times(y, s)
    ensures Times(x, s) == Times(y, s) <==> x == y
  {
    TimesPositive(x, s);
    TimesPositive(x, 1.0 - s);
    TimesDistribute(s, 1.0 - s, x);
    if x < y {
      TimesPositive(y - x, s);
      TimesDistribute(y - x, x, s);
    }
  }

  lemma NoDupSnoc(ds: seq<string>, d: string)
    ensures NoDup(ds + [d]) <==> NoDup(ds) && d !in ds
  {
    var longer := ds + [d];
    if NoDup(longer) {
      assert forall i :: 0 <= i < |ds| ==> ds[i] == longer[i];
      assert longer[|ds|] == d;
    }
  }

  /** Listing parents again makes the variable strictly more likely. */
  ghost predicate RepeatsTell(f: string -> NoisyOr.Cause, ds: seq<string>, leak: real, a: Assignment) {
    var listed, distinct := FailChance(f, ds, leak, a), FailChance(f, Sorting(Elems(ds)), leak, a);
    0.0 < listed <= distinct && (listed == distinct <==> NoDup(ds))
  }

  lemma RepeatsStep(f: string -> NoisyOr.Cause, ds: seq<string>, d: string, leak: real, a: Assignment)
    requires RepeatsTell(f, ds, leak, a) && Val(a, f(d).parent) && 0.0 < f(d).strength < 1.0
    ensures RepeatsTell(f, ds + [d], leak, a)
  {
    FailSnoc(f, ds, d, leak, a);
    NoDupSnoc(ds, d);
    Scaled(FailChance(f, ds, leak, a), FailChance(f, Sorting(Elems(ds)), leak, a), 1.0 - f(d).strength);
    if d in ds {
      assert Elems(ds + [d]) == Elems(ds);
    } else {
      FailSorting(f, ds, d, leak, a);
    }
  }

  lemma {:induction false} RepeatsToldApart(f: string -> NoisyOr.Cause, ds: seq<string>, leak: real, a: Assignment)
    requires Undecided(f, ds, leak, a)
    ensures RepeatsTell(f, ds, leak, a)
  {
    if ds == [] {
      assert Sorting(Elems(ds)) == [];
    } else {
      var init, d := ds[..|ds| - 1], ds[|ds| - 1];
      RepeatsToldApart(f, init, leak, a);
      RepeatsStep(f, init, d, leak, a);
      assert ds == init + [d];
    }
  }

  /** With every parent on and undecided strengths, the two groundings give the
      variable the same chance exactly when no parent is listed twice. */
  lemma IntraChance(strengths: Strengths, n: GraphNode, variable: string, dependsOn: seq<string>, leak: real,
                    a: Assignment)
    requires leak < 1.0
    requires forall d :: d in dependsOn ==>
               Groundable(d) && Val(a, GroundName(n.id, d)) && 0.0 < strengths.inNode(n.kind, variable, d) < 1.0
    ensures NoisyOr.Off(IntraCauses(strengths, n, variable, dependsOn), leak, a)
         == NoisyOr.Off(DependencyCauses(n.id,
                                         Sort(DependencyLess,
                                              SpecOfVariable(strengths, n.kind, variable, dependsOn).dependsOn)),
                        leak, a)
       <==> NoDup(dependsOn)
  {
    var f := (d: string) => NoisyOr.Cause(GroundName(n.id, d), strengths.inNode(n.kind, variable, d));
    IntraIsImage(strengths, n, variable, dependsOn);
    DependencyCausesImage(strengths, n, variable, dependsOn);
    OffPermutation(DependencyCauses(n.id,
                                    Sort(DependencyLess,
                                         SpecOfVariable(strengths, n.kind, variable, dependsOn).dependsOn)),
                   Image(f, Sorting(Elems(dependsOn))), leak, a);
    RepeatsToldApart(f, dependsOn, leak, a);
  }

  /** A parent "a" of strength one half listed twice: the sampler fails with
      chance 1/4, the solver with chance 1/2. */
  lemma ListedTwice(strengths: Strengths, n: GraphNode, variable: string, a: Assignment)
    requires strengths.inNode(n.kind, variable, "a") == 0.5 && Val(a, GroundName(n.id, "a"))
    ensures NoisyOr.Off(IntraCauses(strengths, n, variable, ["a", "a"]), 0.0, a) == 0.25
    ensures NoisyOr.Off(DependencyCauses(n.id,
                                         Sort(DependencyLess,
                                              SpecOfVariable(strengths, n.kind, variable, ["a", "a"]).dependsOn)),
                        0.0, a) == 0.5
  {
    var f := (d: string) => NoisyOr.Cause(GroundName(n.id, d), strengths.inNode(n.kind, variable, d));
    var twice := ["a", "a"];
    assert Groundable("a");
    IntraIsImage(strengths, n, variable, twice);
    DependencyCausesImage(strengths, n, variable, twice);
    assert Elems(twice) == Elems(["a"]);
    FailSameListing(f, ["a"], Sorting(Elems(twice)), 0.0, a);
    OffPermutation(DependencyCauses(n.id,
                                    Sort(DependencyLess,
                                         SpecOfVariable(strengths, n.kind, variable, twice).dependsOn)),
                   Image(f, Sorting(Elems(twice))), 0.0, a);
    FailSnoc(f, [], "a", 0.0, a);
    FailSnoc(f, ["a"], "a", 0.0, a);
    assert [] + ["a"] == ["a"] && ["a"] + ["a"] == twice;
  }

  lemma {:induction false} TargetingUniform(es: seq<EnablementCause>, at: string, of: string, node: string,
                                            variable: string)
    requires forall e :: e in es ==> e.targetNode == at && e.targetVariable == of
    ensures Targeting(es, node, variable) == if at == node && of == variable then es else []
  {
    if es != [] {
      var k := |es| - 1;
      assert es[k] in es;
      TargetingUniform(es[..k], at, of, node, variable);
      assert es == es[..k] + [es[k]];
    }
  }

  lemma {:induction false} SourceCausesAre(e: Edge, target: string, sources: seq<string>, strength: real)
    requires Groundable(e.from) && forall s :: s in sources ==> Groundable(s)
    ensures SourceCauses(e.from, sources, strength) == EdgeCauses(FromSources(e, target, sources, strength))
  {
    if sources != [] {
      assert sources[0] in sources;
      SourceCausesAre(e, target, sources[1..], strength);
      assert FromSources(e, target, sources, strength)[1..] == FromSources(e, target, sources[1..], strength);
    }
  }

  /** Both groundings give a declared variable the same causes across edges. */
  lemma {:induction false} EdgeCausesAgree(registry: Registry, strengths: Strengths, byId: map<string, GraphNode>,
                                           edges: seq<Edge>, node: string, variable: string)
    requires DeclaresAt(byId, node, variable)
    requires forall e :: e in edges ==> Groundable(e.from)
    requires forall e, s :: e in edges && s in Terminals(registry, KindAt(byId, e.from)) ==> Groundable(s)
    ensures EdgeCauses(Targeting(AllCauses(registry, strengths, byId, edges), node, variable))
         == CausesInto(registry, strengths, byId, edges, node, variable)
  {
    if edges != [] {
      var e := edges[0];
      assert e in edges;
      var own, rest := CausesOf(registry, strengths, byId, e), AllCauses(registry, strengths, byId, edges[1..]);
      EdgeCausesAgree(registry, strengths, byId, edges[1..], node, variable);
      TargetingAppend(own, rest, node, variable);
      if own != [] {
        TargetingUniform(own, own[0].targetNode, own[0].targetVariable, node, variable);
      }
      EdgeCausesConcat(Targeting(own, node, variable), Targeting(rest, node, variable));
      var sources := Terminals(registry, KindAt(byId, e.from));
      if e.kind in registry.feeds {
        SourceCausesAre(e, registry.feeds[e.kind], sources, strengths.edge(e.kind));
      }
    }
  }

  lemma EdgeCausesConcat(es: seq<EnablementCause>, fs: seq<EnablementCause>)
    ensures EdgeCauses(es + fs) == EdgeCauses(es) + EdgeCauses(fs)
  {
  }

  lemma EdgesGroundable(g: Graph, registry: Registry, e: Edge)
    requires Coherent(g, registry) && Grounded(g) && e in g.edges
    ensures Groundable(e.from)
    ensures forall s :: s in Terminals(registry, KindAt(ById(g.nodes), e.from)) ==> Groundable(s)
  {
    ByIdKeys(g.nodes);
    assert e.from in Elems(Ids(g.nodes));
    var n := ById(g.nodes)[e.from];
    forall s | s in Terminals(registry, n.kind) ensures Groundable(s) {
      assert s in Elems(Terminals(registry, n.kind));
    }
  }

  lemma NodeIndexed(g: Graph, n: GraphNode)
    requires WellFormed(g) && n in g.nodes
    ensures n.id in ById(g.nodes) && ById(g.nodes)[n.id] == n
  {
    var i :| 0 <= i < |g.nodes| && g.nodes[i] == n;
    ByIdUnique(g.nodes, i);
  }

  /** The two groundings agree on every variable, up to the order of causes. */
  lemma VariablesAlike(g: Graph, registry: Registry, strengths: Strengths, n: GraphNode, variable: string)
    requires Coherent(g, registry) && Grounded(g) && n in g.nodes && variable in n.variables
    ensures Alike(SampledVar(g, registry, strengths, n, variable).Table(),
                  TableOf(n.id, SpecOfVariable(strengths, n.kind, variable, n.variables[variable]),
                          AllCauses(registry, strengths, ById(g.nodes), g.edges)))
  {
    var deps := n.variables[variable];
    var byId := ById(g.nodes);
    forall d | d in deps ensures Groundable(d) {
      assert d in Elems(deps);
    }
    IntraAgree(strengths, n, variable, deps);
    NodeIndexed(g, n);
    forall e | e in g.edges
      ensures Groundable(e.from) && forall s :: s in Terminals(registry, KindAt(byId, e.from)) ==> Groundable(s)
    {
      EdgesGroundable(g, registry, e);
    }
    EdgeCausesAgree(registry, strengths, byId, g.edges, n.id, variable);
    var es := Targeting(AllCauses(registry, strengths, byId, g.edges), n.id, variable);
    EdgeCausesPermutation(Sort(SourceLess, es), es);
  }

  // ----- the networks agree -----

  ghost predicate SpecifiedBy(t: Table, n: NodeSpec, es: seq<EnablementCause>) {
    exists spec :: spec in n.variables && t == TableOf(n.id, spec, es)
  }

  lemma NodeTablesMember(n: NodeSpec, es: seq<EnablementCause>, t: Table)
    ensures t in NodeTables(n.id, Sort(VariableLess, n.variables), es) <==> SpecifiedBy(t, n, es)
  {
    var specs := Sort(VariableLess, n.variables);
    var ts := NodeTables(n.id, specs, es);
    if t in ts {
      var i :| 0 <= i < |ts| && ts[i] == t;
      InSame(specs, n.variables, specs[i]);
    }
    forall spec | spec in n.variables && t == TableOf(n.id, spec, es) ensures t in ts {
      InSame(specs, n.variables, spec);
      var i :| 0 <= i < |specs| && specs[i] == spec;
      assert ts[i] == t;
    }
  }

  lemma OrderedTablesMember(nodes: seq<NodeSpec>, es: seq<EnablementCause>, t: Table)
    ensures t in TablesInOrder(nodes, es) <==> exists n :: n in nodes && SpecifiedBy(t, n, es)
  {
    var each := TablesOfEach(nodes, es);
    ConcatMember(each, t);
    if t in TablesInOrder(nodes, es) {
      var i :| 0 <= i < |each| && t in each[i];
      NodeTablesMember(nodes[i], es, t);
      assert nodes[i] in nodes;
    }
    forall n | n in nodes && SpecifiedBy(t, n, es) ensures t in TablesInOrder(nodes, es) {
      var i :| 0 <= i < |nodes| && nodes[i] == n;
      NodeTablesMember(n, es, t);
      assert t in each[i];
    }
  }

  lemma SliceTablesMember(nodes: seq<NodeSpec>, es: seq<EnablementCause>, t: Table)
    ensures t in SliceTables(nodes, es) <==> exists n :: n in nodes && SpecifiedBy(t, n, es)
  {
    var sorted := Sort(NodeLess, nodes);
    OrderedTablesMember(sorted, es, t);
    forall n ensures n in sorted <==> n in nodes {
      InSame(sorted, nodes, n);
    }
  }

  /** The table is that of variable `v` of the node. */
  ghost predicate DeclaredBy(n: GraphNode, strengths: Strengths, es: seq<EnablementCause>, t: Table, v: string) {
    v in n.variables && t == TableOf(n.id, SpecOfVariable(strengths, n.kind, v, n.variables[v]), es)
  }

  ghost predicate HasDeclaration(nodes: seq<GraphNode>, strengths: Strengths, es: seq<EnablementCause>, t: Table) {
    exists n, v :: n in nodes && DeclaredBy(n, strengths, es, t, v)
  }

  lemma SpecDeclared(strengths: Strengths, n: GraphNode, es: seq<EnablementCause>, t: Table, spec: VariableSpec)
    requires spec in SpecOfNode(strengths, n).variables && t == TableOf(n.id, spec, es)
    ensures exists v :: DeclaredBy(n, strengths, es, t, v)
  {
    var names := Sorting(n.variables.Keys);
    assert forall x :: x in names ==> x in Elems(names);
    var specs := SpecsFor(strengths, n.kind, n.variables, names);
    assert spec in specs;
    var i :| 0 <= i < |specs| && specs[i] == spec;
    assert spec == SpecOfVariable(strengths, n.kind, names[i], n.variables[names[i]]);
    assert DeclaredBy(n, strengths, es, t, names[i]);
  }

  lemma DeclaredSpec(strengths: Strengths, n: GraphNode, v: string)
    requires v in n.variables
    ensures SpecOfVariable(strengths, n.kind, v, n.variables[v]) in SpecOfNode(strengths, n).variables
  {
    var names := Sorting(n.variables.Keys);
    assert v in Elems(names) && forall x :: x in names ==> x in Elems(names);
    var i :| 0 <= i < |names| && names[i] == v;
    assert SpecsFor(strengths, n.kind, n.variables, names)[i] == SpecOfVariable(strengths, n.kind, v, n.variables[v]);
  }

  lemma SpecifiedDeclared(strengths: Strengths, nodes: seq<GraphNode>, es: seq<EnablementCause>, t: Table,
                          spec: NodeSpec)
    requires spec in SpecsOf(strengths, nodes) && SpecifiedBy(t, spec, es)
    ensures HasDeclaration(nodes, strengths, es, t)
  {
    var specs := SpecsOf(strengths, nodes);
    var i :| 0 <= i < |specs| && specs[i] == spec;
    var own :| own in spec.variables && t == TableOf(spec.id, own, es);
    SpecDeclared(strengths, nodes[i], es, t, own);
    var v :| DeclaredBy(nodes[i], strengths, es, t, v);
    assert nodes[i] in nodes;
  }

  /** Every table of the solver is that of a declared variable. */
  lemma SolverTableDeclared(g: Graph, registry: Registry, strengths: Strengths, t: Table)
    requires t in SolverTables(g, registry, strengths)
    ensures HasDeclaration(g.nodes, strengths, AllCauses(registry, strengths, ById(g.nodes), g.edges), t)
  {
    var specs, es := SpecsOf(strengths, g.nodes), AllCauses(registry, strengths, ById(g.nodes), g.edges);
    SliceTablesMember(specs, es, t);
    var spec :| spec in specs && SpecifiedBy(t, spec, es);
    SpecifiedDeclared(strengths, g.nodes, es, t, spec);
  }

  /** Every declared variable has its table in the solver. */
  lemma DeclaredTableSolved(g: Graph, registry: Registry, strengths: Strengths, t: Table, n: GraphNode, v: string)
    requires n in g.nodes && DeclaredBy(n, strengths, AllCauses(registry, strengths, ById(g.nodes), g.edges), t, v)
    ensures t in SolverTables(g, registry, strengths)
  {
    var specs, es := SpecsOf(strengths, g.nodes), AllCauses(registry, strengths, ById(g.nodes), g.edges);
    var i :| 0 <= i < |g.nodes| && g.nodes[i] == n;
    assert specs[i] == SpecOfNode(strengths, n);
    DeclaredSpec(strengths, n, v);
    assert SpecifiedBy(t, specs[i], es);
    SliceTablesMember(specs, es, t);
  }

  ghost predicate DistinctSubjects(ts: seq<Table>) {
    forall i, j :: 0 <= i < j < |ts| ==> ts[i].variable != ts[j].variable
  }

  ghost predicate HasLike(us: seq<Table>, t: Table) {
    exists u :: u in us && Alike(t, u)
  }

  /** Every table of `ts` has its like in `us`. */
  ghost predicate Covered(ts: seq<Table>, us: seq<Table>) {
    forall t {:trigger HasLike(us, t)} :: t in ts ==> HasLike(us, t)
  }

  /** Networks with matching tables have one joint weight. */
  lemma {:induction false} JointMatched(ts: seq<Table>, us: seq<Table>, w: Assignment)
    requires DistinctSubjects(ts) && Covered(ts, us) && |ts| == |us|
    ensures Joint(ts, w) == Joint(us, w)
    decreases |ts|
  {
    if ts != [] {
      assert ts[0] in ts && HasLike(us, ts[0]);
      var u :| u in us && Alike(ts[0], u);
      var i :| 0 <= i < |us| && us[i] == u;
      CoveredRest(ts, us, i);
      JointMatched(ts[1..], RemoveAt(us, i), w);
      JointRemove(us, w, i);
      OffPermutation(ts[0].causes, u.causes, u.leak, w);
    }
  }

  lemma CoveredRest(ts: seq<Table>, us: seq<Table>, i: nat)
    requires DistinctSubjects(ts) && Covered(ts, us) && ts != [] && i < |us| && Alike(ts[0], us[i])
    ensures Covered(ts[1..], RemoveAt(us, i))
  {
    forall t | t in ts[1..] ensures HasLike(RemoveAt(us, i), t) {
      var k :| 1 <= k < |ts| && ts[k] == t;
      assert t in ts && HasLike(us, t);
      var u :| u in us && Alike(t, u);
      StaysWithout(us, i, u);
    }
  }

  lemma StaysWithout(us: seq<Table>, i: nat, u: Table)
    requires i < |us| && u in us && u.variable != us[i].variable
    ensures u in RemoveAt(us, i)
  {
    var j :| 0 <= j < |us| && us[j] == u;
    assert RemoveAt(us, i)[if j < i then j else j - 1] == u;
  }

  lemma SubjectsSame(ts: seq<Table>, us: seq<Table>)
    requires Covered(ts, us)
    ensures Subjects(ts) <= Subjects(us)
  {
    forall t | t in ts ensures t.variable in Subjects(us) {
      assert HasLike(us, t);
    }
  }

  lemma {:induction false} SubjectCount(ts: seq<Table>)
    requires DistinctSubjects(ts)
    ensures |Subjects(ts)| == |ts|
  {
    if ts != [] {
      SubjectCount(ts[1..]);
      assert ts == [ts[0]] + ts[1..];
      assert Subjects(ts) == {ts[0].variable} + Subjects(ts[1..]);
      assert ts[0].variable !in Subjects(ts[1..]);
    }
  }

  lemma LengthsMatch(ts: seq<Table>, us: seq<Table>)
    requires DistinctSubjects(ts) && DistinctSubjects(us) && Covered(ts, us) && Covered(us, ts)
    ensures |ts| == |us|
  {
    SubjectCount(ts);
    SubjectCount(us);
    SubjectsSame(ts, us);
    SubjectsSame(us, ts);
    assert Subjects(ts) == Subjects(us);
  }

  // ----- the causes of a slice have no cycle -----

  /** Without a cycle, the topological order puts the tail of every edge
      before its head. */
  lemma AcyclicRanks(ids: seq<string>, edges: seq<Edge>, e: Edge)
    requires forall f :: f in edges ==> f.from in ids && f.to in ids
    requires !Cyclic(edges) && e in edges
    ensures Climbs(Ranks(PickOrder(ids, edges, {})), e)
  {
    var order := PickOrder(ids, edges, {});
    forall x ensures x in order <==> x in ids && x !in {} {
      assert x in Elems(order) <==> x in Elems(ids);
    }
    if IndexOf(order, e.from) >= IndexOf(order, e.to) {
      ForcedAfterCycle(ids, edges, {}, e);
      AfterCycleCyclic(edges, e.to);
    }
  }

  /** One edge from each parent to the variable that depends on it. */
  ghost function KindEdges(variables: Variables, names: seq<string>): seq<Edge>
    requires forall v :: v in names ==> v in variables
  {
    if names == [] then []
    else
      assert names[0] in names;
      Image((d: string) => Edge("", d, names[0]), variables[names[0]]) + KindEdges(variables, names[1..])
  }

  lemma {:induction false} KindEdgesMember(variables: Variables, names: seq<string>, e: Edge)
    requires forall v :: v in names ==> v in variables
    ensures e in KindEdges(variables, names) <==> e.kind == "" && e.to in names && e.from in variables[e.to]
  {
    if names != [] {
      assert names[0] in names;
      KindEdgesMember(variables, names[1..], e);
      var own := Image((d: string) => Edge("", d, names[0]), variables[names[0]]);
      if e.kind == "" && e.to == names[0] && e.from in variables[names[0]] {
        var i :| 0 <= i < |variables[names[0]]| && variables[names[0]][i] == e.from;
        assert own[i] == e;
      }
      assert names == [names[0]] + names[1..];
    }
  }

  ghost function KindNames(variables: Variables): seq<string> {
    Listing(variables.Keys)
  }

  lemma KindNamesKnown(variables: Variables)
    ensures forall v :: v in KindNames(variables) <==> v in variables
  {
    assert forall v :: v in KindNames(variables) <==> v in Elems(KindNames(variables));
  }

  /** No variable depends on itself, however indirectly. */
  ghost predicate AcyclicKind(variables: Variables) {
    KindNamesKnown(variables);
    !Cyclic(KindEdges(variables, KindNames(variables)))
  }

  ghost function Depths(variables: Variables): map<string, int> {
    KindNamesKnown(variables);
    Ranks(PickOrder(KindNames(variables), KindEdges(variables, KindNames(variables)), {}))
  }

  /** A parent is shallower than the variable that depends on it. */
  lemma DepthsClimb(variables: Variables, v: string, d: string)
    requires ValidKind(variables) && AcyclicKind(variables) && v in variables && d in variables[v]
    ensures d in Depths(variables) && v in Depths(variables) && Depths(variables)[d] < Depths(variables)[v]
  {
    KindNamesKnown(variables);
    var names := KindNames(variables);
    var edges := KindEdges(variables, names);
    forall e | e in edges ensures e.from in names && e.to in names {
      KindEdgesMember(variables, names, e);
      assert e.from in Elems(variables[e.to]);
    }
    KindEdgesMember(variables, names, Edge("", d, v));
    AcyclicRanks(names, edges, Edge("", d, v));
  }

  lemma DepthsBounded(variables: Variables)
    ensures Depths(variables).Keys == variables.Keys
    ensures forall v :: v in variables ==> 0 <= Depths(variables)[v] < |variables|
  {
    var names := KindNames(variables);
    var order := PickOrder(names, KindEdges(variables, names), {});
    KindNamesAll(variables);
    ElemsCount(order);
    RanksWithin(order);
  }

  lemma KindNamesAll(variables: Variables)
    ensures Elems(KindNames(variables)) == variables.Keys
  {
    KindNamesKnown(variables);
  }

  lemma RanksWithin(order: seq<string>)
    ensures Ranks(order).Keys == Elems(order)
    ensures forall x :: x in Ranks(order) ==> 0 <= Ranks(order)[x] < |order|
  {
  }
}
