/** Solving a slice (sidecar/belief/ground.py:114-145): every posterior of the
ground network, independent of how the caller lists the slice. */
module Solve {
  import opened Factors
  import opened Order
  import opened Lists
  import opened Tables
  import opened Ground
  import Query

  datatype Belief = Belief(pFalse: real, pTrue: real)

  type Beliefs = map<string, map<string, Belief>>

  /** What solve_slice reports for one variable: a point mass when it is
      observed, else the normalised marginal of the closed-form network. */
  ghost predicate Reports(b: Belief, ts: seq<Table>, name: string, evidence: Assignment) {
    if name in evidence then b == Observed(evidence[name])
    else Answers(Query.Posterior(b.pFalse, b.pTrue), ts, name, evidence)
  }

  function Observed(state: bool): Belief {
    if state then Belief(0.0, 1.0) else Belief(1.0, 0.0)
  }

  /** The evidence is impossible, so an unobserved variable has no posterior. */
  ghost predicate Impossible(ts: seq<Table>, name: string, evidence: Assignment) {
    name !in evidence && Answers(Query.ZeroProbability, ts, name, evidence)
  }

  function VariableNames(specs: seq<VariableSpec>): set<string> {
    set spec | spec in specs :: spec.name
  }

  function NodeIds(nodes: seq<NodeSpec>): set<string> {
    set n | n in nodes :: n.id
  }

  ghost predicate SolvesNode(m: map<string, Belief>, n: NodeSpec, ts: seq<Table>, evidence: Assignment) {
    && m.Keys == VariableNames(n.variables)
    && (forall v :: v in m ==> Reports(m[v], ts, GroundName(n.id, v), evidence))
  }

  ghost predicate ImpossibleIn(n: NodeSpec, ts: seq<Table>, evidence: Assignment) {
    exists spec :: spec in n.variables && Impossible(ts, GroundName(n.id, spec.name), evidence)
  }

  ghost predicate Solution(r: Result<Beliefs>, nodes: seq<NodeSpec>, es: seq<EnablementCause>, evidence: Assignment) {
    var ts := SliceTables(nodes, es);
    match r
    case Ok(out) =>
      && Accepted(nodes, es)
      && out.Keys == NodeIds(nodes)
      && (forall n :: n in nodes ==> n.id in out && SolvesNode(out[n.id], n, ts, evidence))
    case ValueError => !Accepted(nodes, es) || exists n :: n in nodes && ImpossibleIn(n, ts, evidence)
  }

  // ----- the tables of the declared variables -----

  lemma Declares(nodes: seq<NodeSpec>, es: seq<EnablementCause>, n: NodeSpec, spec: VariableSpec)
    requires n in nodes && spec in n.variables
    ensures GroundName(n.id, spec.name) in Declared(SliceTables(nodes, es))
  {
    var sorted, specs := Sort(NodeLess, nodes), Sort(VariableLess, n.variables);
    InSame(sorted, nodes, n);
    InSame(specs, n.variables, spec);
    var i :| 0 <= i < |sorted| && sorted[i] == n;
    var j :| 0 <= j < |specs| && specs[j] == spec;
    var t := TableOf(n.id, spec, es);
    assert NodeTables(n.id, specs, es)[j] == t;
    ConcatMember(TablesOfEach(sorted, es), t);
    NamesDeclared(SliceTables(nodes, es), t);
    assert t.variable in t.Names();
  }

  // ----- solve_slice -----

  method SolveVariable(factors: seq<Factor>, name: string, evidence: Assignment, ghost ts: seq<Table>)
    returns (r: Result<Belief>)
    requires Proper(ts) && Clear(ts, evidence.Keys) && AllInRange(ts)
    requires factors == Flatten(ts) && name in Declared(ts)
    ensures if r.Ok? then Reports(r.value, ts, name, evidence) else Impossible(ts, name, evidence)
  {
    if name in evidence {
      return Ok(Observed(evidence[name]));
    }
    r := AskVariable(factors, name, evidence, ts);
  }

  method AskVariable(factors: seq<Factor>, name: string, evidence: Assignment, ghost ts: seq<Table>)
    returns (r: Result<Belief>)
    requires Proper(ts) && Clear(ts, evidence.Keys) && AllInRange(ts)
    requires factors == Flatten(ts) && name in Declared(ts) && name !in evidence
    ensures if r.Ok? then Reports(r.value, ts, name, evidence) else Impossible(ts, name, evidence)
  {
    FlattenValid(ts);
    var answer := Query.Ask(factors, name, evidence - {name});
    Answered(answer, ts, name, evidence);
    r := if answer.Posterior? then Ok(Belief(answer.pFalse, answer.pTrue)) else ValueError;
  }

  lemma Answered(answer: Query.Outcome, ts: seq<Table>, name: string, evidence: Assignment)
    requires Proper(ts) && Clear(ts, evidence.Keys) && AllInRange(ts) && name in Declared(ts) && name !in evidence
    requires AllValid(Flatten(ts)) && Query.Exact(answer, Flatten(ts), name, evidence - {name})
    ensures Answers(answer, ts, name, evidence) && !answer.NotInModel?
  {
    assert evidence - {name} == evidence;
    assert Clear(ts, evidence.Keys + {name});
    QueryAnswers(answer, ts, name, evidence);
  }

  method SolveNode(n: NodeSpec, factors: seq<Factor>, evidence: Assignment, ghost ts: seq<Table>)
    returns (r: Result<map<string, Belief>>)
    requires Proper(ts) && Clear(ts, evidence.Keys) && AllInRange(ts) && factors == Flatten(ts)
    requires forall spec :: spec in n.variables ==> GroundName(n.id, spec.name) in Declared(ts)
    ensures if r.Ok? then SolvesNode(r.value, n, ts, evidence) else ImpossibleIn(n, ts, evidence)
  {
    var specs := Sort(VariableLess, n.variables);
    var m := map[];
    for i := 0 to |specs|
      invariant m.Keys == VariableNames(specs[..i])
      invariant forall v :: v in m ==> Reports(m[v], ts, GroundName(n.id, v), evidence)
    {
      InSame(specs, n.variables, specs[i]);
      var one := SolveVariable(factors, GroundName(n.id, specs[i].name), evidence, ts);
      if one.ValueError? {
        return ValueError;
      }
      m := m[specs[i].name := one.value];
      VariableNamesStep(specs, i);
    }
    assert specs[..|specs|] == specs;
    SameVariableNames(specs, n.variables);
    r := Ok(m);
  }

  lemma VariableNamesStep(specs: seq<VariableSpec>, i: nat)
    requires i < |specs|
    ensures VariableNames(specs[..i + 1]) == VariableNames(specs[..i]) + {specs[i].name}
  {
    assert specs[..i + 1] == specs[..i] + [specs[i]];
  }

  lemma SameVariableNames(specs: seq<VariableSpec>, all: seq<VariableSpec>)
    requires multiset(specs) == multiset(all)
    ensures VariableNames(specs) == VariableNames(all)
  {
    forall spec ensures spec in specs <==> spec in all {
      InSame(specs, all, spec);
    }
  }

  lemma NodeIdsStep(nodes: seq<NodeSpec>, i: nat)
    requires i < |nodes|
    ensures NodeIds(nodes[..i + 1]) == NodeIds(nodes[..i]) + {nodes[i].id}
  {
    assert nodes[..i + 1] == nodes[..i] + [nodes[i]];
  }

  lemma SameNodeIds(nodes: seq<NodeSpec>, others: seq<NodeSpec>)
    requires multiset(nodes) == multiset(others)
    ensures NodeIds(nodes) == NodeIds(others)
  {
    forall n ensures n in nodes <==> n in others {
      InSame(nodes, others, n);
    }
  }

  method SolveSlice(nodes: seq<NodeSpec>, es: seq<EnablementCause>, evidence: Assignment) returns (r: Result<Beliefs>)
    requires DistinctIds(nodes)
    requires Proper(SliceTables(nodes, es)) && Clear(SliceTables(nodes, es), evidence.Keys)
    ensures Solution(r, nodes, es, evidence)
  {
    var grounded := GroundSlice(nodes, es);
    if grounded.ValueError? {
      return ValueError;
    }
    ghost var ts := SliceTables(nodes, es);
    var sorted := Sort(NodeLess, nodes);
    forall n, spec | n in sorted && spec in n.variables ensures GroundName(n.id, spec.name) in Declared(ts) {
      InSame(sorted, nodes, n);
      Declares(nodes, es, n, spec);
    }
    DistinctSorted(nodes);
    r := SolveNodes(sorted, grounded.value, evidence, ts);
    SameNodeIds(sorted, nodes);
    forall n ensures n in nodes <==> n in sorted {
      InSame(sorted, nodes, n);
    }
  }

  /** The node loop of ground.py:131-143. */
  method SolveNodes(nodes: seq<NodeSpec>, factors: seq<Factor>, evidence: Assignment, ghost ts: seq<Table>)
    returns (r: Result<Beliefs>)
    requires DistinctIds(nodes)
    requires Proper(ts) && Clear(ts, evidence.Keys) && AllInRange(ts) && factors == Flatten(ts)
    requires forall n, spec :: n in nodes && spec in n.variables ==> GroundName(n.id, spec.name) in Declared(ts)
    ensures r.Ok? ==> r.value.Keys == NodeIds(nodes)
    ensures r.Ok? ==> forall n :: n in nodes ==> n.id in r.value && SolvesNode(r.value[n.id], n, ts, evidence)
    ensures r.ValueError? ==> exists n :: n in nodes && ImpossibleIn(n, ts, evidence)
  {
    var out := map[];
    for i := 0 to |nodes|
      invariant out.Keys == NodeIds(nodes[..i])
      invariant forall j :: 0 <= j < i ==> nodes[j].id in out && SolvesNode(out[nodes[j].id], nodes[j], ts, evidence)
    {
      assert nodes[i] in nodes;
      var one := SolveNode(nodes[i], factors, evidence, ts);
      if one.ValueError? {
        return ValueError;
      }
      out := out[nodes[i].id := one.value];
      NodeIdsStep(nodes, i);
    }
    assert nodes[..|nodes|] == nodes;
    r := Ok(out);
  }

  lemma DistinctSorted(nodes: seq<NodeSpec>)
    requires DistinctIds(nodes)
    ensures DistinctIds(Sort(NodeLess, nodes))
  {
    var sorted := Sort(NodeLess, nodes);
    forall i, j | 0 <= i < j < |sorted| ensures sorted[i].id != sorted[j].id {
      if sorted[i].id == sorted[j].id {
        InSame(sorted, nodes, sorted[i]);
        InSame(sorted, nodes, sorted[j]);
        var x := sorted[i];
        assert sorted[j] == x;
        assert multiset(sorted)[x] >= 2 by { TwicePresent(sorted, i, j); }
        OneCopy(nodes, x);
        assert false;
      }
    }
  }

  lemma {:induction false} OneCopy(nodes: seq<NodeSpec>, x: NodeSpec)
    requires DistinctIds(nodes)
    ensures multiset(nodes)[x] <= 1
  {
    if nodes != [] {
      OneCopy(nodes[1..], x);
      assert nodes == [nodes[0]] + nodes[1..];
      assert x == nodes[0] ==> x !in nodes[1..];
    }
  }

  // ----- the listing of the slice is irrelevant -----

  lemma {:induction false} AlikeInRange(ts: seq<Table>, us: seq<Table>)
    requires AllAlike(ts, us) && AllInRange(ts)
    ensures AllInRange(us)
  {
    forall u | u in us ensures u.InRange() {
      var i :| 0 <= i < |us| && us[i] == u;
      assert Alike(ts[i], us[i]) && ts[i] in ts;
      forall c | c in u.causes ensures 0.0 <= c.strength <= 1.0 {
        InSame(ts[i].causes, us[i].causes, c);
      }
    }
  }

  lemma NamedAnyOrder(nodes: seq<NodeSpec>, others: seq<NodeSpec>, es: seq<EnablementCause>, fs: seq<EnablementCause>)
    requires multiset(nodes) == multiset(others) && multiset(es) == multiset(fs) && AllNamed(nodes, es)
    ensures AllNamed(others, fs)
  {
    forall n | n in others ensures forall spec :: spec in n.variables ==> Named(n.id, spec, fs) {
      InSame(nodes, others, n);
      forall spec | spec in n.variables ensures Named(n.id, spec, fs) {
        TargetingPermutation(es, n.id, spec.name);
        TargetingPermutation(fs, n.id, spec.name);
        var x, y := Targeting(es, n.id, spec.name), Targeting(fs, n.id, spec.name);
        assert multiset(x) == multiset(y);
        forall e | e in y ensures e in x {
          InSame(x, y, e);
        }
      }
    }
  }

  lemma AcceptedAnyOrder(nodes: seq<NodeSpec>, others: seq<NodeSpec>, es: seq<EnablementCause>,
                         fs: seq<EnablementCause>)
    requires DistinctIds(nodes) && multiset(nodes) == multiset(others) && multiset(es) == multiset(fs)
    requires Accepted(nodes, es)
    ensures Accepted(others, fs)
  {
    NamedAnyOrder(nodes, others, es, fs);
    SliceTablesAlike(nodes, others, es, fs);
    AlikeInRange(SliceTables(nodes, es), SliceTables(others, fs));
  }

  /** One listing cannot fail where another succeeds. */
  lemma OkBoth(r: Result<Beliefs>, q: Result<Beliefs>, nodes: seq<NodeSpec>, others: seq<NodeSpec>,
               es: seq<EnablementCause>, fs: seq<EnablementCause>, evidence: Assignment)
    requires DistinctIds(nodes) && multiset(nodes) == multiset(others) && multiset(es) == multiset(fs)
    requires Solution(r, nodes, es, evidence) && Solution(q, others, fs, evidence) && r.Ok?
    ensures q.Ok?
  {
    AcceptedAnyOrder(nodes, others, es, fs);
    SliceTablesAlike(nodes, others, es, fs);
    if n :| n in others && ImpossibleIn(n, SliceTables(others, fs), evidence) {
      InSame(nodes, others, n);
      NeverImpossible(r.value[n.id], n, SliceTables(nodes, es), SliceTables(others, fs), evidence);
    }
  }

  lemma NeverImpossible(m: map<string, Belief>, n: NodeSpec, ts: seq<Table>, us: seq<Table>, evidence: Assignment)
    requires AllAlike(ts, us) && SolvesNode(m, n, ts, evidence)
    ensures !ImpossibleIn(n, us, evidence)
  {
    forall spec | spec in n.variables ensures !Impossible(us, GroundName(n.id, spec.name), evidence) {
      var name := GroundName(n.id, spec.name);
      assert spec.name in VariableNames(n.variables);
      if name !in evidence && Answers(Query.ZeroProbability, us, name, evidence) {
        AlikeAnswers(Query.Posterior(m[spec.name].pFalse, m[spec.name].pTrue), Query.ZeroProbability, ts, us, name,
                     evidence);
      }
    }
  }

  lemma SameNode(m: map<string, Belief>, k: map<string, Belief>, n: NodeSpec, ts: seq<Table>, us: seq<Table>,
                 evidence: Assignment)
    requires AllAlike(ts, us) && SolvesNode(m, n, ts, evidence) && SolvesNode(k, n, us, evidence)
    ensures m == k
  {
    assert m.Keys == k.Keys;
    forall v | v in m ensures m[v] == k[v] {
      var name := GroundName(n.id, v);
      if name !in evidence {
        AlikeAnswers(Query.Posterior(m[v].pFalse, m[v].pTrue), Query.Posterior(k[v].pFalse, k[v].pTrue), ts, us, name,
                     evidence);
      }
    }
  }

  /** The same slice listed in any order of nodes and enablement causes gives
      the same beliefs, or the same error. */
  lemma SolveAnyOrder(r: Result<Beliefs>, q: Result<Beliefs>, nodes: seq<NodeSpec>, others: seq<NodeSpec>,
                      es: seq<EnablementCause>, fs: seq<EnablementCause>, evidence: Assignment)
    requires DistinctIds(nodes) && DistinctIds(others) && multiset(nodes) == multiset(others)
    requires multiset(es) == multiset(fs)
    requires Solution(r, nodes, es, evidence) && Solution(q, others, fs, evidence)
    ensures r == q
  {
    if r.Ok? {
      OkBoth(r, q, nodes, others, es, fs, evidence);
      SliceTablesAlike(nodes, others, es, fs);
      forall n ensures n in nodes <==> n in others {
        InSame(nodes, others, n);
      }
      forall n | n in nodes ensures r.value[n.id] == q.value[n.id] {
        SameNode(r.value[n.id], q.value[n.id], n, SliceTables(nodes, es), SliceTables(others, fs), evidence);
      }
      SameNodeIds(nodes, others);
      assert r.value == q.value;
    } else if q.Ok? {
      OkBoth(q, r, others, nodes, fs, es, evidence);
    }
  }

  // ----- any listing of the whole slice -----

  /** `t` in another order, with each element in another form. */
  ghost predicate Relisting<T(!new)>(same: (T, T) -> bool, s: seq<T>, t: seq<T>) {
    exists u :: multiset(u) == multiset(t) && Pairwise(same, s, u)
  }

  ghost predicate Pairwise<T>(same: (T, T) -> bool, s: seq<T>, u: seq<T>) {
    |s| == |u| && forall i :: 0 <= i < |s| ==> same(s[i], u[i])
  }

  /** The same variable with its dependencies listed in another order. */
  predicate SameSpec(v: VariableSpec, w: VariableSpec) {
    v.name == w.name && v.leak == w.leak && multiset(v.dependsOn) == multiset(w.dependsOn)
  }

  /** The same node with its variables and their dependencies relisted. */
  ghost predicate SameNodeSpec(n: NodeSpec, m: NodeSpec) {
    n.id == m.id && Relisting(SameSpec, n.variables, m.variables)
  }

  /** The keys of the dictionaries of a node are distinct. */
  ghost predicate Keyed(n: NodeSpec) {
    && (forall x, y :: x in n.variables && y in n.variables && x != y ==> x.name != y.name)
    && (forall v :: v in n.variables ==> KeyedSpec(v))
  }

  ghost predicate KeyedSpec(v: VariableSpec) {
    forall x, y :: x in v.dependsOn && y in v.dependsOn && x != y ==> x.name != y.name
  }

  function SortedSpec(v: VariableSpec): VariableSpec {
    v.(dependsOn := Sort(DependencyLess, v.dependsOn))
  }

  /** The node as grounding reads it: everything sorted. */
  function Normal(n: NodeSpec): NodeSpec {
    NodeSpec(n.id, Sort(VariableLess, Image(SortedSpec, n.variables)))
  }

  lemma NameOrders()
    ensures StrictWeak(DependencyLess) && StrictWeak(VariableLess)
  {
    LessOrder(multiset{});
  }

  lemma SpecNormal(v: VariableSpec, w: VariableSpec)
    requires SameSpec(v, w) && KeyedSpec(v)
    ensures SortedSpec(v) == SortedSpec(w)
  {
    NameOrders();
    forall x, y | x in multiset(v.dependsOn) && y in multiset(v.dependsOn) && x != y
      ensures DependencyLess(x, y) || DependencyLess(y, x)
    {
      assert x in v.dependsOn && y in v.dependsOn;
      LessTotal(x.name, y.name);
    }
    SortCanonical(DependencyLess, v.dependsOn, w.dependsOn);
  }

  lemma PairwiseImage<T(!new), U>(same: (T, T) -> bool, f: T -> U, s: seq<T>, u: seq<T>, t: seq<T>)
    requires Pairwise(same, s, u) && multiset(u) == multiset(t)
    requires forall i :: 0 <= i < |s| && same(s[i], u[i]) ==> f(s[i]) == f(u[i])
    ensures multiset(Image(f, s)) == multiset(Image(f, t))
  {
    assert Image(f, s) == Image(f, u);
    ImagePermuted(f, u, t);
  }

  lemma SpecsNormal(n: NodeSpec, m: NodeSpec)
    requires SameNodeSpec(n, m) && Keyed(n)
    ensures multiset(Image(SortedSpec, n.variables)) == multiset(Image(SortedSpec, m.variables))
  {
    var u :| multiset(u) == multiset(m.variables) && Pairwise(SameSpec, n.variables, u);
    forall i | 0 <= i < |u| ensures SortedSpec(n.variables[i]) == SortedSpec(u[i]) {
      assert n.variables[i] in n.variables;
      SpecNormal(n.variables[i], u[i]);
    }
    PairwiseImage(SameSpec, SortedSpec, n.variables, u, m.variables);
  }

  lemma NodeNormal(n: NodeSpec, m: NodeSpec)
    requires SameNodeSpec(n, m) && Keyed(n)
    ensures Normal(n) == Normal(m)
  {
    SpecsNormal(n, m);
    var x, y := Image(SortedSpec, n.variables), Image(SortedSpec, m.variables);
    NameOrders();
    forall a, b | a in multiset(x) && b in multiset(x) && a != b ensures VariableLess(a, b) || VariableLess(b, a) {
      NamesApart(n, a, b);
      LessTotal(a.name, b.name);
    }
    SortCanonical(VariableLess, x, y);
  }

  lemma NamesApart(n: NodeSpec, a: VariableSpec, b: VariableSpec)
    requires Keyed(n) && a != b
    requires a in Image(SortedSpec, n.variables) && b in Image(SortedSpec, n.variables)
    ensures a.name != b.name
  {
    var x := Image(SortedSpec, n.variables);
    var i :| 0 <= i < |x| && x[i] == a;
    var j :| 0 <= j < |x| && x[j] == b;
    assert n.variables[i] in n.variables && n.variables[j] in n.variables;
  }

  // ----- grounding does not see the difference -----

  lemma SpecTable(node: string, spec: VariableSpec, es: seq<EnablementCause>)
    ensures TableOf(node, SortedSpec(spec), es) == TableOf(node, spec, es)
  {
    NameOrders();
    SortSorted(DependencyLess, spec.dependsOn);
    SortFixed(DependencyLess, Sort(DependencyLess, spec.dependsOn));
  }

  lemma SortedSpecs(n: NodeSpec)
    ensures Sort(VariableLess, Normal(n).variables) == Image(SortedSpec, Sort(VariableLess, n.variables))
  {
    NameOrders();
    SortSorted(VariableLess, Image(SortedSpec, n.variables));
    SortFixed(VariableLess, Normal(n).variables);
    SortImage(VariableLess, SortedSpec, n.variables);
  }

  lemma SpecTables(node: string, specs: seq<VariableSpec>, es: seq<EnablementCause>)
    ensures NodeTables(node, Image(SortedSpec, specs), es) == NodeTables(node, specs, es)
  {
    var x, y := NodeTables(node, Image(SortedSpec, specs), es), NodeTables(node, specs, es);
    forall k | 0 <= k < |specs| ensures x[k] == y[k] {
      SpecTable(node, specs[k], es);
    }
  }

  lemma NodeNormalTables(n: NodeSpec, es: seq<EnablementCause>)
    ensures TablesOfNode(Normal(n), es) == TablesOfNode(n, es)
  {
    SortedSpecs(n);
    SpecTables(n.id, Sort(VariableLess, n.variables), es);
  }

  lemma NormalTables(ns: seq<NodeSpec>, es: seq<EnablementCause>)
    ensures SliceTables(Image(Normal, ns), es) == SliceTables(ns, es)
  {
    SortImage(NodeLess, Normal, ns);
    var sorted := Sort(NodeLess, ns);
    var x, y := TablesOfEach(Image(Normal, sorted), es), TablesOfEach(sorted, es);
    forall i | 0 <= i < |sorted| ensures x[i] == y[i] {
      NodeNormalTables(sorted[i], es);
    }
    assert x == y;
  }

  /** A specification of the node and its sorted form, either way. */
  lemma NormalMember(n: NodeSpec, v: VariableSpec)
    ensures v in n.variables ==> SortedSpec(v) in Normal(n).variables
    ensures v in Normal(n).variables ==> exists w :: w in n.variables && v == SortedSpec(w)
  {
    var x := Image(SortedSpec, n.variables);
    InSame(Normal(n).variables, x, v);
    InSame(Normal(n).variables, x, SortedSpec(v));
    if v in n.variables {
      var i :| 0 <= i < |n.variables| && n.variables[i] == v;
      assert x[i] == SortedSpec(v);
    }
    if v in Normal(n).variables {
      var i :| 0 <= i < |x| && x[i] == v;
      assert n.variables[i] in n.variables;
    }
  }

  lemma SpecNamed(node: string, spec: VariableSpec, es: seq<EnablementCause>)
    ensures Named(node, SortedSpec(spec), es) <==> Named(node, spec, es)
  {
    forall d ensures d in SortedSpec(spec).dependsOn <==> d in spec.dependsOn {
      InSame(SortedSpec(spec).dependsOn, spec.dependsOn, d);
    }
  }

  ghost predicate NodeNamed(n: NodeSpec, es: seq<EnablementCause>) {
    forall spec :: spec in n.variables ==> Named(n.id, spec, es)
  }

  lemma NormalNamed(n: NodeSpec, es: seq<EnablementCause>)
    ensures NodeNamed(Normal(n), es) <==> NodeNamed(n, es)
  {
    forall v | v in n.variables && NodeNamed(Normal(n), es) ensures Named(n.id, v, es) {
      NormalMember(n, v);
      SpecNamed(n.id, v, es);
    }
    forall v | v in Normal(n).variables && NodeNamed(n, es) ensures Named(n.id, v, es) {
      NormalMember(n, v);
      var w :| w in n.variables && v == SortedSpec(w);
      SpecNamed(n.id, w, es);
    }
  }

  lemma AllNormalNamed(ns: seq<NodeSpec>, es: seq<EnablementCause>)
    ensures AllNamed(Image(Normal, ns), es) <==> AllNamed(ns, es)
  {
    var ms := Image(Normal, ns);
    forall i | 0 <= i < |ns| ensures ns[i] in ns && ms[i] in ms && (NodeNamed(ms[i], es) <==> NodeNamed(ns[i], es)) {
      NormalNamed(ns[i], es);
    }
    assert AllNamed(ns, es) <==> forall i :: 0 <= i < |ns| ==> NodeNamed(ns[i], es);
    assert AllNamed(ms, es) <==> forall i :: 0 <= i < |ms| ==> NodeNamed(ms[i], es);
  }

  lemma NormalNames(n: NodeSpec)
    ensures VariableNames(Normal(n).variables) == VariableNames(n.variables)
  {
    forall name | name in VariableNames(n.variables) ensures name in VariableNames(Normal(n).variables) {
      var v :| v in n.variables && v.name == name;
      NormalMember(n, v);
    }
    forall name | name in VariableNames(Normal(n).variables) ensures name in VariableNames(n.variables) {
      var v :| v in Normal(n).variables && v.name == name;
      NormalMember(n, v);
    }
  }

  lemma NormalSolves(m: map<string, Belief>, n: NodeSpec, ts: seq<Table>, evidence: Assignment)
    requires SolvesNode(m, n, ts, evidence)
    ensures SolvesNode(m, Normal(n), ts, evidence)
  {
    NormalNames(n);
  }

  lemma NormalIds(ns: seq<NodeSpec>)
    ensures NodeIds(Image(Normal, ns)) == NodeIds(ns) && (DistinctIds(ns) ==> DistinctIds(Image(Normal, ns)))
  {
    var ms := Image(Normal, ns);
    forall id | id in NodeIds(ns) ensures id in NodeIds(ms) {
      var i :| 0 <= i < |ns| && ns[i].id == id;
      assert ms[i] in ms;
    }
    forall id | id in NodeIds(ms) ensures id in NodeIds(ns) {
      var i :| 0 <= i < |ms| && ms[i].id == id;
      assert ns[i] in ns;
    }
  }

  lemma NormalAccepted(ns: seq<NodeSpec>, es: seq<EnablementCause>)
    ensures Accepted(Image(Normal, ns), es) <==> Accepted(ns, es)
  {
    NormalTables(ns, es);
    AllNormalNamed(ns, es);
  }

  lemma ImageAll<T(!new)>(p: T -> bool, f: T -> T, s: seq<T>)
    requires (forall x :: x in s ==> p(x)) && forall x :: p(x) ==> p(f(x))
    ensures forall y :: y in Image(f, s) ==> p(y)
  {
    forall y | y in Image(f, s) ensures p(y) {
      var i :| 0 <= i < |s| && Image(f, s)[i] == y;
      assert s[i] in s;
    }
  }

  ghost predicate SolvedIn(out: Beliefs, n: NodeSpec, ts: seq<Table>, evidence: Assignment) {
    n.id in out && SolvesNode(out[n.id], n, ts, evidence)
  }

  lemma NormalOk(out: Beliefs, ns: seq<NodeSpec>, ts: seq<Table>, evidence: Assignment)
    requires forall n :: n in ns ==> SolvedIn(out, n, ts, evidence)
    ensures forall m :: m in Image(Normal, ns) ==> SolvedIn(out, m, ts, evidence)
  {
    forall n | SolvedIn(out, n, ts, evidence) ensures SolvedIn(out, Normal(n), ts, evidence) {
      NormalSolves(out[n.id], n, ts, evidence);
    }
    ImageAll((n: NodeSpec) => SolvedIn(out, n, ts, evidence), Normal, ns);
  }

  lemma NormalImpossible(ns: seq<NodeSpec>, n: NodeSpec, ts: seq<Table>, evidence: Assignment)
    requires n in ns && ImpossibleIn(n, ts, evidence)
    ensures exists m :: m in Image(Normal, ns) && ImpossibleIn(m, ts, evidence)
  {
    var i :| 0 <= i < |ns| && ns[i] == n;
    var v :| v in n.variables && Impossible(ts, GroundName(n.id, v.name), evidence);
    NormalMember(n, v);
    assert ImpossibleIn(Normal(n), ts, evidence);
    assert Image(Normal, ns)[i] in Image(Normal, ns);
  }

  /** A solution of a slice solves its normal form. */
  lemma NormalSolution(r: Result<Beliefs>, ns: seq<NodeSpec>, es: seq<EnablementCause>, evidence: Assignment)
    requires Solution(r, ns, es, evidence)
    ensures Solution(r, Image(Normal, ns), es, evidence)
  {
    var ts := SliceTables(ns, es);
    NormalTables(ns, es);
    NormalAccepted(ns, es);
    NormalIds(ns);
    if r.Ok? {
      forall n | n in ns ensures SolvedIn(r.value, n, ts, evidence) {
      }
      NormalOk(r.value, ns, ts, evidence);
      forall m | m in Image(Normal, ns) ensures m.id in r.value && SolvesNode(r.value[m.id], m, ts, evidence) {
        assert SolvedIn(r.value, m, ts, evidence);
      }
    } else if n :| n in ns && ImpossibleIn(n, ts, evidence) {
      NormalImpossible(ns, n, ts, evidence);
    }
  }

  lemma NodesNormal(nodes: seq<NodeSpec>, others: seq<NodeSpec>)
    requires Relisting(SameNodeSpec, nodes, others) && forall n :: n in nodes ==> Keyed(n)
    ensures multiset(Image(Normal, nodes)) == multiset(Image(Normal, others))
  {
    var u :| multiset(u) == multiset(others) && Pairwise(SameNodeSpec, nodes, u);
    forall i | 0 <= i < |u| ensures Normal(nodes[i]) == Normal(u[i]) {
      assert nodes[i] in nodes;
      NodeNormal(nodes[i], u[i]);
    }
    PairwiseImage(SameNodeSpec, Normal, nodes, u, others);
  }

  /** The same slice in any listing of its nodes, of the variables of each node,
      of the dependencies of each variable and of the enablement causes gives the
      same beliefs, or the same error. */
  lemma SolveAnyListing(r: Result<Beliefs>, q: Result<Beliefs>, nodes: seq<NodeSpec>, others: seq<NodeSpec>,
                        es: seq<EnablementCause>, fs: seq<EnablementCause>, evidence: Assignment)
    requires DistinctIds(nodes) && DistinctIds(others) && forall n :: n in nodes ==> Keyed(n)
    requires Relisting(SameNodeSpec, nodes, others) && multiset(es) == multiset(fs)
    requires Solution(r, nodes, es, evidence) && Solution(q, others, fs, evidence)
    ensures r == q
  {
    NodesNormal(nodes, others);
    NormalSolution(r, nodes, es, evidence);
    NormalSolution(q, others, fs, evidence);
    NormalIds(nodes);
    NormalIds(others);
    SolveAnyOrder(r, q, Image(Normal, nodes), Image(Normal, others), es, fs, evidence);
  }
}
