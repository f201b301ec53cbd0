/** Grounding a slice and solving it (sidecar/belief/ground.py).

A Python dict is an association list with distinct keys here, so "the order in
which the caller happened to list things" is the order of the sequences. */
module Ground {
  import opened Factors
  import opened Order
  import opened Lists
  import opened Tables
  import NoisyOr

  datatype Dependency = Dependency(name: string, strength: real)
  datatype VariableSpec = VariableSpec(name: string, dependsOn: seq<Dependency>, leak: real)
  datatype NodeSpec = NodeSpec(id: string, variables: seq<VariableSpec>)
  datatype EnablementCause = EnablementCause(
    sourceNode: string, sourceVariable: string, targetNode: string, targetVariable: string, strength: real)

  datatype Result<T> = Ok(value: T) | ValueError

  // ----- ground names (ground.py:40) -----

  /** Free of the separator, so ground_name accepts it. */
  predicate Groundable(name: string) {
    |name| < 2 || (!(name[0] == ':' && name[1] == ':') && Groundable(name[1..]))
  }

  lemma {:induction false} GroundableAt(name: string, i: nat)
    requires Groundable(name) && i + 1 < |name|
    ensures !(name[i] == ':' && name[i + 1] == ':')
  {
    if i > 0 {
      GroundableAt(name[1..], i - 1);
    }
  }

  function GroundName(node: string, variable: string): string {
    node + "::" + variable
  }

  lemma GroundNamePrefix(n: string, v: string, m: string, w: string)
    requires Groundable(m) && Groundable(v) && |n| < |m|
    requires GroundName(n, v) == GroundName(m, w)
    ensures m == n + ":" && v == ":" + w
  {
    var s := GroundName(n, v);
    assert s[..|n|] == n && s[|n|] == ':' && s[|n| + 1] == ':' && s[|n| + 2..] == v;
    assert s == GroundName(m, w);
    assert s[..|m|] == m && s[|m|] == ':' && s[|m| + 1] == ':' && s[|m| + 2..] == w;
    if |m| >= |n| + 2 {
      GroundableAt(m, |n|);
      assert false;
    }
    assert m == s[..|n|] + [s[|n|]];
    assert v == s[|n| + 2..] == [s[|n| + 2]] + s[|n| + 3..];
  }

  lemma GroundNameShift(n: string, w: string)
    ensures GroundName(n, ":" + w) == GroundName(n + ":", w)
  {
    assert "::" + (":" + w) == ":" + ("::" + w);
    assert n + ("::" + (":" + w)) == (n + ":") + ("::" + w);
    assert GroundName(n, ":" + w) == n + ("::" + (":" + w));
    assert GroundName(n + ":", w) == (n + ":") + ("::" + w);
  }

  lemma GroundNameEqual(n: string, v: string, m: string, w: string)
    requires Groundable(n) && Groundable(v) && Groundable(m) && Groundable(w)
    requires GroundName(n, v) == GroundName(m, w)
    ensures (n == m && v == w) || (m == n + ":" && v == ":" + w) || (n == m + ":" && w == ":" + v)
  {
    if |n| < |m| {
      GroundNamePrefix(n, v, m, w);
    } else if |m| < |n| {
      GroundNamePrefix(m, w, n, v);
    } else {
      GroundNameSplit(n, v, m, w);
    }
  }

  /** Two accepted pairs share a ground name exactly when they are equal or one
      node id is the other with a trailing ":" and the lost ":" leads the other
      variable.  So node ids that do not end in ":" never collide. */
  lemma GroundNameCollision(n: string, v: string, m: string, w: string)
    requires Groundable(n) && Groundable(v) && Groundable(m) && Groundable(w)
    ensures GroundName(n, v) == GroundName(m, w)
       <==> (n == m && v == w) || (m == n + ":" && v == ":" + w) || (n == m + ":" && w == ":" + v)
  {
    GroundNameShift(n, w);
    GroundNameShift(m, v);
    if GroundName(n, v) == GroundName(m, w) {
      GroundNameEqual(n, v, m, w);
    }
  }

  /** For instance. */
  lemma SharedGroundName()
    ensures Groundable("a:") && Groundable("b") && Groundable("a") && Groundable(":b")
    ensures GroundName("a:", "b") == GroundName("a", ":b")
  {
  }

  lemma GroundNameSplit(n: string, v: string, m: string, w: string)
    requires GroundName(n, v) == GroundName(m, w) && |n| == |m|
    ensures n == m && v == w
  {
    assert n == GroundName(n, v)[..|n|] && m == GroundName(m, w)[..|m|];
    assert v == GroundName(n, v)[|n| + 2..] && w == GroundName(m, w)[|m| + 2..];
  }

  // ----- the tables of a slice -----

  predicate DependencyLess(x: Dependency, y: Dependency) {
    Less(x.name, y.name)
  }

  predicate VariableLess(x: VariableSpec, y: VariableSpec) {
    Less(x.name, y.name)
  }

  predicate NodeLess(x: NodeSpec, y: NodeSpec) {
    Less(x.id, y.id)
  }

  /** The sort key of ground.py:93; it omits the strength. */
  predicate SourceLess(x: EnablementCause, y: EnablementCause) {
    Less(x.sourceNode, y.sourceNode) || (x.sourceNode == y.sourceNode && Less(x.sourceVariable, y.sourceVariable))
  }

  /** The causes that target one variable, in input order. */
  function Targeting(es: seq<EnablementCause>, node: string, variable: string): seq<EnablementCause> {
    if es == [] then []
    else
      var init, last := Targeting(es[..|es| - 1], node, variable), es[|es| - 1];
      if last.targetNode == node && last.targetVariable == variable then init + [last] else init
  }

  function DependencyCauses(node: string, ds: seq<Dependency>): seq<NoisyOr.Cause> {
    seq(|ds|, i requires 0 <= i < |ds| => NoisyOr.Cause(GroundName(node, ds[i].name), ds[i].strength))
  }

  function EdgeCause(e: EnablementCause): NoisyOr.Cause {
    NoisyOr.Cause(GroundName(e.sourceNode, e.sourceVariable), e.strength)
  }

  function EdgeCauses(es: seq<EnablementCause>): seq<NoisyOr.Cause> {
    seq(|es|, i requires 0 <= i < |es| => EdgeCause(es[i]))
  }

  function TableFrom(node: string, spec: VariableSpec, edges: seq<EnablementCause>): Table {
    Table(GroundName(node, spec.name),
          DependencyCauses(node, Sort(DependencyLess, spec.dependsOn)) + EdgeCauses(edges),
          spec.leak)
  }

  function TableOf(node: string, spec: VariableSpec, es: seq<EnablementCause>): Table {
    TableFrom(node, spec, Sort(SourceLess, Targeting(es, node, spec.name)))
  }

  function NodeTables(node: string, specs: seq<VariableSpec>, es: seq<EnablementCause>): seq<Table> {
    seq(|specs|, i requires 0 <= i < |specs| => TableOf(node, specs[i], es))
  }

  function TablesOfNode(n: NodeSpec, es: seq<EnablementCause>): seq<Table> {
    NodeTables(n.id, Sort(VariableLess, n.variables), es)
  }

  function TablesOfEach(nodes: seq<NodeSpec>, es: seq<EnablementCause>): seq<seq<Table>> {
    Image(n => TablesOfNode(n, es), nodes)
  }

  function TablesInOrder(nodes: seq<NodeSpec>, es: seq<EnablementCause>): seq<Table> {
    Concat(TablesOfEach(nodes, es))
  }

  /** The network that a slice describes. */
  function SliceTables(nodes: seq<NodeSpec>, es: seq<EnablementCause>): seq<Table> {
    TablesInOrder(Sort(NodeLess, nodes), es)
  }

  // ----- order independence -----

  lemma {:induction false} TargetingAppend(es: seq<EnablementCause>, fs: seq<EnablementCause>, node: string,
                                           variable: string)
    ensures Targeting(es + fs, node, variable) == Targeting(es, node, variable) + Targeting(fs, node, variable)
  {
    if fs == [] {
      assert es + fs == es;
    } else {
      var k := |fs| - 1;
      TargetingAppend(es, fs[..k], node, variable);
      assert (es + fs)[..|es + fs| - 1] == es + fs[..k];
    }
  }

  lemma {:induction false} TargetingPermutation(es: seq<EnablementCause>, node: string, variable: string)
    ensures forall e :: multiset(Targeting(es, node, variable))[e]
                     == if e.targetNode == node && e.targetVariable == variable then multiset(es)[e] else 0
  {
    if es != [] {
      TargetingPermutation(es[..|es| - 1], node, variable);
      assert es == es[..|es| - 1] + [es[|es| - 1]];
    }
  }

  lemma {:induction false} EdgeCausesPermutation(es: seq<EnablementCause>, fs: seq<EnablementCause>)
    requires multiset(es) == multiset(fs)
    ensures multiset(EdgeCauses(es)) == multiset(EdgeCauses(fs))
    decreases |es|
  {
    if es == [] {
      assert |multiset(fs)| == 0;
    } else {
      var n := |es| - 1;
      var i := MatchLast(es, fs);
      EdgeCausesPermutation(es[..n], RemoveAt(fs, i));
      EdgeCausesRemove(es, n);
      EdgeCausesRemove(fs, i);
      assert RemoveAt(es, n) == es[..n];
    }
  }

  lemma EdgeCausesRemove(es: seq<EnablementCause>, i: nat)
    requires i < |es|
    ensures multiset(EdgeCauses(es)) == multiset(EdgeCauses(RemoveAt(es, i))) + multiset{EdgeCause(es[i])}
  {
    var cs := EdgeCauses(es);
    assert cs == cs[..i] + [cs[i]] + cs[i + 1..];
    assert EdgeCauses(RemoveAt(es, i)) == cs[..i] + cs[i + 1..];
  }

  lemma TableFromAlike(node: string, spec: VariableSpec, own: seq<EnablementCause>, its: seq<EnablementCause>)
    requires multiset(own) == multiset(its)
    ensures Alike(TableFrom(node, spec, own), TableFrom(node, spec, its))
  {
    EdgeCausesPermutation(own, its);
  }

  lemma TableAlike(node: string, spec: VariableSpec, es: seq<EnablementCause>, fs: seq<EnablementCause>)
    requires multiset(es) == multiset(fs)
    ensures Alike(TableOf(node, spec, es), TableOf(node, spec, fs))
  {
    TargetingPermutation(es, node, spec.name);
    TargetingPermutation(fs, node, spec.name);
    TableFromAlike(node, spec, Sort(SourceLess, Targeting(es, node, spec.name)),
                   Sort(SourceLess, Targeting(fs, node, spec.name)));
  }

  lemma {:induction false} ConcatAlike(ss: seq<seq<Table>>, tt: seq<seq<Table>>)
    requires |ss| == |tt| && forall i :: 0 <= i < |ss| ==> AllAlike(ss[i], tt[i])
    ensures AllAlike(Concat(ss), Concat(tt))
  {
    if ss != [] {
      ConcatAlike(ss[1..], tt[1..]);
    }
  }

  lemma TablesInOrderAlike(nodes: seq<NodeSpec>, es: seq<EnablementCause>, fs: seq<EnablementCause>)
    requires multiset(es) == multiset(fs)
    ensures AllAlike(TablesInOrder(nodes, es), TablesInOrder(nodes, fs))
  {
    forall i | 0 <= i < |nodes| ensures AllAlike(TablesOfEach(nodes, es)[i], TablesOfEach(nodes, fs)[i]) {
      var specs := Sort(VariableLess, nodes[i].variables);
      forall j | 0 <= j < |specs|
        ensures Alike(TableOf(nodes[i].id, specs[j], es), TableOf(nodes[i].id, specs[j], fs))
      {
        TableAlike(nodes[i].id, specs[j], es, fs);
      }
    }
    ConcatAlike(TablesOfEach(nodes, es), TablesOfEach(nodes, fs));
  }

  ghost predicate DistinctIds(nodes: seq<NodeSpec>) {
    forall i, j :: 0 <= i < j < |nodes| ==> nodes[i].id != nodes[j].id
  }

  lemma NodeOrder(nodes: seq<NodeSpec>)
    requires DistinctIds(nodes)
    ensures StrictWeak(NodeLess) && StrictOn(NodeLess, multiset(nodes))
  {
    LessOrder(multiset{});
    forall x, y | x in multiset(nodes) && y in multiset(nodes) && x != y ensures NodeLess(x, y) || NodeLess(y, x) {
      assert x in nodes && y in nodes;
      LessTotal(x.id, y.id);
    }
  }

  /** Listing the nodes or the enablement causes in another order changes at
      most the order of the causes inside a table. */
  lemma SliceTablesAlike(nodes: seq<NodeSpec>, others: seq<NodeSpec>, es: seq<EnablementCause>,
                         fs: seq<EnablementCause>)
    requires DistinctIds(nodes) && multiset(nodes) == multiset(others) && multiset(es) == multiset(fs)
    ensures AllAlike(SliceTables(nodes, es), SliceTables(others, fs))
  {
    NodeOrder(nodes);
    SortCanonical(NodeLess, nodes, others);
    TablesInOrderAlike(Sort(NodeLess, nodes), es, fs);
  }

  // ----- ground_slice (ground.py:83) -----

  /** ground_name accepts every name that grounding this variable reads. */
  predicate Named(node: string, spec: VariableSpec, es: seq<EnablementCause>) {
    && Groundable(node) && Groundable(spec.name)
    && (forall d | d in spec.dependsOn :: Groundable(d.name))
    && (forall e | e in Targeting(es, node, spec.name) :: Groundable(e.sourceNode) && Groundable(e.sourceVariable))
  }

  predicate AllNamed(nodes: seq<NodeSpec>, es: seq<EnablementCause>) {
    forall n | n in nodes :: forall spec | spec in n.variables :: Named(n.id, spec, es)
  }

  /** Neither ground_name nor noisy_or_factors raises. */
  ghost predicate Accepted(nodes: seq<NodeSpec>, es: seq<EnablementCause>) {
    AllNamed(nodes, es) && AllInRange(SliceTables(nodes, es))
  }

  ghost predicate AllInRange(ts: seq<Table>) {
    forall t :: t in ts ==> t.InRange()
  }

  type Groups = map<(string, string), seq<EnablementCause>>

  function Group(byTarget: Groups, node: string, variable: string): seq<EnablementCause> {
    if (node, variable) in byTarget then byTarget[(node, variable)] else []
  }

  ghost predicate Grouped(byTarget: Groups, es: seq<EnablementCause>) {
    forall node, variable {:trigger Targeting(es, node, variable)} ::
      Targeting(es, node, variable) == Group(byTarget, node, variable)
  }

  ghost predicate GroupedSorted(byTarget: Groups, es: seq<EnablementCause>) {
    forall node, variable {:trigger Targeting(es, node, variable)} ::
      Sort(SourceLess, Targeting(es, node, variable)) == Group(byTarget, node, variable)
  }

  lemma GroupedStep(byTarget: Groups, es: seq<EnablementCause>, e: EnablementCause)
    requires Grouped(byTarget, es)
    ensures Grouped(byTarget[(e.targetNode, e.targetVariable) :=
                               Group(byTarget, e.targetNode, e.targetVariable) + [e]], es + [e])
  {
    assert (es + [e])[..|es|] == es;
  }

  /** The grouping loop of ground.py:88-93. */
  method GroupByTarget(es: seq<EnablementCause>) returns (byTarget: Groups)
    ensures GroupedSorted(byTarget, es)
  {
    byTarget := map[];
    for i := 0 to |es|
      invariant Grouped(byTarget, es[..i])
    {
      var e := es[i];
      GroupedStep(byTarget, es[..i], e);
      assert es[..i] + [e] == es[..i + 1];
      byTarget := byTarget[(e.targetNode, e.targetVariable) := Group(byTarget, e.targetNode, e.targetVariable) + [e]];
    }
    assert es[..|es|] == es;
    byTarget := map key | key in byTarget :: Sort(SourceLess, byTarget[key]);
  }

  /** The table loops of ground.py:96-108. */
  method CollectTables(nodes: seq<NodeSpec>, byTarget: Groups, ghost es: seq<EnablementCause>)
    returns (tables: seq<Table>)
    requires GroupedSorted(byTarget, es)
    ensures tables == SliceTables(nodes, es)
  {
    var sorted := Sort(NodeLess, nodes);
    tables := [];
    for i := 0 to |sorted|
      invariant tables == TablesInOrder(sorted[..i], es)
    {
      var more := CollectNode(sorted[i].id, Sort(VariableLess, sorted[i].variables), byTarget, es);
      SliceStep(sorted, i, es);
      tables := tables + more;
    }
    assert sorted[..|sorted|] == sorted;
  }

  method CollectNode(node: string, specs: seq<VariableSpec>, byTarget: Groups, ghost es: seq<EnablementCause>)
    returns (tables: seq<Table>)
    requires GroupedSorted(byTarget, es)
    ensures tables == NodeTables(node, specs, es)
  {
    tables := [];
    for i := 0 to |specs|
      invariant |tables| == i && forall j :: 0 <= j < i ==> tables[j] == TableOf(node, specs[j], es)
    {
      var edges := Group(byTarget, node, specs[i].name);
      assert edges == Sort(SourceLess, Targeting(es, node, specs[i].name));
      tables := tables + [TableFrom(node, specs[i], edges)];
    }
  }

  lemma SliceStep(nodes: seq<NodeSpec>, i: nat, es: seq<EnablementCause>)
    requires i < |nodes|
    ensures TablesInOrder(nodes[..i + 1], es)
         == TablesInOrder(nodes[..i], es) + NodeTables(nodes[i].id, Sort(VariableLess, nodes[i].variables), es)
  {
    EachSnoc(nodes, i, es);
    ConcatSnoc(TablesOfEach(nodes[..i], es), TablesOfNode(nodes[i], es));
  }

  lemma EachSnoc(nodes: seq<NodeSpec>, i: nat, es: seq<EnablementCause>)
    requires i < |nodes|
    ensures TablesOfEach(nodes[..i + 1], es) == TablesOfEach(nodes[..i], es) + [TablesOfNode(nodes[i], es)]
  {
    ImageSnoc(n => TablesOfNode(n, es), nodes, i);
  }

  /** The factors of every table, or an error for a bad strength or leak. */
  method BuildAll(tables: seq<Table>) returns (r: Result<seq<Factor>>)
    ensures r == if AllInRange(tables) then Ok(Flatten(tables)) else ValueError
  {
    var parts := [];
    for i := 0 to |tables|
      invariant |parts| == i
      invariant forall j :: 0 <= j < i ==> tables[j].InRange() && parts[j] == Tables.Ground(tables[j])
    {
      var built := BuildOne(tables[i]);
      if built.ValueError? {
        assert tables[i] in tables;
        return ValueError;
      }
      parts := parts + [built.value];
    }
    assert parts == GroundEach(tables);
    r := Ok(Concat(parts));
  }

  method BuildOne(t: Table) returns (r: Result<seq<Factor>>)
    ensures r == if t.InRange() then Ok(Tables.Ground(t)) else ValueError
  {
    var built := NoisyOr.Build(t.variable, t.causes, t.leak);
    r := if built.OutOfRange? then ValueError else Ok(built.factors);
  }

  method GroundSlice(nodes: seq<NodeSpec>, es: seq<EnablementCause>) returns (r: Result<seq<Factor>>)
    ensures r == if Accepted(nodes, es) then Ok(Flatten(SliceTables(nodes, es))) else ValueError
  {
    if !AllNamed(nodes, es) {
      return ValueError;
    }
    var byTarget := GroupByTarget(es);
    var tables := CollectTables(nodes, byTarget, es);
    r := BuildAll(tables);
  }
}
