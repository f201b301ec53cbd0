/** When the grounded factor list depends on how the causes are listed
(sidecar/belief/ground.py:88-93).  The sort key of the causes omits the
strength, so causes that share source and target keep their input order. */
module CauseOrder {
  import opened Factors
  import opened Order
  import opened Lists
  import opened Tables
  import opened Ground
  import opened Solve
  import NativeGround
  import NoisyOr

  /** Same source and same target: the sort cannot tell them apart. */
  predicate SameLink(e: EnablementCause, f: EnablementCause) {
    && e.sourceNode == f.sourceNode && e.sourceVariable == f.sourceVariable
    && e.targetNode == f.targetNode && e.targetVariable == f.targetVariable
  }

  ghost predicate Targets(nodes: seq<NodeSpec>, e: EnablementCause, n: NodeSpec, spec: VariableSpec) {
    n in nodes && spec in n.variables && n.id == e.targetNode && spec.name == e.targetVariable
  }

  ghost predicate Lands(nodes: seq<NodeSpec>, e: EnablementCause) {
    exists n, spec :: Targets(nodes, e, n, spec)
  }

  /** Causes of a declared variable that share their source share their
      strength. */
  ghost predicate Unambiguous(nodes: seq<NodeSpec>, es: seq<EnablementCause>) {
    forall e, f :: e in es && f in es && SameLink(e, f) && Lands(nodes, e) ==> e == f
  }

  // ----- what the factor list shows of the tables -----

  lemma {:induction false} MechanismAt(ch: NoisyOr.Chain, n: nat, i: nat)
    requires i < n <= |ch.zs| == |ch.causes|
    ensures |ch.Mechanisms(n)| == n && ch.Mechanisms(n)[i] == NoisyOr.MechanismFactor(ch.zs[i], ch.causes[i])
  {
    if n > 1 {
      MechanismAt(ch, n - 1, if i < n - 1 then i else 0);
    }
  }

  lemma {:induction false} GateCount(ch: NoisyOr.Chain, n: nat, out: string)
    requires n <= |ch.zs| == |ch.accs|
    ensures |ch.Gates(n, out)| == n
  {
    if n > 0 {
      GateCount(ch, n - 1, ch.accs[n - 1]);
    }
  }

  lemma Middle(first: Factor, mechanisms: seq<Factor>, gates: seq<Factor>, i: nat)
    requires i < |mechanisms|
    ensures ([first] + mechanisms + gates)[1 + i] == mechanisms[i]
    ensures |[first] + mechanisms + gates| == 1 + |mechanisms| + |gates|
  {
  }

  lemma MechanismShape(z: string, c: NoisyOr.Cause)
    ensures var f := NoisyOr.MechanismFactor(z, c);
            f.variables == [z, c.parent] && |f.table| == 4 && f.table[3] == c.strength
  {
  }

  /** The factors of a table show its causes. */
  lemma GroundShape(t: Table, i: nat)
    requires i < |t.causes|
    ensures |Tables.Ground(t)| == 1 + 2 * |t.causes|
    ensures Tables.Ground(t)[1 + i] == NoisyOr.MechanismFactor(NoisyOr.Z(t.variable, i), t.causes[i])
  {
    var ch := NoisyOr.ChainOf(t.variable, t.causes, t.leak);
    MechanismAt(ch, |t.causes|, i);
    GateCount(ch, |t.causes|, t.variable);
    Middle(NoisyOr.Prior(ch.accs[0], t.leak), ch.Mechanisms(|t.causes|), ch.Gates(|t.causes|, t.variable), i);
  }

  lemma GroundInjective(t: Table, u: Table)
    requires Tables.Ground(t) == Tables.Ground(u) && |t.causes| == |u.causes|
    ensures t.causes == u.causes
  {
    forall i | 0 <= i < |t.causes| ensures t.causes[i] == u.causes[i] {
      GroundShape(t, i);
      GroundShape(u, i);
      MechanismShape(NoisyOr.Z(t.variable, i), t.causes[i]);
      MechanismShape(NoisyOr.Z(u.variable, i), u.causes[i]);
    }
  }

  lemma GroundLength(t: Table)
    ensures |Tables.Ground(t)| == 1 + 2 * |t.causes|
  {
    if t.causes != [] {
      GroundShape(t, 0);
    }
  }

  lemma SplitSame<T>(a: seq<T>, b: seq<T>, c: seq<T>, d: seq<T>)
    requires a + b == c + d && |a| == |c|
    ensures a == c && b == d
  {
    assert a == (a + b)[..|a|] && c == (c + d)[..|c|];
    assert b == (a + b)[|a|..] && d == (c + d)[|c|..];
  }

  /** Alike networks with one factor list are equal. */
  lemma {:induction false} FlattenInjective(ts: seq<Table>, us: seq<Table>)
    requires AllAlike(ts, us) && Flatten(ts) == Flatten(us)
    ensures ts == us
  {
    if ts != [] {
      assert Alike(ts[0], us[0]);
      SameSize(ts[0].causes, us[0].causes);
      FlattenHead(ts);
      FlattenHead(us);
      GroundLength(ts[0]);
      GroundLength(us[0]);
      SplitSame(Tables.Ground(ts[0]), Flatten(ts[1..]), Tables.Ground(us[0]), Flatten(us[1..]));
      GroundInjective(ts[0], us[0]);
      FlattenInjective(ts[1..], us[1..]);
      ConsSame(ts, us);
    }
  }

  lemma SameSize<T>(s: seq<T>, t: seq<T>)
    requires multiset(s) == multiset(t)
    ensures |s| == |t|
  {
    assert |multiset(s)| == |multiset(t)|;
  }

  lemma {:induction false} ConcatInjective<T>(ss: seq<seq<T>>, tt: seq<seq<T>>)
    requires |ss| == |tt| && forall i :: 0 <= i < |ss| ==> |ss[i]| == |tt[i]|
    requires Concat(ss) == Concat(tt)
    ensures ss == tt
  {
    if ss != [] {
      SplitSame(ss[0], Concat(ss[1..]), tt[0], Concat(tt[1..]));
      ConcatInjective(ss[1..], tt[1..]);
      ConsSame(ss, tt);
    }
  }

  // ----- what a table shows of the causes -----

  type Source = (string, string)

  function SourceOf(e: EnablementCause): Source {
    (e.sourceNode, e.sourceVariable)
  }

  predicate PairLess(a: Source, b: Source) {
    Less(a.0, b.0) || (a.0 == b.0 && Less(a.1, b.1))
  }

  lemma PairOrder(s: multiset<Source>)
    ensures StrictOn(PairLess, s)
  {
    forall a ensures !PairLess(a, a) {
      LessIrreflexive(a.0);
      LessIrreflexive(a.1);
    }
    forall a, b, c | PairLess(a, b) && PairLess(b, c) ensures PairLess(a, c) {
      PairTransitive(a, b, c);
    }
    forall a, b | a != b ensures PairLess(a, b) || PairLess(b, a) {
      PairTotal(a, b);
    }
  }

  lemma PairTransitive(a: Source, b: Source, c: Source)
    requires PairLess(a, b) && PairLess(b, c)
    ensures PairLess(a, c)
  {
    if Less(a.0, b.0) && Less(b.0, c.0) {
      LessTransitive(a.0, b.0, c.0);
    } else if a.0 == b.0 == c.0 {
      LessTransitive(a.1, b.1, c.1);
    }
  }

  lemma SourceOrder()
    ensures StrictWeak(SourceLess)
  {
    PairOrder(multiset{});
    forall x, y, z | SourceLess(x, y) && SourceLess(y, z) ensures SourceLess(x, z) {
      PairTransitive(SourceOf(x), SourceOf(y), SourceOf(z));
    }
    forall x, y, z | SourceLess(x, z) ensures SourceLess(x, y) || SourceLess(y, z) {
      PairBetween(SourceOf(x), SourceOf(y), SourceOf(z));
    }
    forall x ensures !SourceLess(x, x) {
      assert !PairLess(SourceOf(x), SourceOf(x));
    }
  }

  lemma PairBetween(a: Source, b: Source, c: Source)
    requires PairLess(a, c)
    ensures PairLess(a, b) || PairLess(b, c)
  {
    PairTotal(a, b);
    if PairLess(b, a) {
      PairTransitive(b, a, c);
    }
  }

  lemma PairTotal(a: Source, b: Source)
    ensures a == b || PairLess(a, b) || PairLess(b, a)
  {
    LessTotal(a.0, b.0);
    LessTotal(a.1, b.1);
  }

  /** Two sorts of the same causes agree on the sources, position by position. */
  lemma SortedSources(s: seq<EnablementCause>, t: seq<EnablementCause>)
    requires multiset(s) == multiset(t)
    ensures |s| == |t|
    ensures forall i :: 0 <= i < |s| ==> SourceOf(Sort(SourceLess, s)[i]) == SourceOf(Sort(SourceLess, t)[i])
  {
    var x, y := Sort(SourceLess, s), Sort(SourceLess, t);
    SameSize(s, t);
    SourceOrder();
    SortSorted(SourceLess, s);
    SortSorted(SourceLess, t);
    var a, b := Image(SourceOf, x), Image(SourceOf, y);
    ImagePermuted(SourceOf, x, y);
    PairOrder(multiset(a));
    SortedPairs(x);
    SortedPairs(y);
    SortedUnique(PairLess, a, b);
    forall i | 0 <= i < |s| ensures SourceOf(x[i]) == SourceOf(y[i]) {
      assert a[i] == b[i];
    }
  }

  lemma SortedPairs(s: seq<EnablementCause>)
    requires Sorted(SourceLess, s)
    ensures Sorted(PairLess, Image(SourceOf, s))
  {
    var a := Image(SourceOf, s);
    forall i, j | 0 <= i < j < |a| ensures !PairLess(a[j], a[i]) {
      assert !SourceLess(s[j], s[i]);
    }
  }

  lemma {:induction false} TargetingIsFilter(es: seq<EnablementCause>, node: string, variable: string)
    ensures Targeting(es, node, variable)
         == Filter((e: EnablementCause) => e.targetNode == node && e.targetVariable == variable, es)
  {
    if es != [] {
      var k := |es| - 1;
      TargetingIsFilter(es[..k], node, variable);
      assert es == es[..k] + [es[k]];
      var p := (e: EnablementCause) => e.targetNode == node && e.targetVariable == variable;
      FilterAppend(p, es[..k], [es[k]]);
      assert Filter(p, [es[k]]) == (if p(es[k]) then [es[k]] else []) + Filter(p, []);
    }
  }

  /** The table of a variable shows its causes in sorted order. */
  lemma TableShows(node: string, spec: VariableSpec, es: seq<EnablementCause>, fs: seq<EnablementCause>)
    requires multiset(es) == multiset(fs) && TableOf(node, spec, es) == TableOf(node, spec, fs)
    ensures Sort(SourceLess, Targeting(es, node, spec.name)) == Sort(SourceLess, Targeting(fs, node, spec.name))
  {
    var s, t := Targeting(es, node, spec.name), Targeting(fs, node, spec.name);
    TargetingPermuted(es, fs, node, spec.name);
    SortedSources(s, t);
    var x, y := Sort(SourceLess, s), Sort(SourceLess, t);
    var own := DependencyCauses(node, Sort(DependencyLess, spec.dependsOn));
    SplitSame(own, EdgeCauses(x), own, EdgeCauses(y));
    forall i | 0 <= i < |x| ensures x[i] == y[i] {
      assert EdgeCauses(x)[i] == EdgeCauses(y)[i];
      SameTarget(es, node, spec.name, x, i);
      SameTarget(fs, node, spec.name, y, i);
    }
  }

  lemma TargetingPermuted(es: seq<EnablementCause>, fs: seq<EnablementCause>, node: string, variable: string)
    requires multiset(es) == multiset(fs)
    ensures multiset(Targeting(es, node, variable)) == multiset(Targeting(fs, node, variable))
  {
    TargetingPermutation(es, node, variable);
    TargetingPermutation(fs, node, variable);
  }

  lemma SameTarget(es: seq<EnablementCause>, node: string, variable: string, x: seq<EnablementCause>, i: nat)
    requires x == Sort(SourceLess, Targeting(es, node, variable)) && i < |x|
    ensures x[i].targetNode == node && x[i].targetVariable == variable && x[i] in es
  {
    TargetingIsFilter(es, node, variable);
    InSame(x, Targeting(es, node, variable), x[i]);
  }

  // ----- two listings with one factor list -----

  /** A factor list shows the order of the causes of each link. */
  lemma ListShows(nodes: seq<NodeSpec>, es: seq<EnablementCause>, fs: seq<EnablementCause>, e: EnablementCause,
                  n: NodeSpec, spec: VariableSpec)
    requires multiset(es) == multiset(fs) && Targets(nodes, e, n, spec)
    requires Flatten(SliceTables(nodes, es)) == Flatten(SliceTables(nodes, fs))
    ensures Filter((x: EnablementCause) => SameLink(x, e), es) == Filter((x: EnablementCause) => SameLink(x, e), fs)
  {
    TablesShown(nodes, es, fs, n, spec);
    TableShows(n.id, spec, es, fs);
    LinkOrder(es, e);
    LinkOrder(fs, e);
  }

  lemma LinkOrder(es: seq<EnablementCause>, e: EnablementCause)
    ensures Filter((x: EnablementCause) => SameLink(x, e),
                   Sort(SourceLess, Targeting(es, e.targetNode, e.targetVariable)))
         == Filter((x: EnablementCause) => SameLink(x, e), es)
  {
    var p := (x: EnablementCause) => SameLink(x, e);
    var q := (x: EnablementCause) => x.targetNode == e.targetNode && x.targetVariable == e.targetVariable;
    TargetingIsFilter(es, e.targetNode, e.targetVariable);
    forall x, y | p(x) && p(y) ensures !SourceLess(x, y) {
      LessIrreflexive(x.sourceNode);
      LessIrreflexive(x.sourceVariable);
    }
    SortStable(SourceLess, p, Filter(q, es));
    FilterFilter(p, q, es);
  }

  lemma EachShown(nodes: seq<NodeSpec>, es: seq<EnablementCause>, fs: seq<EnablementCause>)
    requires multiset(es) == multiset(fs) && Flatten(SliceTables(nodes, es)) == Flatten(SliceTables(nodes, fs))
    ensures TablesOfEach(Sort(NodeLess, nodes), es) == TablesOfEach(Sort(NodeLess, nodes), fs)
  {
    var sorted := Sort(NodeLess, nodes);
    TablesInOrderAlike(sorted, es, fs);
    FlattenInjective(SliceTables(nodes, es), SliceTables(nodes, fs));
    ConcatInjective(TablesOfEach(sorted, es), TablesOfEach(sorted, fs));
  }

  lemma TablesShown(nodes: seq<NodeSpec>, es: seq<EnablementCause>, fs: seq<EnablementCause>, n: NodeSpec,
                    spec: VariableSpec)
    requires multiset(es) == multiset(fs) && n in nodes && spec in n.variables
    requires Flatten(SliceTables(nodes, es)) == Flatten(SliceTables(nodes, fs))
    ensures TableOf(n.id, spec, es) == TableOf(n.id, spec, fs)
  {
    var sorted := Sort(NodeLess, nodes);
    EachShown(nodes, es, fs);
    InSame(sorted, nodes, n);
    var i :| 0 <= i < |sorted| && sorted[i] == n;
    assert TablesOfNode(n, es) == TablesOfEach(sorted, es)[i] == TablesOfEach(sorted, fs)[i] == TablesOfNode(n, fs);
    NodeShown(n, es, fs, spec);
  }

  lemma NodeShown(n: NodeSpec, es: seq<EnablementCause>, fs: seq<EnablementCause>, spec: VariableSpec)
    requires TablesOfNode(n, es) == TablesOfNode(n, fs) && spec in n.variables
    ensures TableOf(n.id, spec, es) == TableOf(n.id, spec, fs)
  {
    var specs := Sort(VariableLess, n.variables);
    InSame(specs, n.variables, spec);
    var k :| 0 <= k < |specs| && specs[k] == spec;
    assert TablesOfNode(n, es)[k] == TablesOfNode(n, fs)[k];
  }

  // ----- the condition -----

  /** What ground_slice returns. */
  ghost function Grounding(nodes: seq<NodeSpec>, es: seq<EnablementCause>): Result<seq<Factor>> {
    if Accepted(nodes, es) then Ok(Flatten(SliceTables(nodes, es))) else ValueError
  }

  ghost predicate OrderFree(nodes: seq<NodeSpec>, es: seq<EnablementCause>) {
    forall fs :: multiset(fs) == multiset(es) ==> Grounding(nodes, fs) == Grounding(nodes, es)
  }

  lemma AcceptedPermuted(nodes: seq<NodeSpec>, es: seq<EnablementCause>, fs: seq<EnablementCause>)
    requires multiset(es) == multiset(fs) && Accepted(nodes, es)
    ensures Accepted(nodes, fs)
  {
    NamedAnyOrder(nodes, nodes, es, fs);
    TablesInOrderAlike(Sort(NodeLess, nodes), es, fs);
    AlikeInRange(SliceTables(nodes, es), SliceTables(nodes, fs));
  }

  lemma SortsAlike(nodes: seq<NodeSpec>, es: seq<EnablementCause>, fs: seq<EnablementCause>, n: NodeSpec,
                   spec: VariableSpec)
    requires multiset(es) == multiset(fs) && Unambiguous(nodes, es) && n in nodes && spec in n.variables
    ensures TableOf(n.id, spec, es) == TableOf(n.id, spec, fs)
  {
    var s, t := Targeting(es, n.id, spec.name), Targeting(fs, n.id, spec.name);
    TargetingPermuted(es, fs, n.id, spec.name);
    TargetingIsFilter(es, n.id, spec.name);
    SourceOrder();
    forall x, y | x in multiset(s) && y in multiset(s) && x != y ensures SourceLess(x, y) || SourceLess(y, x) {
      assert x in s && y in s;
      assert Targets(nodes, x, n, spec);
      assert !SameLink(x, y);
      LessTotal(x.sourceNode, y.sourceNode);
      LessTotal(x.sourceVariable, y.sourceVariable);
    }
    SortCanonical(SourceLess, s, t);
  }

  lemma UnambiguousTables(nodes: seq<NodeSpec>, es: seq<EnablementCause>, fs: seq<EnablementCause>)
    requires multiset(es) == multiset(fs) && Unambiguous(nodes, es)
    ensures SliceTables(nodes, es) == SliceTables(nodes, fs)
  {
    var sorted := Sort(NodeLess, nodes);
    var ss, tt := TablesOfEach(sorted, es), TablesOfEach(sorted, fs);
    forall i | 0 <= i < |sorted| ensures ss[i] == tt[i] {
      InSame(sorted, nodes, sorted[i]);
      var specs := Sort(VariableLess, sorted[i].variables);
      forall k | 0 <= k < |specs| ensures ss[i][k] == tt[i][k] {
        InSame(specs, sorted[i].variables, specs[k]);
        SortsAlike(nodes, es, fs, sorted[i], specs[k]);
      }
    }
    assert ss == tt;
  }

  /** `x` moved to the front. */
  lemma Promoted(es: seq<EnablementCause>, x: EnablementCause) returns (fs: seq<EnablementCause>)
    requires x in es
    ensures multiset(fs) == multiset(es) && fs != [] && fs[0] == x
  {
    var k :| 0 <= k < |es| && es[k] == x;
    fs := [x] + RemoveAt(es, k);
    assert es == es[..k] + [x] + es[k + 1..];
  }

  /** Two different causes of one link: some other listing gives another list. */
  lemma Ambiguous(nodes: seq<NodeSpec>, es: seq<EnablementCause>, e: EnablementCause, f: EnablementCause)
    requires e in es && f in es && SameLink(e, f) && e != f && Lands(nodes, e) && Accepted(nodes, es)
    ensures !OrderFree(nodes, es)
  {
    var p := (x: EnablementCause) => SameLink(x, e);
    var c := Filter(p, es);
    assert e in c && f in c;
    var x := if c[0] == e then f else e;
    var fs := Promoted(es, x);
    assert Filter(p, fs)[0] == x;
    var n, spec :| Targets(nodes, e, n, spec);
    AcceptedPermuted(nodes, es, fs);
    if Grounding(nodes, fs) == Grounding(nodes, es) {
      ListShows(nodes, es, fs, e, n, spec);
    }
  }

  /** The result of grounding is the same for every listing of the causes exactly
      when grounding fails or no two causes of one link into a declared variable
      differ in strength. */
  lemma OrderFreeIff(nodes: seq<NodeSpec>, es: seq<EnablementCause>)
    ensures OrderFree(nodes, es) <==> !Accepted(nodes, es) || Unambiguous(nodes, es)
  {
    if Accepted(nodes, es) && !Unambiguous(nodes, es) {
      var e, f :| e in es && f in es && SameLink(e, f) && Lands(nodes, e) && e != f;
      Ambiguous(nodes, es, e, f);
    } else {
      forall fs | multiset(fs) == multiset(es) ensures Grounding(nodes, fs) == Grounding(nodes, es) {
        if Accepted(nodes, fs) {
          AcceptedPermuted(nodes, fs, es);
        }
        if Accepted(nodes, es) {
          AcceptedPermuted(nodes, es, fs);
          UnambiguousTables(nodes, es, fs);
        }
      }
    }
  }

  lemma TargetsListed(es: seq<EnablementCause>, node: string, variable: string, e: EnablementCause)
    requires e in Targeting(es, node, variable)
    ensures e in es
  {
    TargetingPermutation(es, node, variable);
    assert e in multiset(Targeting(es, node, variable));
  }

  lemma StrengthsInRange(node: string, name: string, es: seq<EnablementCause>)
    requires forall e :: e in es ==> 0.0 <= e.strength <= 1.0
    ensures TableOf(node, VariableSpec(name, [], 0.0), es).InRange()
  {
    var own := Sort(SourceLess, Targeting(es, node, name));
    forall c | c in EdgeCauses(own) ensures 0.0 <= c.strength <= 1.0 {
      var i :| 0 <= i < |own| && EdgeCause(own[i]) == c;
      InSame(own, Targeting(es, node, name), own[i]);
      TargetsListed(es, node, name, own[i]);
    }
  }

  lemma SmallAccepted(nodes: seq<NodeSpec>, es: seq<EnablementCause>)
    requires nodes == [NodeSpec("t", [VariableSpec("v", [], 0.0)])]
    requires forall e :: e in es ==> e.sourceNode == "s" && e.sourceVariable == "u" && 0.0 <= e.strength <= 1.0
    ensures Accepted(nodes, es)
  {
    forall e | e in Targeting(es, "t", "v") ensures Groundable(e.sourceNode) && Groundable(e.sourceVariable) {
      TargetsListed(es, "t", "v", e);
    }
    StrengthsInRange("t", "v", es);
    forall t | t in SliceTables(nodes, es) ensures t.InRange() {
      NativeGround.SliceTablesMember(nodes, es, t);
    }
  }

  /** Two causes from u of host s to v of host t, listed both ways. */
  lemma TwoListings(nodes: seq<NodeSpec>, e: EnablementCause, f: EnablementCause)
    requires nodes == [NodeSpec("t", [VariableSpec("v", [], 0.0)])]
    requires e == EnablementCause("s", "u", "t", "v", 0.25) && f == e.(strength := 0.5)
    ensures Accepted(nodes, [e, f]) && Accepted(nodes, [f, e])
    ensures Flatten(SliceTables(nodes, [e, f])) != Flatten(SliceTables(nodes, [f, e]))
  {
    var p := (x: EnablementCause) => SameLink(x, e);
    assert nodes[0].variables[0] in nodes[0].variables && nodes[0] in nodes;
    assert Targets(nodes, e, nodes[0], nodes[0].variables[0]);
    assert multiset([e, f]) == multiset([f, e]);
    assert Filter(p, [e, f])[0] == e && Filter(p, [f, e])[0] == f;
    SmallAccepted(nodes, [e, f]);
    SmallAccepted(nodes, [f, e]);
    if Flatten(SliceTables(nodes, [e, f])) == Flatten(SliceTables(nodes, [f, e])) {
      ListShows(nodes, [e, f], [f, e], e, nodes[0], nodes[0].variables[0]);
    }
  }
}
