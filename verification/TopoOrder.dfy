/** The sampling order (internal/engine/brain/bamcp.go:799-848): sweep over the
sorted names, taking each name whose causes are all taken, until a sweep takes
nothing; what a cycle or an undeclared cause strands comes last, sorted. */
module TopoOrder {
  import opened Factors
  import opened Order
  import opened Graphs
  import opened Lists
  import opened AttackGraph
  import opened Sampler
  import NoisyOr
  import Tables

  function NamesOf(vars: seq<Var>): (r: seq<string>)
    ensures |r| == |vars| && forall i :: 0 <= i < |r| ==> r[i] == vars[i].name
  {
    seq(|vars|, i requires 0 <= i < |vars| => vars[i].name)
  }

  /** One edge from each cause of `v` to `v`. */
  function OwnEdges(v: Var): (r: seq<Edge>)
    ensures |r| == |v.Causes()|
    ensures forall i :: 0 <= i < |r| ==> r[i] == Edge("", v.Causes()[i].parent, v.name)
  {
    seq(|v.Causes()|, i requires 0 <= i < |v.Causes()| => Edge("", v.Causes()[i].parent, v.name))
  }

  function CauseEdges(vars: seq<Var>): seq<Edge> {
    if vars == [] then [] else OwnEdges(vars[0]) + CauseEdges(vars[1..])
  }

  lemma {:induction false} PendingAppend(es: seq<Edge>, fs: seq<Edge>, x: string, done: set<string>)
    ensures Pending(es + fs, x, done) == Pending(es, x, done) + Pending(fs, x, done)
  {
    if es == [] {
      assert es + fs == fs;
    } else {
      assert (es + fs)[1..] == es[1..] + fs;
      PendingAppend(es[1..], fs, x, done);
    }
  }

  lemma {:induction false} PendingUniform(es: seq<Edge>, name: string, x: string)
    requires forall e :: e in es ==> e.to == name
    ensures Pending(es, x, {}) == if x == name then |es| else 0
  {
    if es != [] {
      assert es[0] in es;
      PendingUniform(es[1..], name, x);
    }
  }

  lemma {:induction false} PendingNone(vars: seq<Var>, x: string)
    requires x !in NamesOf(vars)
    ensures Pending(CauseEdges(vars), x, {}) == 0
  {
    if vars != [] {
      assert NamesOf(vars) == [vars[0].name] + NamesOf(vars[1..]);
      PendingAppend(OwnEdges(vars[0]), CauseEdges(vars[1..]), x, {});
      PendingUniform(OwnEdges(vars[0]), vars[0].name, x);
      PendingNone(vars[1..], x);
    }
  }

  lemma {:induction false} PendingOwn(vars: seq<Var>, i: nat)
    requires NoDup(NamesOf(vars)) && i < |vars|
    ensures Pending(CauseEdges(vars), vars[i].name, {}) == |vars[i].Causes()|
  {
    var rest, x := vars[1..], vars[i].name;
    assert NamesOf(vars) == [vars[0].name] + NamesOf(rest);
    NoDupTail(NamesOf(vars));
    PendingAppend(OwnEdges(vars[0]), CauseEdges(rest), x, {});
    PendingUniform(OwnEdges(vars[0]), vars[0].name, x);
    if i == 0 {
      PendingNone(rest, x);
    } else {
      assert NamesOf(rest)[i - 1] == x;
      PendingOwn(rest, i - 1);
    }
  }

  lemma {:induction false} CauseEdgesInside(vars: seq<Var>, e: Edge)
    ensures e in CauseEdges(vars) <==> exists v :: v in vars && e in OwnEdges(v)
  {
    if vars != [] {
      CauseEdgesInside(vars[1..], e);
      assert forall v :: v in vars <==> v == vars[0] || v in vars[1..];
    }
  }

  lemma EdgesIntoNames(vars: seq<Var>)
    ensures forall e :: e in CauseEdges(vars) ==> e.to in NamesOf(vars)
  {
    forall e | e in CauseEdges(vars) ensures e.to in NamesOf(vars) {
      CauseEdgesInside(vars, e);
      var v :| v in vars && e in OwnEdges(v);
      var i :| 0 <= i < |vars| && vars[i] == v;
      assert NamesOf(vars)[i] == e.to;
    }
  }

  /** Every cause of a name in `order` comes before it. */
  ghost predicate Ordered(edges: seq<Edge>, order: seq<string>) {
    forall e, i :: e in edges && 0 <= i < |order| && e.to == order[i] ==> e.from in order[..i]
  }

  lemma OrderedSnoc(edges: seq<Edge>, order: seq<string>, name: string)
    requires Ordered(edges, order) && Ready(edges, name, Elems(order))
    ensures Ordered(edges, order + [name])
  {
    var longer := order + [name];
    forall e, i | e in edges && 0 <= i < |longer| && e.to == longer[i] ensures e.from in longer[..i] {
      if i < |order| {
        assert longer[..i] == order[..i];
      } else {
        assert longer[..i] == order;
        assert e.from in Elems(order);
      }
    }
  }

  /** The counters of the names not yet taken are right. */
  ghost predicate Counted(edges: seq<Edge>, names: seq<string>, order: seq<string>, remaining: map<string, int>) {
    && remaining.Keys == Elems(names)
    && forall x :: x in remaining && x !in order ==> remaining[x] == Pending(edges, x, Elems(order))
  }

  ghost predicate Progress(edges: seq<Edge>, names: seq<string>, order: seq<string>, remaining: map<string, int>) {
    && NoDup(order) && Elems(order) <= Elems(names)
    && Ordered(edges, order) && Counted(edges, names, order, remaining)
  }

  method Decrement(children: seq<string>, before: map<string, int>) returns (remaining: map<string, int>)
    requires forall x :: x in children ==> x in before
    ensures remaining.Keys == before.Keys
    ensures forall x :: x in before ==> remaining[x] == before[x] - multiset(children)[x]
  {
    remaining := before;
    var rest := children;
    while rest != []
      invariant remaining.Keys == before.Keys && forall x :: x in rest ==> x in before
      invariant forall x :: x in before ==> remaining[x] - multiset(rest)[x] == before[x] - multiset(children)[x]
    {
      assert rest == [rest[0]] + rest[1..];
      assert rest[0] in rest;
      remaining := remaining[rest[0] := remaining[rest[0]] - 1];
      rest := rest[1..];
    }
  }

  method Take(name: string, names: seq<string>, children: map<string, seq<string>>, before: map<string, int>,
              order: seq<string>, ghost edges: seq<Edge>)
    returns (remaining: map<string, int>)
    requires Progress(edges, names, order, before)
    requires name in names && name !in order && before[name] <= 0
    requires multiset(Listed(children, name)) == multiset(Heads(edges, name))
    requires forall e :: e in edges ==> e.to in names
    ensures Progress(edges, names, order + [name], remaining)
  {
    var kids := Listed(children, name);
    HeadsInside(edges, name, Elems(names));
    forall x | x in kids ensures x in before {
      InSame(kids, Heads(edges, name), x);
      assert x in Elems(Heads(edges, name));
    }
    remaining := Decrement(kids, before);
    assert name in before.Keys && name !in Elems(order);
    OrderedSnoc(edges, order, name);
    ElemsSnoc(order, name);
    forall x | x in remaining && x !in order + [name]
      ensures remaining[x] == Pending(edges, x, Elems(order + [name]))
    {
      PendingDone(edges, x, Elems(order), name);
    }
  }

  // ----- which order it is -----

  /** The name at `i` is not taken and all its causes are. */
  predicate Available(names: seq<string>, edges: seq<Edge>, done: set<string>, i: int) {
    0 <= i < |names| && names[i] !in done && Ready(edges, names[i], done)
  }

  /** Go on with the sweep at `i`, and start another one at the end if this one
      has `moved`. */
  function SweepFrom(names: seq<string>, edges: seq<Edge>, done: set<string>, i: nat, moved: bool): seq<string>
    requires i <= |names|
    decreases Elems(names) - done, if moved then 1 else 0, |names| - i
  {
    if i == |names| then if moved then SweepFrom(names, edges, done, 0, false) else []
    else if Available(names, edges, done, i) then
      assert names[i] in Elems(names) - done;
      [names[i]] + SweepFrom(names, edges, done + {names[i]}, i + 1, true)
    else SweepFrom(names, edges, done, i + 1, moved)
  }

  lemma {:induction false} SweepDone(names: seq<string>, edges: seq<Edge>, done: set<string>, i: nat, moved: bool)
    requires i <= |names| && Elems(names) <= done
    ensures SweepFrom(names, edges, done, i, moved) == []
    decreases if moved then 1 else 0, |names| - i
  {
    if i < |names| {
      assert names[i] in Elems(names);
      SweepDone(names, edges, done, i + 1, moved);
    } else if moved {
      SweepDone(names, edges, done, 0, false);
    }
  }

  /** One sweep.  When it takes nothing, no name that is left is ready. */
  method Sweep(names: seq<string>, children: map<string, seq<string>>, before: map<string, int>, taken: seq<string>,
               ghost edges: seq<Edge>)
    returns (order: seq<string>, remaining: map<string, int>)
    requires Progress(edges, names, taken, before)
    requires forall f :: multiset(Listed(children, f)) == multiset(Heads(edges, f))
    requires forall e :: e in edges ==> e.to in names
    ensures Progress(edges, names, order, remaining) && |order| >= |taken|
    ensures |order| == |taken| ==> forall x :: x in names && x !in order ==> !Ready(edges, x, Elems(order))
    ensures taken + SweepFrom(names, edges, Elems(taken), 0, false)
         == if |order| == |taken| then order else order + SweepFrom(names, edges, Elems(order), 0, false)
  {
    order, remaining := taken, before;
    var i := 0;
    while i < |names|
      invariant 0 <= i <= |names| && |order| >= |taken| && Progress(edges, names, order, remaining)
      invariant taken + SweepFrom(names, edges, Elems(taken), 0, false)
             == order + SweepFrom(names, edges, Elems(order), i, |order| > |taken|)
      invariant |order| == |taken| ==> order == taken && remaining == before
      invariant |order| == |taken| ==>
                  forall j :: 0 <= j < i && names[j] !in taken ==> !Ready(edges, names[j], Elems(taken))
    {
      assert names[i] in Elems(names);
      if names[i] !in order && remaining[names[i]] <= 0 {
        remaining := Take(names[i], names, children, remaining, order, edges);
        ElemsSnoc(order, names[i]);
        Associate(order, [names[i]], SweepFrom(names, edges, Elems(order) + {names[i]}, i + 1, true));
        order := order + [names[i]];
      }
      i := i + 1;
    }
    assert order + [] == order;
  }

  lemma AllTaken(order: seq<string>, names: seq<string>)
    requires NoDup(order) && NoDup(names) && Elems(order) <= Elems(names) && |order| >= |names|
    ensures forall x :: x in names ==> x in order
  {
    ElemsCount(order);
    ElemsCount(names);
    SubsetCount(Elems(order), Elems(names));
    assert forall x :: x in names ==> x in Elems(order);
  }

  /** Sweep until everything is taken or a sweep takes nothing. */
  method SweepAll(names: seq<string>, children: map<string, seq<string>>, initial: map<string, int>,
                  ghost edges: seq<Edge>)
    returns (order: seq<string>)
    requires NoDup(names) && Progress(edges, names, [], initial)
    requires forall f :: multiset(Listed(children, f)) == multiset(Heads(edges, f))
    requires forall e :: e in edges ==> e.to in names
    ensures NoDup(order) && Elems(order) <= Elems(names) && Ordered(edges, order)
    ensures forall x :: x in names && x !in order ==> !Ready(edges, x, Elems(order))
    ensures order == SweepFrom(names, edges, {}, 0, false)
  {
    order := [];
    var remaining := initial;
    assert Elems(order) == {};
    while |order| < |names|
      invariant Progress(edges, names, order, remaining)
      invariant order + SweepFrom(names, edges, Elems(order), 0, false) == SweepFrom(names, edges, {}, 0, false)
      decreases |names| - |order|
    {
      var longer, left := Sweep(names, children, remaining, order, edges);
      if |longer| == |order| {
        return longer;
      }
      order, remaining := longer, left;
    }
    AllTaken(order, names);
    SweepDone(names, edges, Elems(order), 0, false);
    assert order + [] == order;
  }

  /** The names that no sweep could take. */
  function Stranded(names: seq<string>, order: seq<string>): (r: seq<string>)
    ensures forall x :: x in r <==> x in names && x !in order
    ensures NoDup(names) ==> NoDup(r)
  {
    if names == [] then []
    else
      var rest := Stranded(names[1..], order);
      if names[0] in order then rest else [names[0]] + rest
  }

  /** Each cause comes from a declared variable. */
  ghost predicate DeclaredCauses(vars: seq<Var>) {
    forall e :: e in CauseEdges(vars) ==> e.from in NamesOf(vars)
  }

  /** Something stays stranded only by a cycle or an undeclared cause. */
  lemma StrandedMeansCycle(vars: seq<Var>, taken: seq<string>, x: string)
    requires DeclaredCauses(vars)
    requires forall y :: y in NamesOf(vars) && y !in taken ==> !Ready(CauseEdges(vars), y, Elems(taken))
    requires x in NamesOf(vars) && x !in taken
    ensures Cyclic(CauseEdges(vars))
  {
    var edges := CauseEdges(vars);
    var rem := Elems(NamesOf(vars)) - Elems(taken);
    forall v | v in rem ensures HasPredecessor(edges, rem, v) {
      assert !Ready(edges, v, Elems(taken));
      var e :| e in edges && e.to == v && e.from !in Elems(taken);
      assert e.from in rem && Linked(edges, e.from, v);
    }
    StuckAfterCycle(edges, rem, x);
    AfterCycleCyclic(edges, x);
  }

  /** The order of the sweeps, and then what they strand. */
  function SweptOrder(names: seq<string>, edges: seq<Edge>): seq<string> {
    var taken := SweepFrom(names, edges, {}, 0, false);
    taken + Stranded(names, taken)
  }

  /** Every variable comes exactly once, and, unless the causes have a cycle or
      an undeclared name, each cause before its effect. */
  method SamplingOrder(vars: seq<Var>) returns (order: seq<string>, ghost ready: nat)
    requires NoDup(NamesOf(vars))
    ensures NoDup(order) && Elems(order) == Elems(NamesOf(vars))
    ensures ready <= |order| && Ordered(CauseEdges(vars), order[..ready])
    ensures Sorted(Less, order[ready..])
    ensures forall x :: x in order[ready..] ==> !Ready(CauseEdges(vars), x, Elems(order[..ready]))
    ensures DeclaredCauses(vars) && !Cyclic(CauseEdges(vars)) ==> ready == |order|
    ensures order == SweptOrder(SortStrings(NamesOf(vars)), CauseEdges(vars))
  {
    var names := SortStrings(NamesOf(vars));
    NoDupSorted(NamesOf(vars));
    var edges := CauseEdges(vars);
    EdgesIntoNames(vars);
    assert forall e :: e in edges ==> e.to in Elems(names);
    var remaining := CountCauses(vars);
    var children := Successors(edges);
    ghost var none: seq<string> := [];
    assert Elems(none) == {};
    var taken := SweepAll(names, children, remaining, edges);
    var left := Stranded(names, taken);
    order, ready := taken + left, |taken|;
    assert order[..ready] == taken && order[ready..] == left;
    JoinsUp(names, taken, left);
    StrandedSorted(names, taken);
    forall y | y in NamesOf(vars) && y !in taken ensures !Ready(edges, y, Elems(taken)) {
      assert y in Elems(names);
    }
    if DeclaredCauses(vars) && left != [] {
      assert left[0] in left;
      assert left[0] in Elems(names);
      StrandedMeansCycle(vars, taken, left[0]);
    }
  }

  method CountCauses(vars: seq<Var>) returns (remaining: map<string, int>)
    requires NoDup(NamesOf(vars))
    ensures remaining.Keys == Elems(NamesOf(vars))
    ensures forall x :: x in remaining ==> remaining[x] == Pending(CauseEdges(vars), x, {})
  {
    remaining := map[];
    var i := 0;
    while i < |vars|
      invariant 0 <= i <= |vars| && remaining.Keys == Elems(NamesOf(vars)[..i])
      invariant forall x :: x in remaining ==> remaining[x] == Pending(CauseEdges(vars), x, {})
    {
      PendingOwn(vars, i);
      assert NamesOf(vars)[..i + 1] == NamesOf(vars)[..i] + [vars[i].name];
      ElemsSnoc(NamesOf(vars)[..i], vars[i].name);
      remaining := remaining[vars[i].name := |vars[i].intra| + |vars[i].edges|];
      i := i + 1;
    }
    assert NamesOf(vars)[..i] == NamesOf(vars);
  }

  lemma JoinsUp(names: seq<string>, taken: seq<string>, left: seq<string>)
    requires NoDup(taken) && NoDup(left) && Elems(taken) <= Elems(names)
    requires forall x :: x in left <==> x in names && x !in taken
    ensures NoDup(taken + left) && Elems(taken + left) == Elems(names)
  {
    forall x ensures x in taken + left <==> x in names {
      assert x in taken ==> x in Elems(taken);
    }
    var all := taken + left;
    forall i, j | 0 <= i < j < |all| ensures all[i] != all[j] {
      if i < |taken| <= j {
        assert all[j] in left;
      }
    }
  }

  lemma {:induction false} StrandedSorted(names: seq<string>, order: seq<string>)
    requires Sorted(Less, names)
    ensures Sorted(Less, Stranded(names, order))
  {
    if names != [] {
      var rest := Stranded(names[1..], order);
      StrandedSorted(names[1..], order);
      forall i | 0 <= i < |rest| ensures !Less(rest[i], names[0]) {
        assert rest[i] in rest;
        var k :| 1 <= k < |names| && names[k] == rest[i];
      }
    }
  }

  // ----- the sampler draws from the network -----

  function TablesOf(vars: seq<Var>): (r: seq<Tables.Table>)
    ensures |r| == |vars| && forall i :: 0 <= i < |r| ==> r[i] == vars[i].Table()
  {
    seq(|vars|, i requires 0 <= i < |vars| => vars[i].Table())
  }

  lemma ByNameAt(vars: seq<Var>, i: nat)
    requires NoDup(NamesOf(vars)) && i < |vars|
    ensures vars[i].name in ByName(vars) && ByName(vars)[vars[i].name] == vars[i]
  {
    assert Distinct(vars) by {
      forall j, k | 0 <= j < k < |vars| ensures vars[j].name != vars[k].name {
        assert NamesOf(vars)[j] != NamesOf(vars)[k];
      }
    }
    ByNameHas(vars, vars[i]);
  }

  lemma NameKnown(vars: seq<Var>, x: string)
    requires NoDup(NamesOf(vars)) && x in NamesOf(vars)
    ensures x in ByName(vars) && ByName(vars)[x] in vars && ByName(vars)[x].name == x
  {
    var i :| 0 <= i < |vars| && NamesOf(vars)[i] == x;
    ByNameAt(vars, i);
  }

  lemma {:induction false} InOrderAt(byName: map<string, Var>, order: seq<string>)
    requires forall x :: x in order ==> x in byName
    ensures |InOrder(byName, order)| == |order|
    ensures forall i :: 0 <= i < |order| ==> order[i] in byName && InOrder(byName, order)[i] == byName[order[i]].Table()
  {
    if order != [] {
      InOrderAt(byName, order[1..]);
      assert order[0] in byName;
      assert InOrder(byName, order) == [byName[order[0]].Table()] + InOrder(byName, order[1..]);
    }
  }

  lemma ParentsAreEdges(vars: seq<Var>, v: Var, p: string)
    requires v in vars && p in NoisyOr.ParentSet(v.Causes())
    ensures Edge("", p, v.name) in CauseEdges(vars)
  {
    var c :| c in v.Causes() && c.parent == p;
    var i :| 0 <= i < |v.Causes()| && v.Causes()[i] == c;
    assert OwnEdges(v)[i] == Edge("", p, v.name);
    CauseEdgesInside(vars, Edge("", p, v.name));
  }

  lemma {:induction false} OrderedCausesFirst(vars: seq<Var>, order: seq<string>, i: nat)
    requires NoDup(NamesOf(vars)) && Ordered(CauseEdges(vars), order) && Elems(order) <= Elems(NamesOf(vars))
    requires i <= |order|
    ensures CausesFirst(InOrder(ByName(vars), order[i..]), Elems(order[..i]))
    decreases |order| - i
  {
    if i < |order| {
      OrderedCausesFirst(vars, order, i + 1);
      assert order[i..][1..] == order[i + 1..];
      assert order[..i + 1] == order[..i] + [order[i]];
      ElemsSnoc(order[..i], order[i]);
      assert order[i] in Elems(order);
      NameKnown(vars, order[i]);
      var v := ByName(vars)[order[i]];
      var tail := InOrder(ByName(vars), order[i + 1..]);
      assert InOrder(ByName(vars), order[i..]) == [v.Table()] + tail;
      assert ([v.Table()] + tail)[1..] == tail;
      forall p | p in NoisyOr.ParentSet(v.Causes()) ensures p in Elems(order[..i]) {
        ParentsAreEdges(vars, v, p);
      }
    }
  }

  lemma {:induction false} TablesRelisted(vars: seq<Var>, byName: map<string, Var>, order: seq<string>)
    requires NoDup(order) && Elems(order) == Elems(NamesOf(vars)) && NoDup(NamesOf(vars))
    requires forall i :: 0 <= i < |vars| ==> vars[i].name in byName && byName[vars[i].name] == vars[i]
    ensures multiset(InOrder(byName, order)) == multiset(TablesOf(vars))
  {
    forall x | x in order ensures x in byName {
      assert x in Elems(order);
      var i :| 0 <= i < |vars| && NamesOf(vars)[i] == x;
    }
    InOrderAt(byName, order);
    var ts, us := InOrder(byName, order), TablesOf(vars);
    SameListing(order, NamesOf(vars));
    forall i | 0 <= i < |order| ensures ts[i].variable == order[i] && ts[i] in us {
      assert order[i] in Elems(order);
      var j :| 0 <= j < |vars| && NamesOf(vars)[j] == order[i];
      assert us[j] == ts[i];
    }
    forall i | 0 <= i < |vars| ensures us[i] in ts {
      assert NamesOf(vars)[i] in Elems(order);
      var j :| 0 <= j < |order| && order[j] == vars[i].name;
      assert ts[j] == us[i];
    }
    assert NoDup(ts);
    forall i, j | 0 <= i < j < |us| ensures us[i] != us[j] {
      assert NamesOf(vars)[i] != NamesOf(vars)[j];
    }
    SameListing(ts, us);
  }

  /** In any order that puts causes first, the probability of sampling a world
      is the product of the noisy-OR tables of the variables. */
  lemma SamplerExact(vars: seq<Var>, order: seq<string>, w: Assignment)
    requires NoDup(NamesOf(vars)) && NoDup(order) && Elems(order) == Elems(NamesOf(vars))
    requires Ordered(CauseEdges(vars), order)
    ensures Prob(WorldDist(InOrder(ByName(vars), order), map[]), w)
         == if w.Keys == Elems(NamesOf(vars)) then Tables.Joint(TablesOf(vars), w) else 0.0
  {
    var ts := InOrder(ByName(vars), order);
    assert multiset(ts) == multiset(TablesOf(vars)) by {
      forall i | 0 <= i < |vars| ensures vars[i].name in ByName(vars) && ByName(vars)[vars[i].name] == vars[i] {
        ByNameAt(vars, i);
      }
      TablesRelisted(vars, ByName(vars), order);
    }
    assert CausesFirst(ts, {}) by {
      OrderedCausesFirst(vars, order, 0);
      assert order[0..] == order && Elems(order[..0]) == {};
    }
    TablesDistinct(vars, order);
    WorldFromNothing(ts, w);
    JointPermutation(ts, TablesOf(vars), w);
  }

  lemma TablesDistinct(vars: seq<Var>, order: seq<string>)
    requires NoDup(NamesOf(vars)) && NoDup(order) && Elems(order) == Elems(NamesOf(vars))
    ensures var ts := InOrder(ByName(vars), order);
            && (forall i, j :: 0 <= i < j < |ts| ==> ts[i].variable != ts[j].variable)
            && Subjects(ts) == Elems(NamesOf(vars))
  {
    forall x | x in order ensures x in ByName(vars) && ByName(vars)[x].name == x {
      assert x in Elems(order);
      NameKnown(vars, x);
    }
    InOrderAt(ByName(vars), order);
    var ts := InOrder(ByName(vars), order);
    forall i | 0 <= i < |ts| ensures ts[i].variable == order[i] {
      assert order[i] in order;
    }
    forall x | x in Elems(order) ensures x in Subjects(ts) {
      var i :| 0 <= i < |order| && order[i] == x;
      assert ts[i] in ts && ts[i].variable == x;
    }
  }
}
