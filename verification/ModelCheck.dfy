/** Validation of a Bayesian network (sidecar/belief/infer.py:235-286).

`Visit` is the three-state depth-first search of the source.  The model is
rejected as cyclic exactly when the parent relation has a directed cycle, and
an accepted model is a probability distribution. */
module ModelCheck {
  import opened Factors
  import opened SumProduct
  import opened Order
  import opened Lists

  // ----- the parent relation -----

  /** For each variable, its parents in sorted order. */
  type Parents = map<string, seq<string>>

  /** A closed walk along the parent relation. */
  ghost predicate IsCycle(p: Parents, c: seq<string>) {
    |c| >= 2 && c[0] == c[|c| - 1] && IsWalk(p, c)
  }

  ghost predicate IsWalk(p: Parents, c: seq<string>) {
    forall i :: 0 <= i < |c| - 1 ==> c[i] in p && c[i + 1] in p[c[i]]
  }

  ghost predicate Closed(p: Parents) {
    forall v, u :: v in p && u in p[v] ==> u in p
  }

  /** Every variable comes after all its parents. */
  ghost predicate ParentsFirst(p: Parents, order: seq<string>) {
    && NoDup(order)
    && (forall i :: 0 <= i < |order| ==> order[i] in p)
    && (forall i, u :: 0 <= i < |order| && u in p[order[i]] ==> u in order[..i])
  }

  /** Along a walk through an ordered set the positions go down. */
  lemma {:induction false} WalkDescends(p: Parents, order: seq<string>, c: seq<string>, i: nat)
    requires ParentsFirst(p, order) && IsWalk(p, c) && |c| >= 2
    requires i < |order| && c[0] == order[i]
    ensures c[|c| - 1] in order[..i]
    decreases |c|
  {
    assert c[1] in p[c[0]];
    var j :| 0 <= j < i && order[j] == c[1];
    if |c| > 2 {
      WalkDescends(p, order, c[1..], j);
      assert c[1..][|c| - 2] == c[|c| - 1];
    }
  }

  ghost predicate HasCycle(p: Parents) {
    exists c :: IsCycle(p, c)
  }

  /** A parents-first order of all variables leaves no room for a cycle. */
  lemma OrderedIsAcyclic(p: Parents, order: seq<string>)
    requires ParentsFirst(p, order) && Elems(order) == p.Keys
    ensures !HasCycle(p)
  {
    if c :| IsCycle(p, c) {
      assert c[0] in p && c[0] in Elems(order);
      var i :| 0 <= i < |order| && order[i] == c[0];
      WalkDescends(p, order, c, i);
      assert false;
    }
  }

  // ----- the depth-first search -----

  datatype Mark = Visiting | Done

  /** The marks of a search that stands at the end of `path`: the path is
      being visited and `order` is done, parents first. */
  ghost predicate Search(p: Parents, state: map<string, Mark>, path: seq<string>, order: seq<string>) {
    && (forall v :: v in state && state[v] == Visiting <==> v in path)
    && (forall v :: v in state && state[v] == Done <==> v in order)
    && ParentsFirst(p, order)
  }

  /** infer.py:273-283.  `cycle` is empty unless the search raises. */
  method Visit(p: Parents, node: string, path: seq<string>, before: map<string, Mark>, ghost order: seq<string>)
    returns (state: map<string, Mark>, cycle: seq<string>, ghost done: seq<string>)
    requires Closed(p) && node in p && before.Keys <= p.Keys
    requires Search(p, before, path, order) && IsWalk(p, path + [node])
    ensures cycle != [] ==> IsCycle(p, cycle)
    ensures cycle == [] ==> Search(p, state, path, done) && order <= done && node in done
    ensures before.Keys <= state.Keys <= p.Keys
    decreases p.Keys - before.Keys, 1
  {
    state, cycle, done := before, [], order;
    if node in before {
      if before[node] == Done {
        return;
      }
      var i := IndexOf(path, node);
      cycle := path[i..] + [node];
      CycleFromPath(p, path, node, i);
      return;
    }
    var marked := before[node := Visiting];
    assert node in p.Keys - before.Keys && node !in p.Keys - marked.Keys;
    state, cycle, done := VisitAll(p, SortStrings(p[node]), node, path + [node], marked, order);
    if cycle == [] {
      FinishNode(p, state, path, node, done);
      state := state[node := Done];
      done := done + [node];
    }
  }

  /** The loop over the sorted parents of `node`. */
  method VisitAll(p: Parents, todo: seq<string>, ghost node: string, path: seq<string>, before: map<string, Mark>,
                  ghost order: seq<string>)
    returns (state: map<string, Mark>, cycle: seq<string>, ghost done: seq<string>)
    requires Closed(p) && before.Keys <= p.Keys
    requires path != [] && path[|path| - 1] == node && node in p && IsWalk(p, path)
    requires Search(p, before, path, order)
    requires multiset(todo) == multiset(p[node])
    ensures cycle != [] ==> IsCycle(p, cycle)
    ensures cycle == [] ==> Search(p, state, path, done) && order <= done && forall u :: u in p[node] ==> u in done
    ensures before.Keys <= state.Keys <= p.Keys
    decreases p.Keys - before.Keys, 2
  {
    state, cycle, done := before, [], order;
    forall u ensures u in todo <==> u in p[node] {
      InSame(todo, p[node], u);
    }
    for i := 0 to |todo|
      invariant before.Keys <= state.Keys <= p.Keys && cycle == []
      invariant Search(p, state, path, done) && order <= done
      invariant forall j :: 0 <= j < i ==> todo[j] in done
    {
      assert todo[i] in todo;
      WalkExtends(p, path, todo[i]);
      state, cycle, done := Visit(p, todo[i], path, state, done);
      if cycle != [] {
        return;
      }
    }
  }

  lemma WalkExtends(p: Parents, path: seq<string>, u: string)
    requires path != [] && IsWalk(p, path) && path[|path| - 1] in p && u in p[path[|path| - 1]]
    ensures IsWalk(p, path + [u])
  {
  }

  lemma CycleFromPath(p: Parents, path: seq<string>, node: string, i: nat)
    requires IsWalk(p, path + [node]) && i < |path| && path[i] == node
    ensures IsCycle(p, path[i..] + [node])
  {
    var c, w := path[i..] + [node], path + [node];
    assert forall k :: 0 <= k < |c| ==> c[k] == w[i + k];
  }

  lemma FinishNode(p: Parents, state: map<string, Mark>, path: seq<string>, node: string, done: seq<string>)
    requires node in p && node !in path && Search(p, state, path + [node], done)
    requires forall u :: u in p[node] ==> u in done
    ensures Search(p, state[node := Done], path, done + [node])
  {
    assert node in path + [node];
    var more := done + [node];
    assert more[..|done|] == done;
    forall i, u | 0 <= i < |more| && u in p[more[i]] ensures u in more[..i] {
      if i < |done| {
        assert more[..i] == done[..i];
      }
    }
  }

  /** The outer loop of infer.py:285-286 over the declared variables. */
  method FindCycle(p: Parents, declared: seq<string>) returns (cycle: seq<string>, ghost order: seq<string>)
    requires Closed(p) && Elems(declared) == p.Keys
    ensures cycle != [] ==> IsCycle(p, cycle)
    ensures cycle == [] ==> ParentsFirst(p, order) && Elems(order) == p.Keys
  {
    var state: map<string, Mark> := map[];
    cycle, order := [], [];
    for i := 0 to |declared|
      invariant state.Keys <= p.Keys && cycle == []
      invariant Search(p, state, [], order)
      invariant forall j :: 0 <= j < i ==> declared[j] in order
    {
      assert declared[i] in Elems(declared);
      assert IsWalk(p, [] + [declared[i]]);
      state, cycle, order := Visit(p, declared[i], [], state, order);
      if cycle != [] {
        return;
      }
    }
    forall v ensures v in Elems(order) <==> v in p.Keys {
      assert v in p.Keys <==> v in Elems(declared);
    }
  }

  // ----- check_model -----

  datatype Verdict =
    | Accepted
    | MissingTable
    | UndeclaredTable
    | DuplicateTable
    | UndeclaredParent
    | NotNormalised
    | Cyclic(cycle: seq<string>)

  /** The tolerance of infer.py:261. */
  const TOLERANCE: real := 0.000000001

  function Abs(x: real): real {
    if x < 0.0 then -x else x
  }

  /** The table of its first variable.  It may list a variable twice, even its
      own as a parent: conversion checks the shape only. */
  ghost predicate Shaped(f: Factor) {
    f.variables != [] && |f.table| == Pow2(|f.variables|)
  }

  ghost predicate Tables(fs: seq<Factor>) {
    forall f {:trigger f.variables} {:trigger f in fs} :: f in fs ==> Shaped(f)
  }

  function Owners(fs: seq<Factor>): seq<string>
    requires forall f :: f in fs ==> f.variables != []
  {
    seq(|fs|, i requires 0 <= i < |fs| => assert fs[i] in fs; fs[i].variables[0])
  }

  /** `factor.table.sum(axis=0)` at one parent assignment. */
  function ColumnSum(f: Factor, j: nat): real
    requires Shaped(f) && j < Pow2(|f.variables| - 1)
  {
    f.table[j] + f.table[Pow2(|f.variables| - 1) + j]
  }

  ghost predicate ColumnsWithin(f: Factor, slack: real)
    requires Shaped(f)
  {
    forall j :: 0 <= j < Pow2(|f.variables| - 1) ==> Abs(ColumnSum(f, j) - 1.0) <= slack
  }

  function ParentMap(fs: seq<Factor>): (p: Parents)
    requires forall f :: f in fs ==> f.variables != []
    ensures p.Keys == Elems(Owners(fs))
  {
    if fs == [] then map[]
    else
      var n := |fs| - 1;
      assert fs == fs[..n] + [fs[n]] && fs[n] in fs;
      assert Owners(fs) == Owners(fs[..n]) + [fs[n].variables[0]];
      ParentMap(fs[..n])[fs[n].variables[0] := SortStrings(fs[n].variables[1..])]
  }

  lemma {:induction false} ParentMapAt(fs: seq<Factor>, i: nat)
    requires forall f :: f in fs ==> f.variables != []
    requires NoDup(Owners(fs)) && i < |fs|
    ensures var v := fs[i].variables[0];
            v in ParentMap(fs) && multiset(ParentMap(fs)[v]) == multiset(fs[i].variables[1..])
  {
    var n := |fs| - 1;
    if i < n {
      assert Owners(fs[..n]) == Owners(fs)[..n];
      ParentMapAt(fs[..n], i);
      assert Owners(fs)[i] != Owners(fs)[n];
    }
  }

  /** Everything that is checked before the search for a cycle. */
  ghost predicate WellFormed(fs: seq<Factor>, declared: seq<string>)
    requires Tables(fs)
  {
    && Elems(declared) == Elems(Owners(fs)) && NoDup(Owners(fs))
    && (forall f :: f in fs ==> SoundTable(f, declared))
  }

  ghost predicate SoundTable(f: Factor, declared: seq<string>)
    requires Shaped(f)
  {
    KnownParents(f, declared) && ColumnsWithin(f, TOLERANCE)
  }

  predicate KnownParents(f: Factor, declared: seq<string>)
    requires f.variables != []
  {
    forall u | u in f.variables[1..] :: u in declared
  }

  /** Table `i` is the first one that is not sound. */
  ghost predicate FirstFlaw(fs: seq<Factor>, declared: seq<string>, i: nat)
    requires Tables(fs)
  {
    i < |fs| && !SoundTable(fs[i], declared) && forall j :: 0 <= j < i ==> SoundTable(fs[j], declared)
  }

  /** The first table that is not sound has undeclared parents, or has known
      parents and so columns that do not sum to one. */
  ghost predicate FlawedBy(fs: seq<Factor>, declared: seq<string>, known: bool)
    requires Tables(fs)
  {
    exists i: nat :: FirstFlaw(fs, declared, i) && KnownParents(fs[i], declared) == known
  }

  lemma WellFormedClosed(fs: seq<Factor>, declared: seq<string>)
    requires Tables(fs) && WellFormed(fs, declared)
    ensures Closed(ParentMap(fs))
  {
    var p := ParentMap(fs);
    forall v, u | v in p && u in p[v] ensures u in p {
      assert v in Owners(fs);
      var i :| 0 <= i < |fs| && Owners(fs)[i] == v;
      ParentMapAt(fs, i);
      InSame(p[v], fs[i].variables[1..], u);
      assert fs[i] in fs && u in Elems(declared);
    }
  }

  method CheckColumns(f: Factor) returns (ok: bool)
    requires Shaped(f)
    ensures ok <==> ColumnsWithin(f, TOLERANCE)
  {
    assert |f.table| == 2 * Pow2(|f.variables| - 1);
    for j := 0 to Pow2(|f.variables| - 1)
      invariant forall k :: 0 <= k < j ==> Abs(ColumnSum(f, k) - 1.0) <= TOLERANCE
    {
      if Abs(ColumnSum(f, j) - 1.0) > TOLERANCE {
        return false;
      }
    }
    return true;
  }

  // ----- an accepted model is a distribution -----

  lemma HeadBits(vs: seq<string>, a: Assignment, b: bool)
    requires NoDup(vs) && vs != []
    ensures Bits(vs, a[vs[0] := b]) == [b] + Bits(vs[1..], a)
  {
    NoDupTail(vs);
  }

  /** Exactly normalised columns sum to one at every assignment. */
  lemma ColumnsSumToOne(f: Factor, a: Assignment)
    requires f.Valid() && f.variables != [] && ColumnsWithin(f, 0.0)
    ensures Eval(f, a[f.variables[0] := false]) + Eval(f, a[f.variables[0] := true]) == 1.0
  {
    var v, rest := f.variables[0], f.variables[1..];
    var bits := Bits(rest, a);
    HeadBits(f.variables, a, false);
    HeadBits(f.variables, a, true);
    RavelCons(false, bits);
    RavelCons(true, bits);
    assert Abs(ColumnSum(f, Ravel(bits)) - 1.0) <= 0.0;
  }

  lemma {:induction false} ProductRemove(fs: seq<Factor>, k: nat, a: Assignment)
    requires AllValid(fs) && k < |fs|
    ensures AllValid(RemoveAt(fs, k))
    ensures Product(fs, a) == Times(Product(RemoveAt(fs, k), a), Eval(fs[k], a))
  {
    assert fs[k] in fs;
    assert fs == fs[..k] + ([fs[k]] + fs[k + 1..]);
    var p, e, q := Product(fs[..k], a), Eval(fs[k], a), Product(fs[k + 1..], a);
    ProductConcat(fs[..k], [fs[k]] + fs[k + 1..], a);
    ProductCons(fs[k], fs[k + 1..], a);
    ProductConcat(fs[..k], fs[k + 1..], a);
    TimesComm(e, q);
    TimesAssoc(p, q, e);
  }

  /** Summing the last variable of a parents-first order removes its table. */
  lemma SumOwner(fs: seq<Factor>, k: nat, a: Assignment)
    requires Tables(fs) && AllValid(fs) && k < |fs| && ColumnsWithin(fs[k], 0.0)
    requires fs[k].variables[0] !in Scope(RemoveAt(fs, k))
    ensures AllValid(RemoveAt(fs, k))
    ensures Product(RemoveAt(fs, k), a)
         == Product(fs, a[fs[k].variables[0] := false]) + Product(fs, a[fs[k].variables[0] := true])
  {
    assert fs[k] in fs;
    var v, gs := fs[k].variables[0], RemoveAt(fs, k);
    ProductRemove(fs, k, a[v := false]);
    ProductRemove(fs, k, a[v := true]);
    ProductFrame(gs, a, v, false);
    ProductFrame(gs, a, v, true);
    ColumnsSumToOne(fs[k], a);
    TimesDistribute(Eval(fs[k], a[v := false]), Eval(fs[k], a[v := true]), Product(gs, a));
    TimesUnit(Product(gs, a));
  }

  /** The tables own exactly the variables of the order, and mention no
      variable that comes later than their own. */
  ghost predicate Ordered(fs: seq<Factor>, order: seq<string>)
    requires Tables(fs)
  {
    && NoDup(order) && NoDup(Owners(fs)) && Elems(Owners(fs)) == Elems(order)
    && (forall f :: f in fs ==> ColumnsWithin(f, 0.0))
    && (forall f, i, j ::
          (f in fs && 0 <= i < |order| && 0 <= j < |order| && f.variables[0] == order[i] && order[j] in f.variables) ==>
          j <= i)
  }

  lemma {:induction false} OutOfScope(fs: seq<Factor>, v: string)
    requires forall f :: f in fs ==> v !in f.variables
    ensures v !in Scope(fs)
  {
    if fs != [] {
      assert fs[0] in fs;
      OutOfScope(fs[1..], v);
    }
  }

  lemma LastOwner(fs: seq<Factor>, order: seq<string>) returns (k: nat)
    requires Tables(fs) && AllValid(fs) && Ordered(fs, order) && order != []
    ensures k < |fs| && fs[k].variables[0] == order[|order| - 1]
    ensures Tables(RemoveAt(fs, k)) && AllValid(RemoveAt(fs, k)) && Ordered(RemoveAt(fs, k), order[..|order| - 1])
    ensures order[|order| - 1] !in Scope(RemoveAt(fs, k))
  {
    var n := |order| - 1;
    var v := order[n];
    assert v in Elems(order) && v in Owners(fs);
    k :| 0 <= k < |fs| && Owners(fs)[k] == v;
    var gs := RemoveAt(fs, k);
    assert Owners(gs) == RemoveAt(Owners(fs), k);
    forall g | g in gs ensures g in fs && g.variables[0] != v {
      var i :| 0 <= i < |gs| && gs[i] == g;
      assert g == fs[if i < k then i else i + 1];
      assert Owners(fs)[if i < k then i else i + 1] != v;
    }
    OwnersWithout(fs, order, k);
    forall g | g in gs ensures v !in g.variables {
      OwnerOf(fs, g);
      assert g.variables[0] in Elems(order);
      var i :| 0 <= i < |order| && order[i] == g.variables[0];
    }
    OutOfScope(gs, v);
  }

  lemma OwnerOf(fs: seq<Factor>, f: Factor)
    requires Tables(fs) && f in fs
    ensures f.variables[0] in Owners(fs)
  {
    var i :| 0 <= i < |fs| && fs[i] == f;
    assert Owners(fs)[i] == f.variables[0];
  }

  lemma OwnersWithout(fs: seq<Factor>, order: seq<string>, k: nat)
    requires Tables(fs) && AllValid(fs) && Ordered(fs, order) && order != [] && k < |fs|
    requires Owners(fs)[k] == order[|order| - 1]
    ensures NoDup(RemoveAt(Owners(fs), k)) && NoDup(order[..|order| - 1])
    ensures Elems(RemoveAt(Owners(fs), k)) == Elems(order[..|order| - 1])
  {
    var owners, n := Owners(fs), |order| - 1;
    assert owners == owners[..k] + [owners[k]] + owners[k + 1..];
    assert order == order[..n] + [order[n]];
    forall x ensures x in RemoveAt(owners, k) <==> x in order[..n] {
      assert x in owners <==> x in Elems(owners);
      assert x in order <==> x in Elems(order);
    }
  }

  /** The product of an ordered network sums to one. */
  lemma {:induction false} OrderedTotal(fs: seq<Factor>, order: seq<string>, a: Assignment)
    requires Tables(fs) && AllValid(fs) && Ordered(fs, order)
    ensures Total(order, fs, a) == 1.0
    decreases |order|
  {
    if order == [] {
      ElemsCount(Owners(fs));
      assert |Elems(Owners(fs))| == |Elems(order)| == 0;
    } else {
      var n := |order| - 1;
      var k := LastOwner(fs, order);
      var gs := RemoveAt(fs, k);
      OrderedTotal(gs, order[..n], a);
      forall b: Assignment
        ensures Product(gs, b) == Product(fs, b[order[n] := false]) + Product(fs, b[order[n] := true])
      {
        assert fs[k] in fs;
        SumOwner(fs, k, b);
      }
      TotalEliminate(order[..n], order[n], fs, gs, a);
      assert order == order[..n] + [order[n]];
    }
  }

  /** The product of the tables is a distribution over the declared variables. */
  ghost predicate SumsToOne(fs: seq<Factor>, declared: seq<string>)
    requires AllValid(fs)
  {
    forall vs, a: Assignment :: NoDup(vs) && Elems(vs) == Elems(declared) ==> Total(vs, fs, a) == 1.0
  }

  lemma OrderedTables(fs: seq<Factor>, declared: seq<string>, order: seq<string>)
    requires Tables(fs) && AllValid(fs) && WellFormed(fs, declared) && forall f :: f in fs ==> ColumnsWithin(f, 0.0)
    requires ParentsFirst(ParentMap(fs), order) && Elems(order) == Elems(declared)
    ensures Ordered(fs, order)
  {
    forall f, i, j | f in fs && 0 <= i < |order| && 0 <= j < |order| && f.variables[0] == order[i]
           && order[j] in f.variables
      ensures j <= i
    {
      var k :| 0 <= k < |fs| && fs[k] == f;
      ParentMapAt(fs, k);
      if order[j] != f.variables[0] {
        assert order[j] in f.variables[1..];
        InSame(ParentMap(fs)[order[i]], f.variables[1..], order[j]);
      }
    }
  }

  lemma AcceptedSumsToOne(fs: seq<Factor>, declared: seq<string>, order: seq<string>)
    requires Tables(fs) && AllValid(fs) && WellFormed(fs, declared) && forall f :: f in fs ==> ColumnsWithin(f, 0.0)
    requires ParentsFirst(ParentMap(fs), order) && Elems(order) == Elems(declared)
    ensures SumsToOne(fs, declared)
  {
    OrderedTables(fs, declared, order);
    forall vs, a: Assignment | NoDup(vs) && Elems(vs) == Elems(declared) ensures Total(vs, fs, a) == 1.0 {
      TotalPermutation(vs, order, fs, a);
      OrderedTotal(fs, order, a);
    }
  }

  /** The loop of infer.py:254-265. */
  method CheckTables(fs: seq<Factor>, declared: seq<string>) returns (r: Verdict)
    requires Tables(fs)
    ensures r.Accepted? || r.UndeclaredParent? || r.NotNormalised?
    ensures r.Accepted? ==> forall f :: f in fs ==> SoundTable(f, declared)
    ensures r.UndeclaredParent? ==> FlawedBy(fs, declared, false)
    ensures r.NotNormalised? ==> FlawedBy(fs, declared, true)
  {
    for i := 0 to |fs|
      invariant forall j :: 0 <= j < i ==> SoundTable(fs[j], declared)
    {
      assert fs[i] in fs;
      if !KnownParents(fs[i], declared) {
        assert FirstFlaw(fs, declared, i);
        return UndeclaredParent;
      }
      var ok := CheckColumns(fs[i]);
      if !ok {
        assert FirstFlaw(fs, declared, i);
        return NotNormalised;
      }
    }
    return Accepted;
  }

  /** infer.py:243-252. */
  method CheckOwners(fs: seq<Factor>, declared: seq<string>) returns (r: Verdict)
    requires Tables(fs)
    ensures r.Accepted? || r.MissingTable? || r.UndeclaredTable? || r.DuplicateTable?
    ensures r.Accepted? <==> Elems(declared) == Elems(Owners(fs)) && NoDup(Owners(fs))
    ensures r.MissingTable? <==> !(Elems(declared) <= Elems(Owners(fs)))
    ensures r.UndeclaredTable? <==> Elems(declared) < Elems(Owners(fs))
  {
    var owned := Owners(fs);
    if NoDup(owned) {
      ElemsCount(owned);
    }
    if |Elems(owned)| == |owned| {
      CountNoDup(owned);
    }
    SubsetIff(declared, owned);
    SubsetIff(owned, declared);
    if exists v :: v in declared && v !in owned {
      return MissingTable;
    }
    if exists v :: v in owned && v !in declared {
      return UndeclaredTable;
    }
    if |Elems(owned)| != |owned| {
      return DuplicateTable;
    }
    return Accepted;
  }

  lemma SubsetIff(s: seq<string>, t: seq<string>)
    ensures Elems(s) <= Elems(t) <==> !exists v :: v in s && v !in t
  {
    forall v ensures (v in s <==> v in Elems(s)) && (v in t <==> v in Elems(t)) {
    }
  }

  method CheckModel(fs: seq<Factor>, declared: seq<string>) returns (r: Verdict)
    requires Tables(fs)
    ensures r.Accepted? <==> WellFormed(fs, declared) && !HasCycle(ParentMap(fs))
    ensures r.Cyclic? <==> WellFormed(fs, declared) && HasCycle(ParentMap(fs))
    ensures r.Cyclic? ==> IsCycle(ParentMap(fs), r.cycle)
    ensures r.MissingTable? <==> !(Elems(declared) <= Elems(Owners(fs)))
    ensures r.UndeclaredTable? <==> Elems(declared) < Elems(Owners(fs))
    ensures r.DuplicateTable? <==> Elems(declared) == Elems(Owners(fs)) && !NoDup(Owners(fs))
    ensures r.UndeclaredParent? ==> FlawedBy(fs, declared, false)
    ensures r.NotNormalised? ==> FlawedBy(fs, declared, true)
    ensures r.Accepted? && AllValid(fs) && (forall f :: f in fs ==> ColumnsWithin(f, 0.0)) ==> SumsToOne(fs, declared)
  {
    r := CheckOwners(fs, declared);
    if !r.Accepted? {
      return;
    }
    r := CheckTables(fs, declared);
    if r.Accepted? {
      r := CheckAcyclic(fs, declared);
    }
  }

  /** The search of infer.py:270-286. */
  method CheckAcyclic(fs: seq<Factor>, declared: seq<string>) returns (r: Verdict)
    requires Tables(fs) && WellFormed(fs, declared)
    ensures r.Accepted? || r.Cyclic?
    ensures r.Cyclic? <==> HasCycle(ParentMap(fs))
    ensures r.Cyclic? ==> IsCycle(ParentMap(fs), r.cycle)
    ensures r.Accepted? && AllValid(fs) && (forall f :: f in fs ==> ColumnsWithin(f, 0.0)) ==> SumsToOne(fs, declared)
  {
    WellFormedClosed(fs, declared);
    var cycle;
    ghost var order;
    cycle, order := FindCycle(ParentMap(fs), declared);
    r := if cycle == [] then Accepted else Cyclic(cycle);
    if cycle == [] {
      OrderedIsAcyclic(ParentMap(fs), order);
      if AllValid(fs) && forall f :: f in fs ==> ColumnsWithin(f, 0.0) {
        AcceptedSumsToOne(fs, declared, order);
      }
    }
  }
}
