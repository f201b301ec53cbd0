/** Exact variable elimination (sidecar/belief/infer.py:131-218).

One elimination step, and the deterministic min-degree order in which the
query takes its steps. */
module Elimination {
  import opened Factors
  import opened SumProduct
  import opened Lists

  // ----- one elimination step -----

  /** The factors whose scope holds `v`, in order. */
  function Involved(fs: seq<Factor>, v: string): (r: seq<Factor>)
    ensures AllValid(fs) ==> AllValid(r)
    ensures v in Scope(fs) ==> r != [] && v in Scope(r)
  {
    if fs == [] then []
    else
      var rest := Involved(fs[1..], v);
      if v in fs[0].variables then
        ScopeConcat([fs[0]], rest);
        [fs[0]] + rest
      else rest
  }

  /** The factors whose scope does not hold `v`, in order. */
  function Untouched(fs: seq<Factor>, v: string): (r: seq<Factor>)
    ensures AllValid(fs) ==> AllValid(r)
    ensures v !in Scope(r)
  {
    if fs == [] then []
    else
      var rest := Untouched(fs[1..], v);
      if v in fs[0].variables then rest
      else
        ScopeConcat([fs[0]], rest);
        [fs[0]] + rest
  }

  lemma {:induction false} ScopeSplit(fs: seq<Factor>, v: string)
    ensures Scope(fs) == Scope(Untouched(fs, v)) + Scope(Involved(fs, v))
  {
    if fs != [] {
      ScopeSplit(fs[1..], v);
      ScopeConcat([fs[0]], Untouched(fs[1..], v));
      ScopeConcat([fs[0]], Involved(fs[1..], v));
    }
  }

  lemma {:induction false} ProductSplit(fs: seq<Factor>, v: string, a: Assignment)
    requires AllValid(fs)
    ensures Product(fs, a) == Times(Product(Untouched(fs, v), a), Product(Involved(fs, v), a))
  {
    if fs == [] {
      TimesUnit(1.0);
    } else {
      assert fs[0] in fs;
      ProductSplit(fs[1..], v, a);
      var e, p, q := Eval(fs[0], a), Product(Untouched(fs[1..], v), a), Product(Involved(fs[1..], v), a);
      TimesAssoc(e, p, q);
      if v in fs[0].variables {
        ProductCons(fs[0], Involved(fs[1..], v), a);
        TimesComm(e, p);
        TimesAssoc(p, e, q);
      } else {
        ProductCons(fs[0], Untouched(fs[1..], v), a);
      }
    }
  }

  /** Multiplies a factor by each factor of a list in turn. */
  function Fold(acc: Factor, fs: seq<Factor>): (r: Factor)
    requires acc.Valid() && AllValid(fs)
    ensures r.Valid()
    ensures Elems(r.variables) == Elems(acc.variables) + Scope(fs)
    decreases |fs|
  {
    if fs == [] then acc
    else
      assert fs[0] in fs;
      Fold(Multiply(acc, fs[0]), fs[1..])
  }

  /** The left-to-right product of a non-empty factor list. */
  function MultiplyAll(fs: seq<Factor>): (r: Factor)
    requires fs != [] && AllValid(fs)
    ensures r.Valid()
    ensures Elems(r.variables) == Scope(fs)
  {
    assert fs[0] in fs;
    Fold(fs[0], fs[1..])
  }

  lemma {:induction false} EvalFold(acc: Factor, fs: seq<Factor>, a: Assignment)
    requires acc.Valid() && AllValid(fs)
    ensures Eval(Fold(acc, fs), a) == Times(Eval(acc, a), Product(fs, a))
    decreases |fs|
  {
    if fs == [] {
      TimesUnit(Eval(acc, a));
    } else {
      assert fs[0] in fs;
      EvalFold(Multiply(acc, fs[0]), fs[1..], a);
      EvalMultiply(acc, fs[0], a);
      TimesAssoc(Eval(acc, a), Eval(fs[0], a), Product(fs[1..], a));
    }
  }

  lemma EvalMultiplyAll(fs: seq<Factor>, a: Assignment)
    requires fs != [] && AllValid(fs)
    ensures Eval(MultiplyAll(fs), a) == Product(fs, a)
  {
    assert fs[0] in fs;
    EvalFold(fs[0], fs[1..], a);
  }

  /** What one pass of the elimination loop leaves. */
  function Eliminate(fs: seq<Factor>, v: string): (r: seq<Factor>)
    requires AllValid(fs) && v in Scope(fs)
    ensures AllValid(r)
    ensures Scope(r) == Scope(fs) - {v}
  {
    var joint := MultiplyAll(Involved(fs, v));
    assert v in Elems(joint.variables);
    ScopeSplit(fs, v);
    ScopeSnoc(Untouched(fs, v), SumOut(joint, v));
    Untouched(fs, v) + [SumOut(joint, v)]
  }

  lemma JointSums(fs: seq<Factor>, v: string, a: Assignment)
    requires fs != [] && AllValid(fs) && v in Scope(fs)
    ensures Eval(SumOut(MultiplyAll(fs), v), a) == Product(fs, a[v := false]) + Product(fs, a[v := true])
  {
    assert v in Elems(MultiplyAll(fs).variables);
    EvalSumOut(MultiplyAll(fs), v, a);
    EvalMultiplyAll(fs, a[v := false]);
    EvalMultiplyAll(fs, a[v := true]);
  }

  lemma SplitAt(fs: seq<Factor>, v: string, a: Assignment, b: bool)
    requires AllValid(fs)
    ensures Product(fs, a[v := b]) == Times(Product(Untouched(fs, v), a), Product(Involved(fs, v), a[v := b]))
  {
    ProductSplit(fs, v, a[v := b]);
    ProductFrame(Untouched(fs, v), a, v, b);
  }

  lemma Recombine(p: real, x: real, y: real, e: real)
    requires e == x + y
    ensures Times(p, e) == Times(p, x) + Times(p, y)
  {
    TimesDistribute(x, y, p);
  }

  /** Multiplying the involved factors and summing the variable out sums the
      whole product over that variable. */
  lemma EliminateSums(fs: seq<Factor>, v: string, a: Assignment)
    requires AllValid(fs) && v in Scope(fs)
    ensures Product(Eliminate(fs, v), a) == Product(fs, a[v := false]) + Product(fs, a[v := true])
  {
    var involved, rest := Involved(fs, v), Untouched(fs, v);
    var made := SumOut(MultiplyAll(involved), v);
    JointSums(involved, v, a);
    ProductSnoc(rest, made, a);
    SplitAt(fs, v, a, false);
    SplitAt(fs, v, a, true);
    Recombine(Product(rest, a), Product(involved, a[v := false]), Product(involved, a[v := true]), Eval(made, a));
  }

  // ----- the min-degree order (infer.py:131) -----

  /** All variables in the order they are first seen. */
  function FirstSeen(fs: seq<Factor>): (vs: seq<string>)
    requires AllValid(fs)
    ensures NoDup(vs)
    ensures Elems(vs) == Scope(fs)
  {
    if fs == [] then []
    else
      var init, last := fs[..|fs| - 1], fs[|fs| - 1];
      assert fs == init + [last] && last in fs;
      ScopeSnoc(init, last);
      Union(FirstSeen(init), last.variables)
  }

  function Scopes(fs: seq<Factor>): (r: seq<set<string>>)
    ensures |r| == |fs|
    ensures forall i :: 0 <= i < |fs| ==> r[i] == Elems(fs[i].variables)
  {
    seq(|fs|, i requires 0 <= i < |fs| => Elems(fs[i].variables))
  }

  /** The union of the scopes that hold `v`. */
  function Touching(scopes: seq<set<string>>, v: string): set<string> {
    if scopes == [] then {}
    else (if v in scopes[0] then scopes[0] else {}) + Touching(scopes[1..], v)
  }

  function Degree(scopes: seq<set<string>>, v: string): nat {
    |Touching(scopes, v) - {v}|
  }

  function Avoiding(scopes: seq<set<string>>, v: string): seq<set<string>> {
    if scopes == [] then []
    else (if v in scopes[0] then [] else [scopes[0]]) + Avoiding(scopes[1..], v)
  }

  /** The scopes after `v` is eliminated: its neighbours become one clique. */
  function Contracted(scopes: seq<set<string>>, v: string): seq<set<string>> {
    var induced := Touching(scopes, v) - {v};
    Avoiding(scopes, v) + (if induced == {} then [] else [induced])
  }

  /** `v` has the smallest degree in `remaining`, and is the first such. */
  ghost predicate FirstMinimal(scopes: seq<set<string>>, remaining: seq<string>, v: string) {
    exists i :: 0 <= i < |remaining| && remaining[i] == v && MinimalAt(scopes, remaining, i)
  }

  ghost predicate MinimalAt(scopes: seq<set<string>>, remaining: seq<string>, i: nat)
    requires i < |remaining|
  {
    forall j :: 0 <= j < |remaining| ==> Before(scopes, remaining, i, j)
  }

  /** The key comparison of infer.py:163: by degree, then by position. */
  ghost predicate Before(scopes: seq<set<string>>, remaining: seq<string>, i: nat, j: nat)
    requires i < |remaining| && j < |remaining|
  {
    var d, e := Degree(scopes, remaining[i]), Degree(scopes, remaining[j]);
    d < e || (d == e && i <= j)
  }

  /** `order` takes, at every step, the first variable of least degree in the
      graph that the earlier eliminations induced. */
  ghost predicate MinDegreeOrder(scopes: seq<set<string>>, remaining: seq<string>, order: seq<string>)
    decreases |order|
  {
    if order == [] then remaining == []
    else
      && FirstMinimal(scopes, remaining, order[0])
      && MinDegreeOrder(Contracted(scopes, order[0]), Except(remaining, order[0]), order[1..])
  }

  /** A min-degree order is a permutation of what it orders. */
  lemma {:induction false} MinDegreeOrderElems(scopes: seq<set<string>>, remaining: seq<string>, order: seq<string>)
    requires MinDegreeOrder(scopes, remaining, order)
    ensures NoDup(order) && Elems(order) == Elems(remaining)
    decreases |order|
  {
    if order == [] {
      assert Elems(order) == Elems(remaining);
    } else {
      var v, rest := order[0], Except(remaining, order[0]);
      MinDegreeOrderElems(Contracted(scopes, v), rest, order[1..]);
      assert order == [v] + order[1..];
      forall u ensures u in order <==> u in remaining {
        assert u in order[1..] <==> u in Elems(order[1..]);
        assert u in rest <==> u in Elems(rest);
      }
      assert v !in order[1..] by {
        assert v !in Elems(rest);
      }
    }
  }

  lemma FirstMinimalUnique(scopes: seq<set<string>>, remaining: seq<string>, x: string, y: string)
    requires FirstMinimal(scopes, remaining, x) && FirstMinimal(scopes, remaining, y)
    ensures x == y
  {
    var i :| 0 <= i < |remaining| && remaining[i] == x && MinimalAt(scopes, remaining, i);
    var j :| 0 <= j < |remaining| && remaining[j] == y && MinimalAt(scopes, remaining, j);
    assert Before(scopes, remaining, i, j) && Before(scopes, remaining, j, i);
  }

  /** The order is determined by the factors alone. */
  lemma {:induction false} MinDegreeOrderUnique(scopes: seq<set<string>>, remaining: seq<string>,
                                               left: seq<string>, right: seq<string>)
    requires NoDup(remaining)
    requires MinDegreeOrder(scopes, remaining, left) && MinDegreeOrder(scopes, remaining, right)
    ensures left == right
    decreases |left|
  {
    if left == [] {
      MinDegreeOrderElems(scopes, remaining, right);
      assert forall v :: v in right ==> v in Elems(right);
    } else {
      assert remaining != [];
      FirstMinimalUnique(scopes, remaining, left[0], right[0]);
      MinDegreeOrderUnique(Contracted(scopes, left[0]), Except(remaining, left[0]), left[1..], right[1..]);
      assert left == [left[0]] + left[1..] && right == [right[0]] + right[1..];
    }
  }

  /** `neighbours` of infer.py:157-161, and the induced scope of 166-169. */
  method CollectTouching(scopes: seq<set<string>>, v: string) returns (touching: set<string>)
    ensures touching == Touching(scopes, v)
  {
    touching := {};
    var rest := scopes;
    while rest != []
      invariant touching + Touching(rest, v) == Touching(scopes, v)
      decreases |rest|
    {
      if v in rest[0] {
        touching := touching + rest[0];
      }
      rest := rest[1..];
    }
  }

  /** infer.py:155-162. */
  method Degrees(scopes: seq<set<string>>, remaining: seq<string>) returns (degrees: seq<nat>)
    ensures |degrees| == |remaining|
    ensures forall j :: 0 <= j < |remaining| ==> degrees[j] == Degree(scopes, remaining[j])
  {
    degrees := [];
    while |degrees| < |remaining|
      invariant |degrees| <= |remaining|
      invariant forall j :: 0 <= j < |degrees| ==> degrees[j] == Degree(scopes, remaining[j])
    {
      var v := remaining[|degrees|];
      var neighbours := CollectTouching(scopes, v);
      degrees := degrees + [|neighbours - {v}|];
    }
  }

  /** The first position of a least element. */
  method ArgMin(ds: seq<nat>) returns (at: nat)
    requires ds != []
    ensures at < |ds|
    ensures forall j :: 0 <= j < |ds| ==> ds[at] < ds[j] || (ds[at] == ds[j] && at <= j)
  {
    at := 0;
    var i := 1;
    while i < |ds|
      invariant 0 <= at < i <= |ds|
      invariant forall j :: 0 <= j < i ==> ds[at] < ds[j] || (ds[at] == ds[j] && at <= j)
    {
      if ds[i] < ds[at] {
        at := i;
      }
      i := i + 1;
    }
  }

  method PickMinDegree(scopes: seq<set<string>>, remaining: seq<string>) returns (v: string)
    requires remaining != []
    ensures v in remaining && FirstMinimal(scopes, remaining, v)
  {
    var degrees := Degrees(scopes, remaining);
    var at := ArgMin(degrees);
    v := remaining[at];
    assert MinimalAt(scopes, remaining, at);
  }

  method ContractScopes(scopes: seq<set<string>>, v: string) returns (r: seq<set<string>>)
    ensures r == Contracted(scopes, v)
  {
    var touching := CollectTouching(scopes, v);
    r := [];
    var rest := scopes;
    while rest != []
      invariant r + Avoiding(rest, v) == Avoiding(scopes, v)
      decreases |rest|
    {
      if v !in rest[0] {
        r := r + [rest[0]];
      }
      rest := rest[1..];
    }
    if touching - {v} != {} {
      r := r + [touching - {v}];
    }
  }

  /** The selection loop of infer.py:154-173. */
  method OrderScopes(all: seq<set<string>>, vs: seq<string>) returns (order: seq<string>)
    ensures MinDegreeOrder(all, vs, order)
  {
    var scopes, remaining := all, vs;
    order := [];
    ExtendsStart(all, vs);
    while remaining != []
      invariant Extends(scopes, remaining, order, all, vs)
      decreases |remaining|
    {
      var v := PickMinDegree(scopes, remaining);
      ExtendsStep(scopes, remaining, order, all, vs, v);
      ExceptShrinks(remaining, v);
      scopes := ContractScopes(scopes, v);
      remaining := Except(remaining, v);
      order := order + [v];
    }
    ExtendsEnd(scopes, order, all, vs);
  }

  /** Any min-degree order of what remains completes `order`. */
  ghost predicate Extends(scopes: seq<set<string>>, remaining: seq<string>, order: seq<string>,
                          all: seq<set<string>>, vs: seq<string>)
  {
    forall tail :: MinDegreeOrder(scopes, remaining, tail) ==> MinDegreeOrder(all, vs, order + tail)
  }

  lemma ExtendsStart(all: seq<set<string>>, vs: seq<string>)
    ensures Extends(all, vs, [], all, vs)
  {
    forall tail | MinDegreeOrder(all, vs, tail) ensures MinDegreeOrder(all, vs, [] + tail) {
      assert [] + tail == tail;
    }
  }

  lemma ExtendsEnd(scopes: seq<set<string>>, order: seq<string>, all: seq<set<string>>, vs: seq<string>)
    requires Extends(scopes, [], order, all, vs)
    ensures MinDegreeOrder(all, vs, order)
  {
    assert MinDegreeOrder(scopes, [], []);
    assert order + [] == order;
  }

  lemma ExtendsStep(scopes: seq<set<string>>, remaining: seq<string>, order: seq<string>,
                    all: seq<set<string>>, vs: seq<string>, v: string)
    requires Extends(scopes, remaining, order, all, vs) && FirstMinimal(scopes, remaining, v)
    ensures Extends(Contracted(scopes, v), Except(remaining, v), order + [v], all, vs)
  {
    forall tail | MinDegreeOrder(Contracted(scopes, v), Except(remaining, v), tail)
      ensures MinDegreeOrder(all, vs, order + [v] + tail)
    {
      assert ([v] + tail)[1..] == tail;
      assert MinDegreeOrder(scopes, remaining, [v] + tail);
      Associate(order, [v], tail);
    }
  }

  method EliminationOrder(fs: seq<Factor>, keep: string) returns (order: seq<string>)
    requires AllValid(fs)
    ensures MinDegreeOrder(Scopes(fs), Except(FirstSeen(fs), keep), order)
    ensures NoDup(order)
    ensures Elems(order) == Scope(fs) - {keep}
  {
    var scopes := Scopes(fs);
    var remaining := Except(FirstSeen(fs), keep);
    order := OrderScopes(scopes, remaining);
    MinDegreeOrderElems(scopes, remaining, order);
    assert Elems(remaining) == Elems(FirstSeen(fs)) - {keep};
  }

  lemma {:induction false} ExceptShrinks(vs: seq<string>, v: string)
    ensures |Except(vs, v)| <= |vs|
    ensures v in vs ==> |Except(vs, v)| < |vs|
  {
    if vs != [] {
      ExceptShrinks(vs[1..], v);
    }
  }
}
