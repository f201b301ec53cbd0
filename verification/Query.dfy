/** Exact posterior queries (sidecar/belief/infer.py:177-232). */
module Query {
  import opened Factors
  import opened SumProduct
  import opened Elimination
  import opened Lists

  // ----- conditioning a factor list -----

  function ReduceAll(fs: seq<Factor>, evidence: Assignment): (r: seq<Factor>)
    requires AllValid(fs)
    ensures AllValid(r)
    ensures Scope(r) == Scope(fs) - evidence.Keys
  {
    if fs == [] then []
    else
      assert fs[0] in fs;
      var rest := ReduceAll(fs[1..], evidence);
      var r := [Reduce(fs[0], evidence)] + rest;
      assert r[1..] == rest;
      r
  }

  lemma {:induction false} ProductReduce(fs: seq<Factor>, evidence: Assignment, a: Assignment)
    requires AllValid(fs)
    ensures Product(ReduceAll(fs, evidence), a) == Product(fs, a + evidence)
  {
    if fs != [] {
      assert fs[0] in fs;
      EvalReduce(fs[0], evidence, a);
      ProductReduce(fs[1..], evidence, a);
      assert ReduceAll(fs, evidence)[1..] == ReduceAll(fs[1..], evidence);
    }
  }

  lemma UpdateMerge(a: Assignment, evidence: Assignment, v: string)
    requires v !in evidence
    ensures a[v := false] + evidence == (a + evidence)[v := false]
    ensures a[v := true] + evidence == (a + evidence)[v := true]
  {
  }

  lemma {:induction false} TotalReduce(vs: seq<string>, fs: seq<Factor>, evidence: Assignment, a: Assignment)
    requires AllValid(fs) && Elems(vs) !! evidence.Keys
    ensures Total(vs, ReduceAll(fs, evidence), a) == Total(vs, fs, a + evidence)
  {
    if vs == [] {
      ProductReduce(fs, evidence, a);
    } else {
      assert vs[0] in Elems(vs) && Elems(vs[1..]) <= Elems(vs);
      TotalReduce(vs[1..], fs, evidence, a[vs[0] := false]);
      TotalReduce(vs[1..], fs, evidence, a[vs[0] := true]);
      UpdateMerge(a, evidence, vs[0]);
    }
  }

  lemma {:induction false} ReduceAllNonNegative(fs: seq<Factor>, evidence: Assignment)
    requires AllValid(fs) && AllNonNegative(fs)
    ensures AllNonNegative(ReduceAll(fs, evidence))
  {
    if fs != [] {
      assert fs[0] in fs;
      ReduceAllNonNegative(fs[1..], evidence);
      ReduceNonNegative(fs[0], evidence);
    }
  }

  lemma ReduceNonNegative(f: Factor, evidence: Assignment)
    requires f.Valid() && f.NonNegative()
    ensures Reduce(f, evidence).NonNegative()
  {
    var r := Reduce(f, evidence);
    forall i | 0 <= i < |r.table| ensures r.table[i] >= 0.0 {
      var bits := Unravel(|r.variables|, i);
      assert r.table[Ravel(bits)] == r.table[i];
    }
  }

  // ----- fully observed factors -----

  /** The factors that still have a variable, in order. */
  function Live(fs: seq<Factor>): (r: seq<Factor>)
    ensures AllValid(fs) ==> AllValid(r)
    ensures Scope(r) == Scope(fs)
  {
    if fs == [] then []
    else
      var rest := Live(fs[1..]);
      if fs[0].variables == [] then rest
      else
        ScopeConcat([fs[0]], rest);
        [fs[0]] + rest
  }

  /** The product of the factors that have collapsed to a scalar. */
  function Constant(fs: seq<Factor>): real
    requires AllValid(fs)
  {
    if fs == [] then 1.0
    else
      assert fs[0] in fs;
      if fs[0].variables == [] then Times(fs[0].table[0], Constant(fs[1..])) else Constant(fs[1..])
  }

  lemma {:induction false} LiveConstant(fs: seq<Factor>, a: Assignment)
    requires AllValid(fs)
    ensures Product(fs, a) == Times(Product(Live(fs), a), Constant(fs))
  {
    if fs == [] {
      TimesUnit(1.0);
    } else {
      assert fs[0] in fs;
      LiveConstant(fs[1..], a);
      var e, p, c := Eval(fs[0], a), Product(Live(fs[1..]), a), Constant(fs[1..]);
      TimesAssoc(e, p, c);
      if fs[0].variables == [] {
        TimesComm(e, p);
        TimesAssoc(p, e, c);
      } else {
        ProductCons(fs[0], Live(fs[1..]), a);
      }
    }
  }

  lemma {:induction false} TotalLiveConstant(vs: seq<string>, fs: seq<Factor>, a: Assignment)
    requires AllValid(fs)
    ensures Total(vs, fs, a) == Times(Total(vs, Live(fs), a), Constant(fs))
  {
    if vs == [] {
      LiveConstant(fs, a);
    } else {
      TotalLiveConstant(vs[1..], fs, a[vs[0] := false]);
      TotalLiveConstant(vs[1..], fs, a[vs[0] := true]);
      TimesDistribute(Total(vs[1..], Live(fs), a[vs[0] := false]), Total(vs[1..], Live(fs), a[vs[0] := true]),
                      Constant(fs));
    }
  }

  lemma {:induction false} LiveConstantNonNegative(fs: seq<Factor>)
    requires AllValid(fs) && AllNonNegative(fs)
    ensures AllNonNegative(Live(fs)) && Constant(fs) >= 0.0
  {
    if fs != [] {
      assert fs[0] in fs;
      LiveConstantNonNegative(fs[1..]);
      if fs[0].variables == [] {
        TimesNonNegative(fs[0].table[0], Constant(fs[1..]));
      }
    }
  }

  // ----- eliminating a whole order -----

  /** The factors left after the elimination loop has run over `order`. */
  ghost function EliminateAll(fs: seq<Factor>, order: seq<string>): (r: seq<Factor>)
    requires AllValid(fs) && NoDup(order) && Elems(order) <= Scope(fs)
    ensures AllValid(r)
    ensures Scope(r) == Scope(fs) - Elems(order)
    decreases |order|
  {
    if order == [] then fs
    else
      HeadElems(order);
      EliminateAll(Eliminate(fs, order[0]), order[1..])
  }

  lemma HeadElems(order: seq<string>)
    requires order != []
    ensures Elems(order) == {order[0]} + Elems(order[1..])
    ensures NoDup(order) ==> NoDup(order[1..]) && order[0] !in Elems(order[1..])
  {
    assert order == [order[0]] + order[1..];
  }

  /** Eliminating any order sums over exactly its variables: the order changes
      the cost, never the answer. */
  lemma {:induction false} EliminateAllSums(fs: seq<Factor>, order: seq<string>, a: Assignment)
    requires AllValid(fs) && NoDup(order) && Elems(order) <= Scope(fs)
    ensures Product(EliminateAll(fs, order), a) == Total(order, fs, a)
    decreases |order|
  {
    if order != [] {
      HeadElems(order);
      var v, rest := order[0], order[1..];
      EliminateAllSums(Eliminate(fs, v), rest, a);
      forall b: Assignment
        ensures Product(Eliminate(fs, v), b) == Product(fs, b[v := false]) + Product(fs, b[v := true])
      {
        EliminateSums(fs, v, b);
      }
      TotalEliminate(rest, v, fs, Eliminate(fs, v), a);
      TotalRotate(v, rest, fs, a);
      assert [v] + rest == order;
    }
  }

  // ----- the brute-force reference -----

  /** Every variable that is neither observed nor asked for. */
  function Hidden(fs: seq<Factor>, variable: string, evidence: Assignment): (vs: seq<string>)
    requires AllValid(fs)
    ensures NoDup(vs)
    ensures Elems(vs) == Scope(fs) - evidence.Keys - {variable}
  {
    var vs := Except(Unobserved(FirstSeen(fs), evidence), variable);
    assert Elems(vs) == Elems(FirstSeen(fs)) - evidence.Keys - {variable};
    vs
  }

  /** The total weight of the assignments that agree with the evidence and
      give `variable` the state `b`.  Evidence on `variable` itself is
      ignored, as infer.py:188 drops it. */
  function Weight(fs: seq<Factor>, variable: string, evidence: Assignment, b: bool): real
    requires AllValid(fs)
  {
    var given := evidence - {variable};
    Total(Hidden(fs, variable, given), fs, given[variable := b])
  }

  /** The weight does not depend on how the hidden variables are listed. */
  lemma WeightAnyOrder(fs: seq<Factor>, variable: string, evidence: Assignment, b: bool, vs: seq<string>)
    requires AllValid(fs) && NoDup(vs)
    requires Elems(vs) == Scope(fs) - (evidence.Keys - {variable}) - {variable}
    ensures Total(vs, fs, (evidence - {variable})[variable := b]) == Weight(fs, variable, evidence, b)
  {
    var given := evidence - {variable};
    assert given.Keys == evidence.Keys - {variable};
    TotalPermutation(vs, Hidden(fs, variable, given), fs, given[variable := b]);
  }

  /** What the loops of `Ask` compute, against the reference. */
  lemma EliminatedWeight(fs: seq<Factor>, variable: string, evidence: Assignment, order: seq<string>, b: bool)
    requires AllValid(fs) && NoDup(order)
    requires Elems(order) == Scope(Live(ReduceAll(fs, evidence - {variable}))) - {variable}
    ensures Weight(fs, variable, evidence, b)
         == Times(Product(EliminateAll(Live(ReduceAll(fs, evidence - {variable})), order), map[variable := b]),
                  Constant(ReduceAll(fs, evidence - {variable})))
  {
    var given := evidence - {variable};
    var reduced := ReduceAll(fs, given);
    var a := map[variable := b];
    EliminateAllSums(Live(reduced), order, a);
    TotalLiveConstant(order, reduced, a);
    TotalReduce(order, fs, given, a);
    assert a + given == given[variable := b];
    assert given.Keys == evidence.Keys - {variable};
    WeightAnyOrder(fs, variable, evidence, b, order);
  }

  // ----- the query -----

  datatype Outcome =
    | Posterior(pFalse: real, pTrue: real)
    | ZeroProbability  // the ValueError of infer.py:205 and 227
    | NotInModel       // no table axis for the variable: infer.py fails with an index error

  /** The brute-force answer. */
  ghost predicate Exact(r: Outcome, fs: seq<Factor>, variable: string, evidence: Assignment)
    requires AllValid(fs)
  {
    ExactFor(r, variable in Scope(fs), AllNonNegative(fs), Weight(fs, variable, evidence, false),
             Weight(fs, variable, evidence, true))
  }

  /** The answer for the weights `off` and `on` of the two states: the
      normalised pair, an error exactly when a non-negative model gives the
      evidence no weight, and no answer for a variable outside the model. */
  ghost predicate ExactFor(r: Outcome, known: bool, nonNegative: bool, off: real, on: real) {
    match r
    case Posterior(pFalse, pTrue) =>
      known && off + on != 0.0 && pFalse == off / (off + on) && pTrue == on / (off + on)
    case ZeroProbability => nonNegative ==> off + on == 0.0
    case NotInModel => !known && (nonNegative ==> off + on != 0.0)
  }

  lemma Ratio(x: real, y: real, c: real)
    requires c != 0.0 && x + y != 0.0
    ensures Times(x, c) + Times(y, c) != 0.0
    ensures Times(x, c) / (Times(x, c) + Times(y, c)) == x / (x + y)
  {
    var s, q := x + y, x / (x + y);
    TimesDistribute(x, y, c);
    assert Times(s, c) != 0.0;
    assert q * s == x;
    assert q * Times(s, c) == Times(x, c) by {
      assert q * (s * c) == (q * s) * c;
    }
  }

  lemma ZeroIff(x: real, y: real, c: real)
    requires x >= 0.0 && y >= 0.0 && c >= 0.0
    ensures Times(x, c) + Times(y, c) == 0.0 <==> c == 0.0 || x + y <= 0.0
  {
    TimesDistribute(x, y, c);
    assert Times(x + y, c) == (x + y) * c;
  }

  /** The split of infer.py:197-203. */
  method SplitConstant(fs: seq<Factor>) returns (constant: real, working: seq<Factor>)
    requires AllValid(fs)
    ensures constant == Constant(fs) && working == Live(fs)
  {
    constant, working := 1.0, [];
    var rest := fs;
    TimesUnit(Constant(fs));
    while rest != []
      invariant AllValid(rest)
      invariant working + Live(rest) == Live(fs)
      invariant Times(constant, Constant(rest)) == Constant(fs)
      decreases |rest|
    {
      assert rest[0] in rest;
      if rest[0].variables != [] {
        Associate(working, [rest[0]], Live(rest[1..]));
        working := working + [rest[0]];
      } else {
        TimesAssoc(constant, rest[0].table[0], Constant(rest[1..]));
        constant := Times(constant, rest[0].table[0]);
      }
      rest := rest[1..];
    }
    TimesUnit(constant);
  }

  /** The product loops of infer.py:215-217 and 220-222. */
  method MultiplyLoop(fs: seq<Factor>) returns (product: Factor)
    requires fs != [] && AllValid(fs)
    ensures product == MultiplyAll(fs)
  {
    assert fs[0] in fs;
    product := fs[0];
    var rest := fs[1..];
    while rest != []
      invariant product.Valid() && AllValid(rest)
      invariant Fold(product, rest) == MultiplyAll(fs)
      decreases |rest|
    {
      assert rest[0] in rest;
      product := Multiply(product, rest[0]);
      rest := rest[1..];
    }
  }

  /** The elimination loop of infer.py:210-218. */
  method EliminateLoop(fs: seq<Factor>, order: seq<string>) returns (working: seq<Factor>)
    requires AllValid(fs) && NoDup(order) && Elems(order) <= Scope(fs)
    ensures working == EliminateAll(fs, order)
  {
    working := fs;
    var rest := order;
    while rest != []
      invariant AllValid(working) && NoDup(rest) && Elems(rest) <= Scope(working)
      invariant EliminateAll(working, rest) == EliminateAll(fs, order)
      decreases |rest|
    {
      HeadElems(rest);
      var product := MultiplyLoop(Involved(working, rest[0]));
      assert rest[0] in Elems(product.variables);
      ghost var next := Eliminate(working, rest[0]);
      working := Untouched(working, rest[0]) + [SumOut(product, rest[0])];
      assert working == next;
      rest := rest[1..];
    }
  }

  /** The normalisation of infer.py:220-232: what is left mentions at most the
      asked variable. */
  method Normalise(working: seq<Factor>, variable: string) returns (r: Outcome)
    requires AllValid(working) && Scope(working) <= {variable}
    ensures Normalised(r, variable in Scope(working), Product(working, map[variable := false]),
                       Product(working, map[variable := true]))
  {
    if working == [] {
      return NotInModel;
    }
    var result := MultiplyLoop(working);
    EvalMultiplyAll(working, map[variable := false]);
    EvalMultiplyAll(working, map[variable := true]);
    ResultShape(result, variable);
    if result.variables == [] {
      assert variable !in Elems(result.variables);
      r := if result.table[0] <= 0.0 then ZeroProbability else NotInModel;
    } else {
      assert variable in Elems(result.variables);
      var total := result.table[0] + result.table[1];
      r := if total <= 0.0 then ZeroProbability else Posterior(result.table[0] / total, result.table[1] / total);
    }
  }

  /** The answer for a table with entries `x` and `y`; `known` says that the
      table has an axis for the variable. */
  ghost predicate Normalised(r: Outcome, known: bool, x: real, y: real) {
    match r
    case Posterior(pFalse, pTrue) => known && x + y > 0.0 && pFalse == x / (x + y) && pTrue == y / (x + y)
    case ZeroProbability => x + y <= 0.0
    case NotInModel => !known && x + y > 0.0
  }

  /** `query`: P(variable | evidence), exactly. */
  method Ask(factors: seq<Factor>, variable: string, evidence: Assignment) returns (r: Outcome)
    requires AllValid(factors)
    ensures Exact(r, factors, variable, evidence)
  {
    var given := evidence - {variable};
    assert variable !in given.Keys;
    var reduced := ReduceAll(factors, given);
    var constant, working := SplitConstant(reduced);
    var order := EliminationOrder(working, variable);
    ZeroSound(factors, variable, evidence, order);
    if constant == 0.0 {
      return ZeroProbability;
    }
    working := EliminateLoop(working, order);
    r := Normalise(working, variable);
    ExactFromNormalised(r, factors, variable, evidence, order);
  }

  lemma ExactFromNormalised(r: Outcome, fs: seq<Factor>, variable: string, evidence: Assignment, order: seq<string>)
    requires AllValid(fs) && NoDup(order)
    requires Elems(order) == Scope(Live(ReduceAll(fs, evidence - {variable}))) - {variable}
    requires Constant(ReduceAll(fs, evidence - {variable})) != 0.0
    requires var final := EliminateAll(Live(ReduceAll(fs, evidence - {variable})), order);
             Normalised(r, variable in Scope(fs), Product(final, map[variable := false]),
                        Product(final, map[variable := true]))
    ensures Exact(r, fs, variable, evidence)
  {
    var reduced := ReduceAll(fs, evidence - {variable});
    var final := EliminateAll(Live(reduced), order);
    EliminatedWeight(fs, variable, evidence, order, false);
    EliminatedWeight(fs, variable, evidence, order, true);
    ZeroSound(fs, variable, evidence, order);
    Rescale(r, variable in Scope(fs), AllNonNegative(fs), Product(final, map[variable := false]),
            Product(final, map[variable := true]), Constant(reduced), Weight(fs, variable, evidence, false),
            Weight(fs, variable, evidence, true));
  }

  /** The dropped constant cancels in the normalisation. */
  lemma Rescale(r: Outcome, known: bool, nonNegative: bool, x: real, y: real, c: real, off: real, on: real)
    requires c != 0.0 && off == Times(x, c) && on == Times(y, c)
    requires nonNegative ==> (off + on == 0.0 <==> c == 0.0 || x + y <= 0.0)
    requires Normalised(r, known, x, y)
    ensures ExactFor(r, known, nonNegative, off, on)
  {
    if r.Posterior? {
      Ratio(x, y, c);
      Ratio(y, x, c);
    }
  }

  /** The guards of `Ask` fire exactly on evidence of weight zero. */
  lemma ZeroSound(fs: seq<Factor>, variable: string, evidence: Assignment, order: seq<string>)
    requires AllValid(fs) && NoDup(order)
    requires Elems(order) == Scope(Live(ReduceAll(fs, evidence - {variable}))) - {variable}
    ensures AllNonNegative(fs) ==>
              var given := evidence - {variable};
              var final := EliminateAll(Live(ReduceAll(fs, given)), order);
              var x, y := Product(final, map[variable := false]), Product(final, map[variable := true]);
              Weight(fs, variable, evidence, false) + Weight(fs, variable, evidence, true) == 0.0
              <==> Constant(ReduceAll(fs, given)) == 0.0 || x + y <= 0.0
  {
    if AllNonNegative(fs) {
      var given := evidence - {variable};
      var reduced := ReduceAll(fs, given);
      ReduceAllNonNegative(fs, given);
      LiveConstantNonNegative(reduced);
      EliminatedWeight(fs, variable, evidence, order, false);
      EliminatedWeight(fs, variable, evidence, order, true);
      EliminateAllSums(Live(reduced), order, map[variable := false]);
      EliminateAllSums(Live(reduced), order, map[variable := true]);
      TotalNonNegative(order, Live(reduced), map[variable := false]);
      TotalNonNegative(order, Live(reduced), map[variable := true]);
      ZeroIff(Total(order, Live(reduced), map[variable := false]), Total(order, Live(reduced), map[variable := true]),
              Constant(reduced));
    }
  }

  /** Only the asked variable is left, so the table has one entry per state. */
  lemma ResultShape(f: Factor, variable: string)
    requires f.Valid() && Elems(f.variables) <= {variable}
    ensures f.variables == [] || f.variables == [variable]
    ensures |f.table| == Pow2(|f.variables|) >= 1
    ensures Eval(f, map[variable := false]) == f.table[0]
    ensures f.variables == [] ==> Eval(f, map[variable := true]) == f.table[0]
    ensures f.variables == [variable] ==> |f.table| == 2 && Eval(f, map[variable := true]) == f.table[1]
  {
    ElemsCount(f.variables);
    assert |f.variables| <= |{variable}| by { SubsetCount(Elems(f.variables), {variable}); }
    if |f.variables| == 1 {
      assert f.variables[0] in Elems(f.variables);
      assert f.variables == [variable];
      assert Pow2(1) == 2 * Pow2(0);
      assert Bits([variable], map[variable := true]) == [true];
      assert Bits([variable], map[variable := false]) == [false];
    }
  }
}
