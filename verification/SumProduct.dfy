/** The sum-product semantics of a factor list: what exact inference means.

`Product` is the weight of one assignment and `Total` sums it over every
state of a list of variables.  Nothing here mentions elimination: these
definitions are the reference that sidecar/belief/infer.py is measured
against. */
module SumProduct {
  import opened Factors

  /** The product of all factors at one assignment. */
  function Product(fs: seq<Factor>, a: Assignment): real
    requires AllValid(fs)
  {
    if fs == [] then 1.0 else Times(Eval(fs[0], a), Product(fs[1..], a))
  }

  /** The sum of `Product` over all states of `vs`; other variables as in `a`. */
  function Total(vs: seq<string>, fs: seq<Factor>, a: Assignment): real
    requires AllValid(fs)
  {
    if vs == [] then Product(fs, a)
    else Total(vs[1..], fs, a[vs[0] := false]) + Total(vs[1..], fs, a[vs[0] := true])
  }

  /** The variables that some factor of the list mentions. */
  function Scope(fs: seq<Factor>): set<string> {
    if fs == [] then {} else Elems(fs[0].variables) + Scope(fs[1..])
  }

  lemma {:induction false} ScopeConcat(fs: seq<Factor>, gs: seq<Factor>)
    ensures Scope(fs + gs) == Scope(fs) + Scope(gs)
  {
    if fs == [] {
      assert fs + gs == gs;
    } else {
      ScopeConcat(fs[1..], gs);
      assert (fs + gs)[1..] == fs[1..] + gs;
    }
  }

  lemma ScopeSnoc(fs: seq<Factor>, f: Factor)
    ensures Scope(fs + [f]) == Scope(fs) + Elems(f.variables)
  {
    ScopeConcat(fs, [f]);
  }

  // ----- products -----

  lemma {:induction false} ProductConcat(fs: seq<Factor>, gs: seq<Factor>, a: Assignment)
    requires AllValid(fs) && AllValid(gs)
    ensures Product(fs + gs, a) == Times(Product(fs, a), Product(gs, a))
  {
    if fs == [] {
      assert fs + gs == gs;
      TimesUnit(Product(gs, a));
    } else {
      ProductConcat(fs[1..], gs, a);
      assert (fs + gs)[1..] == fs[1..] + gs;
      TimesAssoc(Eval(fs[0], a), Product(fs[1..], a), Product(gs, a));
    }
  }

  lemma ProductCons(f: Factor, fs: seq<Factor>, a: Assignment)
    requires AllValid(fs) && f.Valid()
    ensures Product([f] + fs, a) == Times(Eval(f, a), Product(fs, a))
  {
    assert ([f] + fs)[1..] == fs;
  }

  lemma ProductSnoc(fs: seq<Factor>, f: Factor, a: Assignment)
    requires AllValid(fs) && f.Valid()
    ensures Product(fs + [f], a) == Times(Product(fs, a), Eval(f, a))
  {
    ProductConcat(fs, [f], a);
    TimesUnit(Eval(f, a));
  }

  lemma {:induction false} ProductFrame(fs: seq<Factor>, a: Assignment, v: string, b: bool)
    requires AllValid(fs) && v !in Scope(fs)
    ensures Product(fs, a[v := b]) == Product(fs, a)
  {
    if fs != [] {
      assert fs[0] in fs && v !in Elems(fs[0].variables);
      EvalFrame(fs[0], a, v, b);
      ProductFrame(fs[1..], a, v, b);
    }
  }

  lemma {:induction false} ProductNonNegative(fs: seq<Factor>, a: Assignment)
    requires AllValid(fs) && AllNonNegative(fs)
    ensures Product(fs, a) >= 0.0
  {
    if fs != [] {
      assert fs[0] in fs;
      ProductNonNegative(fs[1..], a);
      TimesNonNegative(Eval(fs[0], a), Product(fs[1..], a));
    }
  }

  // ----- totals -----

  lemma {:induction false} TotalNonNegative(vs: seq<string>, fs: seq<Factor>, a: Assignment)
    requires AllValid(fs) && AllNonNegative(fs)
    ensures Total(vs, fs, a) >= 0.0
  {
    if vs == [] {
      ProductNonNegative(fs, a);
    } else {
      TotalNonNegative(vs[1..], fs, a[vs[0] := false]);
      TotalNonNegative(vs[1..], fs, a[vs[0] := true]);
    }
  }

  /** Two factor lists with the same product everywhere have the same totals. */
  lemma {:induction false} TotalCongruence(vs: seq<string>, fs: seq<Factor>, gs: seq<Factor>, a: Assignment)
    requires AllValid(fs) && AllValid(gs)
    requires forall b: Assignment :: Product(fs, b) == Product(gs, b)
    ensures Total(vs, fs, a) == Total(vs, gs, a)
  {
    if vs != [] {
      TotalCongruence(vs[1..], fs, gs, a[vs[0] := false]);
      TotalCongruence(vs[1..], fs, gs, a[vs[0] := true]);
    }
  }

  lemma UpdatesCommute(a: Assignment, v: string, w: string)
    requires v != w
    ensures forall b: bool, c: bool {:trigger a[w := b][v := c]} :: a[w := b][v := c] == a[v := c][w := b]
  {
    assert forall b: bool, c: bool {:trigger a[w := b][v := c]} :: a[w := b][v := c] == a[v := c][w := b];
  }

  /** The variable summed outermost can be summed innermost. */
  lemma {:induction false} TotalRotate(v: string, vs: seq<string>, fs: seq<Factor>, a: Assignment)
    requires AllValid(fs) && v !in vs
    ensures Total([v] + vs, fs, a) == Total(vs + [v], fs, a)
    decreases |vs|
  {
    assert ([v] + vs)[1..] == vs;
    if vs == [] {
      assert [v] + vs == vs + [v];
    } else {
      var w := vs[0];
      var rest := vs[1..];
      assert (vs + [v])[1..] == rest + [v];
      assert ([v] + rest)[1..] == rest;
      TotalRotate(v, rest, fs, a[w := false]);
      TotalRotate(v, rest, fs, a[w := true]);
      UpdatesCommute(a, v, w);
    }
  }

  /** Replacing the factors by ones that already sum `v` out sums `v` out. */
  lemma {:induction false} TotalEliminate(vs: seq<string>, v: string, fs: seq<Factor>, gs: seq<Factor>, a: Assignment)
    requires AllValid(fs) && AllValid(gs)
    requires forall b: Assignment ::
               Product(gs, b) == Product(fs, b[v := false]) + Product(fs, b[v := true])
    ensures Total(vs, gs, a) == Total(vs + [v], fs, a)
  {
    if vs == [] {
      assert [] + [v] == [v];
      assert Total([v], fs, a) == Total([], fs, a[v := false]) + Total([], fs, a[v := true]);
    } else {
      assert (vs + [v])[1..] == vs[1..] + [v];
      TotalEliminate(vs[1..], v, fs, gs, a[vs[0] := false]);
      TotalEliminate(vs[1..], v, fs, gs, a[vs[0] := true]);
    }
  }

  /** Factors that mention no summed variable come out of the sum. */
  lemma {:induction false} TotalFactorOut(vs: seq<string>, fs: seq<Factor>, gs: seq<Factor>, a: Assignment)
    requires AllValid(fs) && AllValid(gs)
    requires Elems(vs) !! Scope(gs)
    ensures Total(vs, fs + gs, a) == Times(Total(vs, fs, a), Product(gs, a))
  {
    if vs == [] {
      ProductConcat(fs, gs, a);
    } else {
      assert vs[0] in Elems(vs) && Elems(vs[1..]) <= Elems(vs);
      TotalFactorOut(vs[1..], fs, gs, a[vs[0] := false]);
      TotalFactorOut(vs[1..], fs, gs, a[vs[0] := true]);
      ProductFrame(gs, a, vs[0], false);
      ProductFrame(gs, a, vs[0], true);
      TimesDistribute(Total(vs[1..], fs, a[vs[0] := false]), Total(vs[1..], fs, a[vs[0] := true]), Product(gs, a));
    }
  }

  lemma {:induction false} TotalFactorOutLeft(vs: seq<string>, gs: seq<Factor>, fs: seq<Factor>, a: Assignment)
    requires AllValid(fs) && AllValid(gs)
    requires Elems(vs) !! Scope(gs)
    ensures Total(vs, gs + fs, a) == Times(Product(gs, a), Total(vs, fs, a))
  {
    if vs == [] {
      ProductConcat(gs, fs, a);
    } else {
      assert vs[0] in Elems(vs) && Elems(vs[1..]) <= Elems(vs);
      TotalFactorOutLeft(vs[1..], gs, fs, a[vs[0] := false]);
      TotalFactorOutLeft(vs[1..], gs, fs, a[vs[0] := true]);
      ProductFrame(gs, a, vs[0], false);
      ProductFrame(gs, a, vs[0], true);
      TimesDistribute(Total(vs[1..], fs, a[vs[0] := false]), Total(vs[1..], fs, a[vs[0] := true]), Product(gs, a));
    }
  }

  lemma {:induction false} TotalFrame(vs: seq<string>, fs: seq<Factor>, a: Assignment, u: string, b: bool)
    requires AllValid(fs) && u !in Scope(fs)
    ensures Total(vs, fs, a[u := b]) == Total(vs, fs, a)
  {
    if vs == [] {
      ProductFrame(fs, a, u, b);
    } else {
      TotalFrame(vs[1..], fs, a[vs[0] := false], u, b);
      TotalFrame(vs[1..], fs, a[vs[0] := true], u, b);
      if vs[0] == u {
        assert a[u := b][u := false] == a[u := false] && a[u := b][u := true] == a[u := true];
      } else {
        assert a[u := b][vs[0] := false] == a[vs[0] := false][u := b];
        assert a[u := b][vs[0] := true] == a[vs[0] := true][u := b];
      }
    }
  }

  /** Factor lists that share no summed variable are summed separately. */
  lemma {:induction false} TotalIndependent(us: seq<string>, gs: seq<Factor>, vs: seq<string>, fs: seq<Factor>,
                                            a: Assignment)
    requires AllValid(gs) && AllValid(fs)
    requires Elems(us) !! Scope(fs) && Elems(vs) !! Scope(gs)
    ensures Total(us + vs, gs + fs, a) == Times(Total(us, gs, a), Total(vs, fs, a))
    decreases |us|
  {
    if us == [] {
      assert us + vs == vs;
      TotalFactorOutLeft(vs, gs, fs, a);
    } else {
      assert us[0] in Elems(us) && Elems(us[1..]) <= Elems(us);
      assert (us + vs)[1..] == us[1..] + vs;
      TotalIndependent(us[1..], gs, vs, fs, a[us[0] := false]);
      TotalIndependent(us[1..], gs, vs, fs, a[us[0] := true]);
      TotalFrame(vs, fs, a, us[0], false);
      TotalFrame(vs, fs, a, us[0], true);
      TimesDistribute(Total(us[1..], gs, a[us[0] := false]), Total(us[1..], gs, a[us[0] := true]), Total(vs, fs, a));
    }
  }

  lemma {:induction false} TotalToFront(vs: seq<string>, i: nat, fs: seq<Factor>, a: Assignment)
    requires AllValid(fs) && NoDup(vs) && i < |vs|
    ensures Total(vs, fs, a) == Total([vs[i]] + vs[..i] + vs[i + 1..], fs, a)
    decreases |vs|
  {
    if i == 0 {
      assert vs == [vs[i]] + vs[..i] + vs[i + 1..];
    } else {
      var w, v, rest := vs[0], vs[i], vs[1..];
      var front := [v] + vs[..i] + vs[i + 1..];
      var tail := rest[..i - 1] + rest[i..];
      assert front == [v] + ([w] + tail);
      assert front[1..] == [w] + tail && ([w] + tail)[1..] == tail;
      assert [v] + rest[..i - 1] + rest[i..] == [v] + tail && ([v] + tail)[1..] == tail;
      TotalToFront(rest, i - 1, fs, a[w := false]);
      TotalToFront(rest, i - 1, fs, a[w := true]);
      UpdatesCommute(a, v, w);
    }
  }

  lemma DropFrontElems(us: seq<string>, vs: seq<string>, i: nat)
    requires us != [] && i < |vs| && us[0] == vs[i]
    requires NoDup(us) && NoDup(vs) && Elems(us) == Elems(vs)
    ensures NoDup(vs[..i] + vs[i + 1..])
    ensures Elems(us[1..]) == Elems(vs[..i] + vs[i + 1..])
  {
    var rest := vs[..i] + vs[i + 1..];
    forall x ensures x in us[1..] <==> x in rest {
      assert us == [us[0]] + us[1..];
      assert vs == vs[..i] + [vs[i]] + vs[i + 1..];
      assert x in us <==> x in Elems(us);
      assert x in vs <==> x in Elems(vs);
    }
  }

  /** The order of summation is irrelevant. */
  lemma {:induction false} TotalPermutation(us: seq<string>, vs: seq<string>, fs: seq<Factor>, a: Assignment)
    requires AllValid(fs) && NoDup(us) && NoDup(vs)
    requires Elems(us) == Elems(vs)
    ensures Total(us, fs, a) == Total(vs, fs, a)
    decreases |us|
  {
    if us == [] {
      assert forall i :: 0 <= i < |vs| ==> vs[i] in Elems(vs);
    } else {
      var u := us[0];
      assert u in Elems(us);
      var i := IndexOf(vs, u);
      var rest := vs[..i] + vs[i + 1..];
      DropFrontElems(us, vs, i);
      TotalPermutation(us[1..], rest, fs, a[u := false]);
      TotalPermutation(us[1..], rest, fs, a[u := true]);
      TotalToFront(vs, i, fs, a);
      assert [vs[i]] + vs[..i] + vs[i + 1..] == [u] + rest && ([u] + rest)[1..] == rest;
    }
  }
}
