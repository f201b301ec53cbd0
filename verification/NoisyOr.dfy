/** The O(n) noisy-OR decomposition (sidecar/belief/noisy_or.py).

`Build` makes the leak, mechanism and OR-gate factors in the loops of the
source.  `Exact` proves that summing the auxiliary variables out of them gives
the noisy-OR closed form, for every number of causes. */
module NoisyOr {
  import opened Factors
  import opened SumProduct
  import opened Names

  datatype Cause = Cause(parent: string, strength: real)

  datatype Built = Ok(factors: seq<Factor>) | OutOfRange

  // ----- the closed form -----

  /** P(variable = false | parents): the leak and every cause whose parent is
      true must all fail. */
  function Off(causes: seq<Cause>, leak: real, a: Assignment): real {
    if causes == [] then 1.0 - leak
    else
      var last := causes[|causes| - 1];
      Times(Off(causes[..|causes| - 1], leak, a), if Val(a, last.parent) then 1.0 - last.strength else 1.0)
  }

  /** The noisy-OR conditional probability of the state of `variable` in `a`. */
  function ClosedForm(variable: string, causes: seq<Cause>, leak: real, a: Assignment): real {
    Branch(Val(a, variable), Off(causes, leak, a))
  }

  function Branch(on: bool, off: real): real {
    if on then 1.0 - off else off
  }

  // ----- the factors -----

  function Prior(name: string, leak: real): (f: Factor)
    ensures f.Valid()
    ensures Elems(f.variables) == {name}
  {
    assert Pow2(1) == 2;
    Factor([name], [1.0 - leak, leak])
  }

  const OR_TABLE: seq<real> := [1.0, 0.0, 0.0, 0.0, 0.0, 1.0, 1.0, 1.0]

  function MechanismFactor(z: string, c: Cause): (f: Factor)
    ensures z != c.parent ==> f.Valid()
    ensures Elems(f.variables) == {z, c.parent}
  {
    assert Pow2(2) == 4;
    Factor([z, c.parent], [1.0, 1.0 - c.strength, 0.0, c.strength])
  }

  function GateFactor(out: string, acc: string, z: string): (f: Factor)
    ensures out != acc && acc != z && out != z ==> f.Valid()
    ensures Elems(f.variables) == {out, acc, z}
  {
    assert Pow2(3) == 8;
    Factor([out, acc, z], OR_TABLE)
  }

  lemma EvalPrior(name: string, leak: real, a: Assignment)
    ensures Eval(Prior(name, leak), a) == Branch(Val(a, name), 1.0 - leak)
  {
    assert Bits([name], a) == [Val(a, name)];
    assert Ravel([true]) == 1 && Ravel([false]) == 0;
  }

  lemma PriorTotal(name: string, leak: real, a: Assignment)
    ensures Scope([Prior(name, leak)]) == {name}
    ensures Total([], [Prior(name, leak)], a) == Branch(Val(a, name), 1.0 - leak)
  {
    var f := Prior(name, leak);
    EvalPrior(name, leak, a);
    ProductCons(f, [], a);
    assert [f] + [] == [f];
    TimesUnit(Eval(f, a));
    ScopeSnoc([], f);
    assert [] + [f] == [f];
  }

  lemma RavelPair(x: bool, y: bool)
    ensures Ravel([x, y]) == (if x then 2 else 0) + (if y then 1 else 0)
  {
    assert [x, y][1..] == [y] && [y][1..] == [];
    assert Pow2(1) == 2 && Pow2(0) == 1;
  }

  lemma RavelTriple(x: bool, y: bool, w: bool)
    ensures Ravel([x, y, w]) == (if x then 4 else 0) + (if y then 2 else 0) + (if w then 1 else 0)
  {
    RavelPair(y, w);
    assert [x, y, w][1..] == [y, w];
    assert Pow2(2) == 4;
  }

  /** A mechanism fires only when its cause is true. */
  function Fires(z: bool, parent: bool, strength: real): real {
    Branch(z, if parent then 1.0 - strength else 1.0)
  }

  lemma EvalMechanism(z: string, c: Cause, a: Assignment)
    requires z != c.parent
    ensures Eval(MechanismFactor(z, c), a) == Fires(Val(a, z), Val(a, c.parent), c.strength)
  {
    assert Bits([z, c.parent], a) == [Val(a, z), Val(a, c.parent)];
    RavelPair(Val(a, z), Val(a, c.parent));
  }

  lemma EvalGate(out: string, acc: string, z: string, a: Assignment)
    requires out != acc && acc != z && out != z
    ensures Eval(GateFactor(out, acc, z), a) == if Val(a, out) == (Val(a, acc) || Val(a, z)) then 1.0 else 0.0
  {
    assert Bits([out, acc, z], a) == [Val(a, out), Val(a, acc), Val(a, z)];
    RavelTriple(Val(a, out), Val(a, acc), Val(a, z));
  }

  // ----- the factor list of the source -----

  /** The names of a chain: mechanism `i` is `zs[i]`, and `accs[i]` is the
      accumulator that feeds gate `i` (the leak for gate 0). */
  datatype Chain = Chain(zs: seq<string>, accs: seq<string>, causes: seq<Cause>, leak: real) {

    /** The names are distinct, and no parent is one of them. */
    ghost predicate Valid() {
      && |zs| == |accs| == |causes|
      && NoDup(zs) && NoDup(accs)
      && (forall i, j :: 0 <= i < |zs| && 0 <= j < |accs| ==> zs[i] != accs[j])
      && (forall c :: c in causes ==> c.parent !in zs && c.parent !in accs)
    }

    /** `out` can be written by gate `n - 1`: it is not a name of the first
        `n` links, and no parent of those links. */
    ghost predicate Output(n: nat, out: string)
      requires n <= |zs| == |accs|
    {
      forall i :: 0 <= i < n ==> out != zs[i] && out != accs[i]
    }

    function Mechanisms(n: nat): seq<Factor>
      requires n <= |zs| == |causes|
    {
      if n == 0 then [] else Mechanisms(n - 1) + [MechanismFactor(zs[n - 1], causes[n - 1])]
    }

    /** The first `n` gates, the last one writing `out`. */
    function Gates(n: nat, out: string): seq<Factor>
      requires n <= |zs| == |accs|
    {
      if n == 0 then [] else Gates(n - 1, accs[n - 1]) + [GateFactor(out, accs[n - 1], zs[n - 1])]
    }

    /** The same factors link by link. */
    function Links(n: nat, out: string): seq<Factor>
      requires n <= |zs| == |accs| == |causes|
    {
      if n == 0 then [Prior(out, leak)]
      else Links(n - 1, accs[n - 1]) + Link(n - 1, out)
    }

    function Link(i: nat, out: string): seq<Factor>
      requires i < |zs| == |accs| == |causes|
    {
      [MechanismFactor(zs[i], causes[i]), GateFactor(out, accs[i], zs[i])]
    }

    function Parents(n: nat): set<string>
      requires n <= |causes|
    {
      if n == 0 then {} else Parents(n - 1) + {causes[n - 1].parent}
    }

    /** The auxiliary variables of the first `n` links, last link first. */
    function Aux(n: nat): seq<string>
      requires n <= |zs| == |accs|
    {
      if n == 0 then [] else [zs[n - 1], accs[n - 1]] + Aux(n - 1)
    }
  }

  lemma {:induction false} AuxElems(ch: Chain, n: nat, name: string)
    requires ch.Valid() && n <= |ch.zs|
    ensures name in ch.Aux(n) <==> exists i :: 0 <= i < n && (name == ch.zs[i] || name == ch.accs[i])
  {
    if n > 0 {
      AuxElems(ch, n - 1, name);
    }
  }

  lemma {:induction false} AuxNoDup(ch: Chain, n: nat)
    requires ch.Valid() && n <= |ch.zs|
    ensures NoDup(ch.Aux(n))
  {
    if n > 0 {
      AuxNoDup(ch, n - 1);
      AuxElems(ch, n - 1, ch.zs[n - 1]);
      AuxElems(ch, n - 1, ch.accs[n - 1]);
    }
  }

  lemma LinkValid(ch: Chain, i: nat, out: string)
    requires ch.Valid() && i < |ch.zs| && ch.Output(i + 1, out)
    ensures AllValid(ch.Link(i, out))
  {
    assert ch.causes[i] in ch.causes;
  }

  lemma LinkScope(ch: Chain, i: nat, out: string)
    requires i < |ch.zs| == |ch.accs| == |ch.causes|
    ensures Scope(ch.Link(i, out)) == {ch.zs[i], ch.causes[i].parent, out, ch.accs[i]}
  {
    var m, g := MechanismFactor(ch.zs[i], ch.causes[i]), GateFactor(out, ch.accs[i], ch.zs[i]);
    ScopeSnoc([m], g);
    assert [m] + [g] == ch.Link(i, out);
    assert Scope([m]) == Elems(m.variables) + Scope([]);
  }

  lemma {:induction false} LinksValid(ch: Chain, n: nat, out: string)
    requires ch.Valid() && n <= |ch.zs| && ch.Output(n, out)
    ensures AllValid(ch.Links(n, out))
  {
    if n > 0 {
      LinksValid(ch, n - 1, ch.accs[n - 1]);
      LinkValid(ch, n - 1, out);
    }
  }

  lemma AuxStep(ch: Chain, n: nat)
    requires 0 < n <= |ch.zs| == |ch.accs|
    ensures Elems(ch.Aux(n)) == {ch.zs[n - 1], ch.accs[n - 1]} + Elems(ch.Aux(n - 1))
  {
  }

  lemma {:induction false} LinksScope(ch: Chain, n: nat, out: string)
    requires n <= |ch.zs| == |ch.accs| == |ch.causes|
    ensures Scope(ch.Links(n, out)) == {out} + Elems(ch.Aux(n)) + ch.Parents(n)
  {
    if n == 0 {
      PriorTotal(out, ch.leak, map[]);
    } else {
      var acc, z, parent := ch.accs[n - 1], ch.zs[n - 1], ch.causes[n - 1].parent;
      var aux, parents := Elems(ch.Aux(n - 1)), ch.Parents(n - 1);
      assert Scope(ch.Links(n, out)) == ({acc} + aux + parents) + {z, parent, out, acc} by {
        LinksScope(ch, n - 1, acc);
        LinkScope(ch, n - 1, out);
        ScopeConcat(ch.Links(n - 1, acc), ch.Link(n - 1, out));
      }
      assert Elems(ch.Aux(n)) == {z, acc} + aux by { AuxStep(ch, n); }
      ScopeShuffle(out, acc, z, parent, aux, parents);
    }
  }

  lemma ScopeShuffle(out: string, acc: string, z: string, parent: string, aux: set<string>, parents: set<string>)
    ensures ({acc} + aux + parents) + {z, parent, out, acc} == {out} + ({z, acc} + aux) + (parents + {parent})
  {
  }

  lemma AuxAvoidsLink(ch: Chain, n: nat, out: string)
    requires ch.Valid() && n < |ch.zs| && ch.Output(n + 1, out)
    ensures Elems(ch.Aux(n)) !! Scope(ch.Link(n, out))
  {
    LinkScope(ch, n, out);
    assert ch.causes[n] in ch.causes;
    AuxElems(ch, n, ch.zs[n]);
    AuxElems(ch, n, ch.accs[n]);
    AuxElems(ch, n, out);
    AuxElems(ch, n, ch.causes[n].parent);
  }

  // ----- summing one link -----

  lemma {:induction false} OffFrame(causes: seq<Cause>, leak: real, a: Assignment, v: string, b: bool)
    requires forall c :: c in causes ==> c.parent != v
    ensures Off(causes, leak, a[v := b]) == Off(causes, leak, a)
  {
    if causes != [] {
      assert causes[|causes| - 1] in causes;
      OffFrame(causes[..|causes| - 1], leak, a, v, b);
    }
  }

  /** The four states of a mechanism and an accumulator, with the weights
      `p` of "accumulator false" and `m` of "mechanism false", at an OR gate. */
  lemma GateSum(out: bool, p: real, m: real)
    ensures GateTerm(out, false, false, p, m) + GateTerm(out, true, false, p, m)
          + (GateTerm(out, false, true, p, m) + GateTerm(out, true, true, p, m))
         == Branch(out, Times(p, m))
  {
    var q, k := 1.0 - p, 1.0 - m;
    assert q * m + p * k + q * k == 1.0 - p * m;
  }

  function GateTerm(out: bool, acc: bool, z: bool, p: real, m: real): real {
    Times(Branch(acc, p), if out == (acc || z) then Branch(z, m) else 0.0)
  }

  lemma EvalLink(ch: Chain, i: nat, out: string, a: Assignment)
    requires ch.Valid() && i < |ch.zs| && ch.Output(i + 1, out)
    ensures AllValid(ch.Link(i, out))
    ensures Product(ch.Link(i, out), a)
         == if Val(a, out) == (Val(a, ch.accs[i]) || Val(a, ch.zs[i]))
            then Fires(Val(a, ch.zs[i]), Val(a, ch.causes[i].parent), ch.causes[i].strength) else 0.0
  {
    LinkProduct(ch, i, out, a);
    assert ch.causes[i] in ch.causes;
    var m, g := MechanismFactor(ch.zs[i], ch.causes[i]), GateFactor(out, ch.accs[i], ch.zs[i]);
    EvalMechanism(ch.zs[i], ch.causes[i], a);
    EvalGate(out, ch.accs[i], ch.zs[i], a);
    TimesUnit(Eval(m, a));
    TimesZero(Eval(m, a));
  }

  /** One state of the last link, with the earlier links already summed. */
  lemma LinkTerm(ch: Chain, n: nat, out: string, a: Assignment, z: bool, acc: bool)
    requires ch.Valid() && n < |ch.zs| && ch.Output(n + 1, out)
    requires AllValid(ch.Links(n, ch.accs[n])) && AllValid(ch.Links(n + 1, out))
    requires var b := a[ch.zs[n] := z][ch.accs[n] := acc];
             Total(ch.Aux(n), ch.Links(n, ch.accs[n]), b) == ClosedForm(ch.accs[n], ch.causes[..n], ch.leak, b)
    ensures Total(ch.Aux(n), ch.Links(n + 1, out), a[ch.zs[n] := z][ch.accs[n] := acc])
         == GateTerm(Val(a, out), acc, z, Off(ch.causes[..n], ch.leak, a),
                     if Val(a, ch.causes[n].parent) then 1.0 - ch.causes[n].strength else 1.0)
  {
    var b := a[ch.zs[n] := z][ch.accs[n] := acc];
    assert Total(ch.Aux(n), ch.Links(n + 1, out), b)
        == Times(Total(ch.Aux(n), ch.Links(n, ch.accs[n]), b), Product(ch.Link(n, out), b)) by {
      LinkValid(ch, n, out);
      AuxAvoidsLink(ch, n, out);
      TotalFactorOut(ch.Aux(n), ch.Links(n, ch.accs[n]), ch.Link(n, out), b);
    }
    assert Off(ch.causes[..n], ch.leak, b) == Off(ch.causes[..n], ch.leak, a) by {
      OffFrame(ch.causes[..n], ch.leak, a[ch.zs[n] := z], ch.accs[n], acc);
      OffFrame(ch.causes[..n], ch.leak, a, ch.zs[n], z);
    }
    assert ch.causes[n] in ch.causes;
    EvalLink(ch, n, out, b);
  }

  lemma TotalPair(u: string, v: string, vs: seq<string>, fs: seq<Factor>, a: Assignment)
    requires AllValid(fs)
    ensures Total([u, v] + vs, fs, a)
         == Total(vs, fs, a[u := false][v := false]) + Total(vs, fs, a[u := false][v := true])
          + (Total(vs, fs, a[u := true][v := false]) + Total(vs, fs, a[u := true][v := true]))
  {
    assert ([u, v] + vs)[1..] == [v] + vs && ([v] + vs)[1..] == vs;
  }

  /** Summing the links out leaves the closed form at the chain's output. */
  lemma {:induction false} ChainSum(ch: Chain, n: nat, out: string, a: Assignment)
    requires ch.Valid() && n <= |ch.zs| && ch.Output(n, out)
    ensures AllValid(ch.Links(n, out))
    ensures Total(ch.Aux(n), ch.Links(n, out), a) == ClosedForm(out, ch.causes[..n], ch.leak, a)
    decreases n, 0
  {
    LinksValid(ch, n, out);
    if n == 0 {
      PriorTotal(out, ch.leak, a);
    } else {
      ChainStep(ch, n - 1, out, a);
      OffStep(ch.causes, n - 1, ch.leak, a);
    }
  }

  lemma {:induction false} ChainStep(ch: Chain, n: nat, out: string, a: Assignment)
    requires ch.Valid() && n < |ch.zs| && ch.Output(n + 1, out)
    requires AllValid(ch.Links(n + 1, out))
    ensures Total(ch.Aux(n + 1), ch.Links(n + 1, out), a)
         == Branch(Val(a, out), Times(Off(ch.causes[..n], ch.leak, a),
                   if Val(a, ch.causes[n].parent) then 1.0 - ch.causes[n].strength else 1.0))
    decreases n, 2
  {
    LinkStates(ch, n, out, a, false, false);
    LinkStates(ch, n, out, a, false, true);
    LinkStates(ch, n, out, a, true, false);
    LinkStates(ch, n, out, a, true, true);
    TotalPair(ch.zs[n], ch.accs[n], ch.Aux(n), ch.Links(n + 1, out), a);
    GateSum(Val(a, out), Off(ch.causes[..n], ch.leak, a),
            if Val(a, ch.causes[n].parent) then 1.0 - ch.causes[n].strength else 1.0);
  }

  lemma OffStep(causes: seq<Cause>, n: nat, leak: real, a: Assignment)
    requires n < |causes|
    ensures Off(causes[..n + 1], leak, a)
         == Times(Off(causes[..n], leak, a), if Val(a, causes[n].parent) then 1.0 - causes[n].strength else 1.0)
  {
    assert causes[..n + 1][..n] == causes[..n];
  }

  lemma {:induction false} LinkStates(ch: Chain, n: nat, out: string, a: Assignment, z: bool, acc: bool)
    requires ch.Valid() && n < |ch.zs| && ch.Output(n + 1, out)
    requires AllValid(ch.Links(n + 1, out))
    ensures Total(ch.Aux(n), ch.Links(n + 1, out), a[ch.zs[n] := z][ch.accs[n] := acc])
         == GateTerm(Val(a, out), acc, z, Off(ch.causes[..n], ch.leak, a),
                     if Val(a, ch.causes[n].parent) then 1.0 - ch.causes[n].strength else 1.0)
    decreases n, 1
  {
    ChainSum(ch, n, ch.accs[n], a[ch.zs[n] := z][ch.accs[n] := acc]);
    LinkTerm(ch, n, out, a, z, acc);
  }

  // ----- the source's list -----

  lemma {:induction false} ListedValid(ch: Chain, n: nat, out: string)
    requires ch.Valid() && n <= |ch.zs| && ch.Output(n, out)
    ensures AllValid(ch.Mechanisms(n)) && AllValid(ch.Gates(n, out))
  {
    if n > 0 {
      ListedValid(ch, n - 1, ch.accs[n - 1]);
      LinkValid(ch, n - 1, out);
      assert ch.Link(n - 1, out)[0] in ch.Link(n - 1, out) && ch.Link(n - 1, out)[1] in ch.Link(n - 1, out);
    }
  }

  lemma Regroup(l: real, m: real, g: real, x: real, y: real)
    ensures Times(Times(l, Times(m, x)), Times(g, y)) == Times(Times(Times(l, m), g), Times(x, y))
  {
    TimesAssoc(l, m, x);
    TimesAssoc(Times(Times(l, m), x), g, y);
    TimesAssoc(Times(l, m), x, g);
    TimesComm(x, g);
    TimesAssoc(Times(l, m), g, x);
    TimesAssoc(Times(Times(l, m), g), x, y);
  }

  /** Listing all mechanisms and then all gates, as the source does, has the
      product of the links.  `first` is the prior that starts the chain. */
  lemma {:induction false} ListedProduct(ch: Chain, n: nat, out: string, a: Assignment)
    requires ch.Valid() && 0 < n <= |ch.zs| && ch.Output(n, out)
    ensures AllValid(ch.Mechanisms(n)) && AllValid(ch.Gates(n, out)) && AllValid(ch.Links(n, out))
    ensures Times(Times(Eval(Prior(ch.accs[0], ch.leak), a), Product(ch.Mechanisms(n), a)),
                  Product(ch.Gates(n, out), a))
         == Product(ch.Links(n, out), a)
  {
    ListedValid(ch, n, out);
    LinksValid(ch, n, out);
    var k, acc := n - 1, ch.accs[n - 1];
    ListedValid(ch, k, acc);
    LinksValid(ch, k, acc);
    var m, g := MechanismFactor(ch.zs[k], ch.causes[k]), GateFactor(out, acc, ch.zs[k]);
    LinkValid(ch, k, out);
    assert ch.Link(k, out)[0] == m && ch.Link(k, out)[1] == g;
    assert m in ch.Link(k, out) && g in ch.Link(k, out);
    ProductSnoc(ch.Mechanisms(k), m, a);
    ProductSnoc(ch.Gates(k, acc), g, a);
    ProductConcat(ch.Links(k, acc), ch.Link(k, out), a);
    LinkProduct(ch, k, out, a);
    var l := Eval(Prior(ch.accs[0], ch.leak), a);
    Regroup(l, Product(ch.Mechanisms(k), a), Product(ch.Gates(k, acc), a), Eval(m, a), Eval(g, a));
    if k == 0 {
      TimesUnit(l);
      TimesUnit(Times(l, 1.0));
      ProductCons(Prior(acc, ch.leak), [], a);
      assert [Prior(acc, ch.leak)] + [] == ch.Links(0, acc);
    } else {
      ListedProduct(ch, k, acc, a);
    }
  }

  lemma LinkProduct(ch: Chain, i: nat, out: string, a: Assignment)
    requires ch.Valid() && i < |ch.zs| && ch.Output(i + 1, out)
    ensures MechanismFactor(ch.zs[i], ch.causes[i]).Valid() && GateFactor(out, ch.accs[i], ch.zs[i]).Valid()
    ensures AllValid(ch.Link(i, out))
    ensures Product(ch.Link(i, out), a)
         == Times(Eval(MechanismFactor(ch.zs[i], ch.causes[i]), a), Eval(GateFactor(out, ch.accs[i], ch.zs[i]), a))
  {
    LinkValid(ch, i, out);
    var m, g := MechanismFactor(ch.zs[i], ch.causes[i]), GateFactor(out, ch.accs[i], ch.zs[i]);
    assert ch.Link(i, out)[0] == m && ch.Link(i, out)[1] == g;
    assert m in ch.Link(i, out) && g in ch.Link(i, out);
    ProductCons(m, [g], a);
    ProductCons(g, [], a);
    assert [m] + [g] == ch.Link(i, out) && [g] + [] == [g];
    TimesUnit(Eval(g, a));
  }

  // ----- the names of the source -----

  /** Every auxiliary name that a call for `variable` could introduce. */
  ghost predicate IsAuxiliary(variable: string, name: string) {
    exists role :: name == Auxiliary(variable, role)
  }

  ghost predicate Fresh(variable: string, causes: seq<Cause>) {
    forall c :: c in causes ==> !IsAuxiliary(variable, c.parent)
  }

  function Z(variable: string, i: nat): string {
    Auxiliary(variable, Mechanism(i))
  }

  function Acc(variable: string, i: nat): string {
    Auxiliary(variable, if i == 0 then Leak else Gate(i - 1))
  }

  lemma NamesDistinct(variable: string, i: nat, j: nat)
    ensures Z(variable, i) == Z(variable, j) ==> i == j
    ensures Acc(variable, i) == Acc(variable, j) ==> i == j
    ensures Z(variable, i) != Acc(variable, j)
    ensures Z(variable, i) != variable && Acc(variable, j) != variable
    ensures IsAuxiliary(variable, Z(variable, i)) && IsAuxiliary(variable, Acc(variable, i))
  {
    var r, q := if i == 0 then Leak else Gate(i - 1), if j == 0 then Leak else Gate(j - 1);
    if Z(variable, i) == Z(variable, j) {
      AuxiliaryInjective(variable, Mechanism(i), variable, Mechanism(j));
    }
    if Acc(variable, i) == Acc(variable, j) {
      AuxiliaryInjective(variable, r, variable, q);
    }
    if Z(variable, i) == Acc(variable, j) {
      AuxiliaryInjective(variable, Mechanism(i), variable, q);
    }
    assert |Z(variable, i)| > |variable| && |Acc(variable, j)| > |variable|;
  }

  function ChainOf(variable: string, causes: seq<Cause>, leak: real): (ch: Chain)
    ensures |ch.zs| == |ch.accs| == |ch.causes| == |causes|
    ensures ch.causes == causes && ch.leak == leak
    ensures forall i :: 0 <= i < |causes| ==> ch.zs[i] == Z(variable, i)
    ensures forall i :: 0 <= i < |causes| ==> ch.accs[i] == Acc(variable, i)
  {
    var n := |causes|;
    Chain(seq(n, i requires 0 <= i < n => Z(variable, i)), seq(n, i requires 0 <= i < n => Acc(variable, i)), causes,
          leak)
  }

  lemma ChainOfValid(variable: string, causes: seq<Cause>, leak: real)
    requires Fresh(variable, causes)
    ensures ChainOf(variable, causes, leak).Valid()
    ensures ChainOf(variable, causes, leak).Output(|causes|, variable)
  {
    var ch := ChainOf(variable, causes, leak);
    forall i, j | 0 <= i < |causes| && 0 <= j < |causes|
      ensures (ch.zs[i] == ch.zs[j] ==> i == j) && (ch.accs[i] == ch.accs[j] ==> i == j) && ch.zs[i] != ch.accs[j]
    {
      NamesDistinct(variable, i, j);
    }
    forall i | 0 <= i < |causes|
      ensures variable != ch.zs[i] && variable != ch.accs[i]
      ensures IsAuxiliary(variable, ch.zs[i]) && IsAuxiliary(variable, ch.accs[i])
    {
      NamesDistinct(variable, i, i);
    }
  }

  /** The factor list that noisy_or_factors returns. */
  function Decomposition(variable: string, causes: seq<Cause>, leak: real): seq<Factor> {
    if causes == [] then [Prior(variable, leak)]
    else
      var ch := ChainOf(variable, causes, leak);
      [Prior(ch.accs[0], leak)] + ch.Mechanisms(|causes|) + ch.Gates(|causes|, variable)
  }

  /** The variables that the decomposition introduces. */
  function Auxiliaries(variable: string, causes: seq<Cause>): seq<string> {
    ChainOf(variable, causes, 0.0).Aux(|causes|)
  }

  lemma {:induction false} AuxSameNames(ch: Chain, hc: Chain, n: nat)
    requires n <= |ch.zs| == |ch.accs| && ch.zs == hc.zs && ch.accs == hc.accs
    ensures ch.Aux(n) == hc.Aux(n)
  {
    if n > 0 {
      AuxSameNames(ch, hc, n - 1);
    }
  }

  lemma AuxiliariesFresh(variable: string, causes: seq<Cause>)
    requires Fresh(variable, causes)
    ensures NoDup(Auxiliaries(variable, causes))
    ensures forall name :: name in Auxiliaries(variable, causes) ==> IsAuxiliary(variable, name)
  {
    var ch, n := ChainOf(variable, causes, 0.0), |causes|;
    ChainOfValid(variable, causes, 0.0);
    AuxNoDup(ch, n);
    forall name | name in ch.Aux(n) ensures IsAuxiliary(variable, name) {
      AuxElems(ch, n, name);
      var i :| 0 <= i < n && (name == ch.zs[i] || name == ch.accs[i]);
      NamesDistinct(variable, i, i);
    }
  }

  lemma DecompositionProduct(variable: string, causes: seq<Cause>, leak: real, a: Assignment)
    requires Fresh(variable, causes)
    ensures AllValid(Decomposition(variable, causes, leak))
    ensures AllValid(ChainOf(variable, causes, leak).Links(|causes|, variable))
    ensures Product(Decomposition(variable, causes, leak), a)
         == Product(ChainOf(variable, causes, leak).Links(|causes|, variable), a)
  {
    var ch, n := ChainOf(variable, causes, leak), |causes|;
    ChainOfValid(variable, causes, leak);
    if n > 0 {
      ListedProduct(ch, n, variable, a);
      var prior := Prior(ch.accs[0], leak);
      ProductCons(prior, ch.Mechanisms(n), a);
      ProductConcat([prior] + ch.Mechanisms(n), ch.Gates(n, variable), a);
    }
  }

  lemma {:induction false} DecompositionTotal(variable: string, causes: seq<Cause>, leak: real, vs: seq<string>,
                                              a: Assignment)
    requires Fresh(variable, causes)
    ensures AllValid(Decomposition(variable, causes, leak))
    ensures AllValid(ChainOf(variable, causes, leak).Links(|causes|, variable))
    ensures Total(vs, Decomposition(variable, causes, leak), a)
         == Total(vs, ChainOf(variable, causes, leak).Links(|causes|, variable), a)
    decreases |vs|
  {
    DecompositionProduct(variable, causes, leak, a);
    if vs != [] {
      DecompositionTotal(variable, causes, leak, vs[1..], a[vs[0] := false]);
      DecompositionTotal(variable, causes, leak, vs[1..], a[vs[0] := true]);
    }
  }

  /** The decomposition is exact: summing its auxiliary variables out gives the
      noisy-OR closed form, for every number of causes and every assignment. */
  lemma Exact(variable: string, causes: seq<Cause>, leak: real, a: Assignment)
    requires Fresh(variable, causes)
    ensures AllValid(Decomposition(variable, causes, leak))
    ensures Total(Auxiliaries(variable, causes), Decomposition(variable, causes, leak), a)
         == ClosedForm(variable, causes, leak, a)
  {
    var ch, n := ChainOf(variable, causes, leak), |causes|;
    ChainOfValid(variable, causes, leak);
    ChainSum(ch, n, variable, a);
    assert causes[..n] == causes;
    AuxSameNames(ch, ChainOf(variable, causes, 0.0), n);
    DecompositionTotal(variable, causes, leak, ch.Aux(n), a);
  }

  /** The scope of the decomposition: the variable, its parents and names that
      only this call introduces. */
  lemma DecompositionScope(variable: string, causes: seq<Cause>, leak: real)
    ensures Scope(Decomposition(variable, causes, leak))
         == {variable} + Elems(Auxiliaries(variable, causes)) + ParentSet(causes)
  {
    var ch, n := ChainOf(variable, causes, leak), |causes|;
    if n == 0 {
      PriorTotal(variable, leak, map[]);
    } else {
      ListedScope(ch, n, variable);
      AuxSameNames(ch, ChainOf(variable, causes, 0.0), n);
      ParentsAll(ch, n);
      assert causes[..n] == causes;
    }
  }

  function ParentSet(causes: seq<Cause>): set<string> {
    set c | c in causes :: c.parent
  }

  lemma {:induction false} ParentsAll(ch: Chain, n: nat)
    requires n <= |ch.causes|
    ensures ch.Parents(n) == ParentSet(ch.causes[..n])
  {
    if n > 0 {
      ParentsAll(ch, n - 1);
      assert ch.causes[..n] == ch.causes[..n - 1] + [ch.causes[n - 1]];
    }
  }

  lemma {:induction false} ListedScope(ch: Chain, n: nat, out: string)
    requires 0 < n <= |ch.zs| == |ch.accs| == |ch.causes|
    ensures Scope([Prior(ch.accs[0], ch.leak)] + ch.Mechanisms(n) + ch.Gates(n, out))
         == {out} + Elems(ch.Aux(n)) + ch.Parents(n)
  {
    var prior := [Prior(ch.accs[0], ch.leak)];
    PriorTotal(ch.accs[0], ch.leak, map[]);
    ScopeConcat(prior, ch.Mechanisms(n));
    ScopeConcat(prior + ch.Mechanisms(n), ch.Gates(n, out));
    LinksScope(ch, n, out);
    ListedLinksScope(ch, n, out);
  }

  lemma {:induction false} ListedLinksScope(ch: Chain, n: nat, out: string)
    requires 0 < n <= |ch.zs| == |ch.accs| == |ch.causes|
    ensures {ch.accs[0]} + Scope(ch.Mechanisms(n)) + Scope(ch.Gates(n, out)) == Scope(ch.Links(n, out))
  {
    var k, acc, z, parent := n - 1, ch.accs[n - 1], ch.zs[n - 1], ch.causes[n - 1].parent;
    assert Scope(ch.Mechanisms(n)) == Scope(ch.Mechanisms(k)) + {z, parent} by {
      ScopeSnoc(ch.Mechanisms(k), MechanismFactor(z, ch.causes[k]));
    }
    assert Scope(ch.Gates(n, out)) == Scope(ch.Gates(k, acc)) + {out, acc, z} by {
      ScopeSnoc(ch.Gates(k, acc), GateFactor(out, acc, z));
    }
    assert Scope(ch.Links(n, out)) == Scope(ch.Links(k, acc)) + {z, parent, out, acc} by {
      ScopeConcat(ch.Links(k, acc), ch.Link(k, out));
      LinkScope(ch, k, out);
    }
    if k == 0 {
      PriorTotal(acc, ch.leak, map[]);
    } else {
      ListedLinksScope(ch, k, acc);
    }
  }

  /** With the leak and every strength in [0, 1] no table entry is negative. */
  lemma {:induction false} ListedNonNegative(ch: Chain, n: nat, out: string)
    requires n <= |ch.zs| == |ch.accs| == |ch.causes|
    requires forall i :: 0 <= i < n ==> 0.0 <= ch.causes[i].strength <= 1.0
    ensures AllNonNegative(ch.Mechanisms(n)) && AllNonNegative(ch.Gates(n, out))
  {
    if n > 0 {
      ListedNonNegative(ch, n - 1, ch.accs[n - 1]);
    }
  }

  ghost predicate InRange(causes: seq<Cause>, leak: real) {
    0.0 <= leak <= 1.0 && forall c :: c in causes ==> 0.0 <= c.strength <= 1.0
  }

  lemma DecompositionNonNegative(variable: string, causes: seq<Cause>, leak: real)
    requires InRange(causes, leak)
    ensures AllNonNegative(Decomposition(variable, causes, leak))
  {
    var ch := ChainOf(variable, causes, leak);
    if causes != [] {
      ListedNonNegative(ch, |causes|, variable);
      AllNonNegativeConcat([Prior(ch.accs[0], leak)], ch.Mechanisms(|causes|));
      AllNonNegativeConcat([Prior(ch.accs[0], leak)] + ch.Mechanisms(|causes|), ch.Gates(|causes|, variable));
    }
  }

  lemma AllNonNegativeConcat(fs: seq<Factor>, gs: seq<Factor>)
    requires AllNonNegative(fs) && AllNonNegative(gs)
    ensures AllNonNegative(fs + gs)
  {
  }

  // ----- noisy_or_factors -----

  /** The table filled at noisy_or.py:97-100. */
  method OrTable() returns (table: seq<real>)
    ensures table == OR_TABLE
  {
    table := [0.0, 0.0, 0.0, 0.0, 0.0, 0.0, 0.0, 0.0];
    for a := 0 to 2
      invariant table == if a == 0 then [0.0, 0.0, 0.0, 0.0, 0.0, 0.0, 0.0, 0.0]
                         else if a == 1 then [1.0, 0.0, 0.0, 0.0, 0.0, 1.0, 0.0, 0.0] else OR_TABLE
    {
      RavelTriple(a == 1, a == 1, false);
      RavelTriple(true, a == 1, true);
      table := table[Ravel([a == 1, a == 1, false]) := 1.0];
      table := table[Ravel([true, a == 1, true]) := 1.0];
    }
  }

  method Build(variable: string, causes: seq<Cause>, leak: real) returns (r: Built)
    ensures r == if InRange(causes, leak) then Ok(Decomposition(variable, causes, leak)) else OutOfRange
  {
    if !(0.0 <= leak <= 1.0) {
      return OutOfRange;
    }
    for i := 0 to |causes|
      invariant forall j :: 0 <= j < i ==> 0.0 <= causes[j].strength <= 1.0
    {
      if !(0.0 <= causes[i].strength <= 1.0) {
        assert causes[i] in causes;
        return OutOfRange;
      }
    }
    if causes == [] {
      return Ok([Prior(variable, leak)]);
    }
    ghost var ch := ChainOf(variable, causes, leak);
    var mechanisms, factors := BuildMechanisms(variable, causes, ch);
    var gates := BuildGates(variable, mechanisms, ch);
    r := Ok([Prior(Acc(variable, 0), leak)] + factors + gates);
  }

  lemma MechanismStep(ch: Chain, i: nat)
    requires i < |ch.zs| == |ch.causes|
    ensures ch.zs[..i + 1] == ch.zs[..i] + [ch.zs[i]]
    ensures ch.Mechanisms(i + 1) == ch.Mechanisms(i) + [MechanismFactor(ch.zs[i], ch.causes[i])]
  {
  }

  /** The mechanism loop of noisy_or.py:86-93. */
  method BuildMechanisms(variable: string, causes: seq<Cause>, ghost ch: Chain)
    returns (mechanisms: seq<string>, factors: seq<Factor>)
    requires |ch.zs| == |causes| && ch.causes == causes
    requires forall i :: 0 <= i < |causes| ==> ch.zs[i] == Z(variable, i)
    ensures mechanisms == ch.zs && factors == ch.Mechanisms(|causes|)
  {
    mechanisms, factors := [], [];
    for i := 0 to |causes|
      invariant mechanisms == ch.zs[..i] && factors == ch.Mechanisms(i)
    {
      var z := Z(variable, i);
      MechanismStep(ch, i);
      mechanisms := mechanisms + [z];
      factors := factors + [MechanismFactor(z, causes[i])];
    }
    assert ch.zs[..|causes|] == ch.zs;
  }

  /** The OR chain of noisy_or.py:102-107. */
  method BuildGates(variable: string, mechanisms: seq<string>, ghost ch: Chain) returns (factors: seq<Factor>)
    requires mechanisms != [] && ch.zs == mechanisms && |ch.accs| == |mechanisms|
    requires forall i :: 0 <= i < |mechanisms| ==> ch.accs[i] == Acc(variable, i)
    ensures factors == ch.Gates(|mechanisms|, variable)
  {
    var n := |mechanisms|;
    var orTable := OrTable();
    var acc := Acc(variable, 0);
    factors := [];
    for i := 0 to n
      invariant i < n ==> acc == ch.accs[i] && factors == ch.Gates(i, acc)
      invariant i == n ==> factors == ch.Gates(n, variable)
    {
      var out := if i == n - 1 then variable else Acc(variable, i + 1);
      assert i < n - 1 ==> out == ch.accs[i + 1];
      factors := factors + [Factor([out, acc, mechanisms[i]], orTable)];
      acc := out;
    }
  }
}
