/** Discrete factors over binary variables (sidecar/belief/infer.py).

A factor is an ordered list of variables and a dense table with one axis of
length 2 per variable.  The table is kept as the flat row-major sequence that
a dense array is in memory: the first variable is the most significant digit
of the index.  Every operation below is written on those flat tables; the
lemmas relate each of them to the pointwise meaning `Eval`. */
module Factors {

  /** An assignment of states to variables; a variable it omits is false. */
  type Assignment = map<string, bool>

  function Val(a: Assignment, v: string): bool {
    v in a && a[v]
  }

  ghost predicate NoDup<T>(s: seq<T>) {
    forall i, j :: 0 <= i < j < |s| ==> s[i] != s[j]
  }

  lemma NoDupTail<T>(s: seq<T>)
    requires NoDup(s) && s != []
    ensures NoDup(s[1..]) && s[0] !in s[1..]
  {
  }

  lemma Associate<T>(r: seq<T>, s: seq<T>, t: seq<T>)
    ensures r + s + t == r + (s + t)
  {
  }

  function Elems<T>(s: seq<T>): set<T> {
    set x | x in s
  }

  /** Multiplication under a name, so that the sum-product proofs regroup
      products by the laws below instead of by nonlinear search. */
  function Times(x: real, y: real): real {
    x * y
  }

  lemma TimesUnit(x: real)
    ensures Times(1.0, x) == x == Times(x, 1.0)
  {
  }

  lemma TimesZero(x: real)
    ensures Times(0.0, x) == 0.0 == Times(x, 0.0)
  {
  }

  lemma TimesComm(x: real, y: real)
    ensures Times(x, y) == Times(y, x)
  {
  }

  lemma TimesNegate(x: real)
    ensures Times(0.0 - x, 0.0 - x) == Times(x, x)
  {
  }

  lemma TimesAssoc(x: real, y: real, z: real)
    ensures Times(x, Times(y, z)) == Times(Times(x, y), z)
  {
  }

  lemma TimesDistribute(x: real, y: real, z: real)
    ensures Times(x + y, z) == Times(x, z) + Times(y, z)
    ensures Times(z, x + y) == Times(z, x) + Times(z, y)
  {
  }

  lemma TimesPositive(x: real, y: real)
    requires x > 0.0 && y > 0.0
    ensures Times(x, y) > 0.0
  {
  }

  lemma TimesNonNegative(x: real, y: real)
    requires x >= 0.0 && y >= 0.0
    ensures Times(x, y) >= 0.0
  {
  }

  // ----- row-major indexing -----

  function Pow2(n: nat): (p: nat)
    ensures p >= 1
  {
    if n == 0 then 1 else 2 * Pow2(n - 1)
  }

  /** The flat position of a multi-index. */
  function Ravel(bits: seq<bool>): (i: nat)
    ensures i < Pow2(|bits|)
  {
    if bits == [] then 0
    else (if bits[0] then Pow2(|bits| - 1) else 0) + Ravel(bits[1..])
  }

  /** The multi-index at a flat position. */
  function Unravel(n: nat, i: nat): (bits: seq<bool>)
    requires i < Pow2(n)
    ensures |bits| == n
    ensures Ravel(bits) == i
  {
    if n == 0 then []
    else
      var half := Pow2(n - 1);
      if i < half then [false] + Unravel(n - 1, i) else [true] + Unravel(n - 1, i - half)
  }

  lemma {:induction false} UnravelRavel(bits: seq<bool>)
    ensures Unravel(|bits|, Ravel(bits)) == bits
  {
    if bits != [] {
      UnravelRavel(bits[1..]);
    }
  }

  // ----- factors -----

  datatype Factor = Factor(variables: seq<string>, table: seq<real>) {
    ghost predicate Valid() {
      NoDup(variables) && |table| == Pow2(|variables|)
    }

    ghost predicate NonNegative() {
      forall i :: 0 <= i < |table| ==> table[i] >= 0.0
    }
  }

  ghost predicate AllValid(fs: seq<Factor>) {
    forall f :: f in fs ==> f.Valid()
  }

  ghost predicate AllNonNegative(fs: seq<Factor>) {
    forall f :: f in fs ==> f.NonNegative()
  }

  /** The multi-index that an assignment selects in a table over `vs`. */
  function Bits(vs: seq<string>, a: Assignment): (bits: seq<bool>)
    ensures |bits| == |vs|
    ensures forall i :: 0 <= i < |vs| ==> bits[i] == Val(a, vs[i])
  {
    seq(|vs|, i requires 0 <= i < |vs| => Val(a, vs[i]))
  }

  /** The pointwise meaning of a factor. */
  function Eval(f: Factor, a: Assignment): real
    requires f.Valid()
  {
    f.table[Ravel(Bits(f.variables, a))]
  }

  /** The entry of a table at a multi-index. */
  function At(f: Factor, bits: seq<bool>): real
    requires f.Valid() && |bits| == |f.variables|
  {
    f.table[Ravel(bits)]
  }

  /** Builds a table of `n` axes from what each multi-index holds. */
  function Tabulate(n: nat, entry: seq<bool> --> real): (t: seq<real>)
    requires forall bits: seq<bool> :: |bits| == n ==> entry.requires(bits)
    ensures |t| == Pow2(n)
    ensures forall bits: seq<bool> {:trigger t[Ravel(bits)]} :: |bits| == n ==> t[Ravel(bits)] == entry(bits)
  {
    var t := seq(Pow2(n), i requires 0 <= i < Pow2(n) => entry(Unravel(n, i)));
    assert forall bits: seq<bool> :: |bits| == n ==> t[Ravel(bits)] == entry(bits) by {
      forall bits: seq<bool> | |bits| == n ensures t[Ravel(bits)] == entry(bits) {
        UnravelRavel(bits);
      }
    }
    t
  }

  /** The position of the first occurrence of `v`. */
  function IndexOf(vs: seq<string>, v: string): (i: nat)
    requires v in vs
    ensures i < |vs| && vs[i] == v
    ensures v !in vs[..i]
  {
    if vs[0] == v then 0 else 1 + IndexOf(vs[1..], v)
  }

  lemma RavelCons(b: bool, bits: seq<bool>)
    ensures Ravel([b] + bits) == (if b then Pow2(|bits|) else 0) + Ravel(bits)
  {
    assert ([b] + bits)[1..] == bits;
  }

  // ----- tables from an artifact (infer.py:106) -----

  datatype Converted = Converted(factor: Factor) | WrongShape

  /** One row per state, one column per parent assignment, the last parent
      varying fastest. */
  function CpdToFactor(variable: string, values: seq<seq<real>>, parents: seq<string>): Converted {
    if |values| == 2 && |values[0]| == Pow2(|parents|) && |values[1]| == Pow2(|parents|)
    then Converted(Factor([variable] + parents, values[0] + values[1])) else WrongShape
  }

  /** A converted table is a factor when its names are distinct, and reads the
      row of its variable's state at the column of the parents' states. */
  lemma CpdEntry(variable: string, values: seq<seq<real>>, parents: seq<string>, a: Assignment)
    requires NoDup([variable] + parents) && CpdToFactor(variable, values, parents).Converted?
    ensures var f := CpdToFactor(variable, values, parents).factor;
            && f.Valid()
            && Eval(f, a) == values[if Val(a, variable) then 1 else 0][Ravel(Bits(parents, a))]
  {
    var f := CpdToFactor(variable, values, parents).factor;
    assert f.variables[1..] == parents;
    BitsCons(f.variables, a);
    RavelCons(Val(a, variable), Bits(parents, a));
  }

  // ----- reduce (infer.py:60) -----

  /** The unobserved variables of `vs`, in order. */
  function Unobserved(vs: seq<string>, evidence: Assignment): (kept: seq<string>)
    ensures forall v :: v in kept <==> v in vs && v !in evidence
    ensures NoDup(vs) ==> NoDup(kept)
  {
    if vs == [] then []
    else
      var rest := Unobserved(vs[1..], evidence);
      if vs[0] in evidence then rest else [vs[0]] + rest
  }

  /** The full multi-index that a multi-index over the kept axes reads: an
      observed axis is fixed at its observed state. */
  function Interleave(vs: seq<string>, evidence: Assignment, bits: seq<bool>): (full: seq<bool>)
    requires |bits| == |Unobserved(vs, evidence)|
    ensures |full| == |vs|
  {
    if vs == [] then []
    else if vs[0] in evidence then [evidence[vs[0]]] + Interleave(vs[1..], evidence, bits)
    else [bits[0]] + Interleave(vs[1..], evidence, bits[1..])
  }

  function Reduce(f: Factor, evidence: Assignment): (r: Factor)
    requires f.Valid()
    ensures r.Valid()
    ensures Elems(r.variables) == Elems(f.variables) - evidence.Keys
  {
    var kept := Unobserved(f.variables, evidence);
    if |kept| == |f.variables| then
      UnobservedAll(f.variables, evidence);
      f
    else
      Factor(kept, Tabulate(|kept|,
        (bits: seq<bool>) requires |bits| == |kept| => At(f, Interleave(f.variables, evidence, bits))))
  }

  lemma {:induction false} UnobservedAll(vs: seq<string>, evidence: Assignment)
    ensures |Unobserved(vs, evidence)| <= |vs|
    ensures |Unobserved(vs, evidence)| == |vs| ==> Unobserved(vs, evidence) == vs
  {
    if vs != [] {
      UnobservedAll(vs[1..], evidence);
    }
  }

  lemma BitsCons(vs: seq<string>, a: Assignment)
    requires vs != []
    ensures Bits(vs, a) == [Val(a, vs[0])] + Bits(vs[1..], a)
  {
  }

  lemma {:induction false} InterleaveBits(vs: seq<string>, evidence: Assignment, a: Assignment)
    ensures Interleave(vs, evidence, Bits(Unobserved(vs, evidence), a)) == Bits(vs, a + evidence)
  {
    if vs != [] {
      InterleaveBits(vs[1..], evidence, a);
      BitsCons(vs, a + evidence);
      if vs[0] !in evidence {
        BitsCons(Unobserved(vs, evidence), a);
        assert Unobserved(vs, evidence)[1..] == Unobserved(vs[1..], evidence);
      }
    }
  }

  /** Conditioning slices, so the reduced factor reads the original one with
      the evidence written over the assignment. */
  lemma EvalReduce(f: Factor, evidence: Assignment, a: Assignment)
    requires f.Valid()
    ensures Eval(Reduce(f, evidence), a) == Eval(f, a + evidence)
  {
    var kept := Unobserved(f.variables, evidence);
    if |kept| == |f.variables| {
      UnobservedAll(f.variables, evidence);
      assert Bits(f.variables, a) == Bits(f.variables, a + evidence);
    } else {
      InterleaveBits(f.variables, evidence, a);
    }
  }

  // ----- multiply (infer.py:79, _align at infer.py:96) -----

  /** `_align`: what the aligned, broadcast table of `f` holds at a
      multi-index over `union`. */
  function Aligned(f: Factor, union: seq<string>, bits: seq<bool>): real
    requires f.Valid() && |bits| == |union|
    requires forall v :: v in f.variables ==> v in union
  {
    At(f, seq(|f.variables|, i requires 0 <= i < |f.variables| => bits[IndexOf(union, f.variables[i])]))
  }

  lemma AlignedBits(f: Factor, union: seq<string>, a: Assignment)
    requires f.Valid()
    requires forall v :: v in f.variables ==> v in union
    ensures Aligned(f, union, Bits(union, a)) == Eval(f, a)
  {
    var bits := Bits(union, a);
    assert seq(|f.variables|, i requires 0 <= i < |f.variables| => bits[IndexOf(union, f.variables[i])])
        == Bits(f.variables, a);
  }

  function Union(left: seq<string>, right: seq<string>): (u: seq<string>)
    ensures forall v :: v in u <==> v in left || v in right
    ensures NoDup(left) && NoDup(right) ==> NoDup(u)
    ensures left <= u
  {
    if right == [] then left
    else
      var init := Union(left, right[..|right| - 1]);
      var last := right[|right| - 1];
      assert right == right[..|right| - 1] + [last];
      if last in left then init else init + [last]
  }

  function Multiply(f: Factor, g: Factor): (r: Factor)
    requires f.Valid() && g.Valid()
    ensures r.Valid()
    ensures r.variables == Union(f.variables, g.variables)
    ensures Elems(r.variables) == Elems(f.variables) + Elems(g.variables)
  {
    var union := Union(f.variables, g.variables);
    Factor(union, Tabulate(|union|,
      (bits: seq<bool>) requires |bits| == |union| => Times(Aligned(f, union, bits), Aligned(g, union, bits))))
  }

  lemma EvalMultiply(f: Factor, g: Factor, a: Assignment)
    requires f.Valid() && g.Valid()
    ensures Eval(Multiply(f, g), a) == Times(Eval(f, a), Eval(g, a))
  {
    var union := Union(f.variables, g.variables);
    AlignedBits(f, union, a);
    AlignedBits(g, union, a);
  }

  // ----- sum_out (infer.py:89) -----

  function Insert(bits: seq<bool>, axis: nat, b: bool): (r: seq<bool>)
    requires axis <= |bits|
    ensures |r| == |bits| + 1
  {
    bits[..axis] + [b] + bits[axis..]
  }

  function SumOut(f: Factor, v: string): (r: Factor)
    requires f.Valid() && v in f.variables
    ensures r.Valid()
    ensures Elems(r.variables) == Elems(f.variables) - {v}
  {
    var axis := IndexOf(f.variables, v);
    var kept := f.variables[..axis] + f.variables[axis + 1..];
    assert forall u :: u in f.variables <==> u in kept || u == v by {
      assert f.variables == f.variables[..axis] + [v] + f.variables[axis + 1..];
    }
    Factor(kept, Tabulate(|kept|,
      (bits: seq<bool>) requires |bits| == |kept| =>
        At(f, Insert(bits, axis, false)) + At(f, Insert(bits, axis, true))))
  }

  lemma InsertBits(vs: seq<string>, axis: nat, a: Assignment, b: bool)
    requires NoDup(vs) && axis < |vs|
    ensures Insert(Bits(vs[..axis] + vs[axis + 1..], a), axis, b) == Bits(vs, a[vs[axis] := b])
  {
  }

  lemma EvalSumOut(f: Factor, v: string, a: Assignment)
    requires f.Valid() && v in f.variables
    ensures Eval(SumOut(f, v), a) == Eval(f, a[v := false]) + Eval(f, a[v := true])
  {
    var axis := IndexOf(f.variables, v);
    SumOutAt(f, v, Bits(SumOut(f, v).variables, a));
    InsertBits(f.variables, axis, a, false);
    InsertBits(f.variables, axis, a, true);
  }

  lemma SumOutAt(f: Factor, v: string, bits: seq<bool>)
    requires f.Valid() && v in f.variables && |bits| == |f.variables| - 1
    ensures |SumOut(f, v).variables| == |bits|
    ensures var axis := IndexOf(f.variables, v);
            At(SumOut(f, v), bits) == At(f, Insert(bits, axis, false)) + At(f, Insert(bits, axis, true))
  {
  }

  /** A factor does not see a variable outside its scope. */
  lemma EvalFrame(f: Factor, a: Assignment, v: string, b: bool)
    requires f.Valid() && v !in f.variables
    ensures Eval(f, a[v := b]) == Eval(f, a)
  {
    assert Bits(f.variables, a[v := b]) == Bits(f.variables, a);
  }
}
