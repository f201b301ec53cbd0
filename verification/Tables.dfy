/** A ground network: one noisy-OR table per variable.

`Flatten` is the factor list that ground.py hands to the solver.  The lemmas
prove that its sum-product semantics is the one of the closed-form tables, so
the posteriors are those of the network that the tables describe. */
module Tables {
  import opened Factors
  import opened Lists
  import opened SumProduct
  import NoisyOr
  import Names
  import Query
  import opened Order

  datatype Table = Table(variable: string, causes: seq<NoisyOr.Cause>, leak: real) {
    ghost predicate InRange() {
      NoisyOr.InRange(causes, leak)
    }

    /** The conditional probability of this variable's state in `a`. */
    function Probability(a: Assignment): real {
      NoisyOr.ClosedForm(variable, causes, leak, a)
    }

    function Names(): set<string> {
      {variable} + NoisyOr.ParentSet(causes)
    }
  }

  /** The factors of one table. */
  function Ground(t: Table): seq<Factor> {
    NoisyOr.Decomposition(t.variable, t.causes, t.leak)
  }

  function GroundEach(ts: seq<Table>): seq<seq<Factor>> {
    seq(|ts|, i requires 0 <= i < |ts| => Ground(ts[i]))
  }

  function Flatten(ts: seq<Table>): seq<Factor> {
    Concat(GroundEach(ts))
  }

  lemma FlattenHead(ts: seq<Table>)
    requires ts != []
    ensures Flatten(ts) == Ground(ts[0]) + Flatten(ts[1..])
  {
    assert GroundEach(ts)[1..] == GroundEach(ts[1..]);
  }

  function AuxAll(ts: seq<Table>): seq<string> {
    if ts == [] then [] else NoisyOr.Auxiliaries(ts[0].variable, ts[0].causes) + AuxAll(ts[1..])
  }

  /** The variables of the network and all their parents. */
  function Declared(ts: seq<Table>): set<string> {
    if ts == [] then {} else ts[0].Names() + Declared(ts[1..])
  }

  /** The joint weight of one assignment: the product of the tables. */
  function Joint(ts: seq<Table>, a: Assignment): real {
    if ts == [] then 1.0 else Times(ts[0].Probability(a), Joint(ts[1..], a))
  }

  function JointTotal(vs: seq<string>, ts: seq<Table>, a: Assignment): real {
    if vs == [] then Joint(ts, a)
    else JointTotal(vs[1..], ts, a[vs[0] := false]) + JointTotal(vs[1..], ts, a[vs[0] := true])
  }

  // ----- fresh names -----

  /** No name of the set is an auxiliary name of some table's variable. */
  ghost predicate Clear(ts: seq<Table>, names: set<string>) {
    forall t, name :: t in ts && name in names ==> !NoisyOr.IsAuxiliary(t.variable, name)
  }

  /** Distinct variables, none of them or of their parents auxiliary. */
  ghost predicate Proper(ts: seq<Table>) {
    && (forall i, j :: 0 <= i < j < |ts| ==> ts[i].variable != ts[j].variable)
    && Clear(ts, Declared(ts))
  }

  lemma {:induction false} NamesDeclared(ts: seq<Table>, t: Table)
    requires t in ts
    ensures t.Names() <= Declared(ts)
  {
    if t != ts[0] {
      NamesDeclared(ts[1..], t);
    }
  }

  lemma ProperHead(ts: seq<Table>)
    requires Proper(ts) && ts != []
    ensures NoisyOr.Fresh(ts[0].variable, ts[0].causes)
    ensures Proper(ts[1..]) && Clear(ts[1..], ts[0].Names()) && Clear([ts[0]], Declared(ts[1..]))
    ensures forall t :: t in ts[1..] ==> t.variable != ts[0].variable
  {
    assert ts[0] in ts;
    assert forall c :: c in ts[0].causes ==> c.parent in NoisyOr.ParentSet(ts[0].causes);
    assert forall c :: c in ts[0].causes ==> c.parent in Declared(ts);
    assert forall t :: t in ts[1..] ==> t in ts;
  }

  lemma {:induction false} AuxAllOwned(ts: seq<Table>, name: string)
    requires Proper(ts) && name in AuxAll(ts)
    ensures exists t :: t in ts && NoisyOr.IsAuxiliary(t.variable, name)
  {
    ProperHead(ts);
    if name in NoisyOr.Auxiliaries(ts[0].variable, ts[0].causes) {
      NoisyOr.AuxiliariesFresh(ts[0].variable, ts[0].causes);
      assert ts[0] in ts;
    } else {
      AuxAllOwned(ts[1..], name);
      var t :| t in ts[1..] && NoisyOr.IsAuxiliary(t.variable, name);
      assert t in ts;
    }
  }

  lemma OneOwner(v: string, w: string, name: string)
    requires NoisyOr.IsAuxiliary(v, name) && NoisyOr.IsAuxiliary(w, name)
    ensures v == w
  {
    var r :| name == Names.Auxiliary(v, r);
    var q :| name == Names.Auxiliary(w, q);
    Names.AuxiliaryInjective(v, r, w, q);
  }

  /** The auxiliaries of different variables never meet each other or the
      names of the network. */
  lemma AuxSeparate(ts: seq<Table>)
    requires Proper(ts) && ts != []
    ensures Elems(AuxAll(ts[1..])) !! Elems(NoisyOr.Auxiliaries(ts[0].variable, ts[0].causes))
    ensures Elems(AuxAll(ts[1..])) !! ts[0].Names()
    ensures Elems(NoisyOr.Auxiliaries(ts[0].variable, ts[0].causes)) !! Declared(ts[1..])
  {
    ProperHead(ts);
    NoisyOr.AuxiliariesFresh(ts[0].variable, ts[0].causes);
    forall name | name in AuxAll(ts[1..])
      ensures name !in NoisyOr.Auxiliaries(ts[0].variable, ts[0].causes) && name !in ts[0].Names()
    {
      AuxAllOwned(ts[1..], name);
      var t :| t in ts[1..] && NoisyOr.IsAuxiliary(t.variable, name);
      if NoisyOr.IsAuxiliary(ts[0].variable, name) {
        OneOwner(t.variable, ts[0].variable, name);
      }
    }
    assert ts[0] in [ts[0]];
  }

  lemma {:induction false} AuxAllNoDup(ts: seq<Table>)
    requires Proper(ts)
    ensures NoDup(AuxAll(ts))
  {
    if ts != [] {
      ProperHead(ts);
      AuxSeparate(ts);
      AuxAllNoDup(ts[1..]);
      NoisyOr.AuxiliariesFresh(ts[0].variable, ts[0].causes);
      NoDupConcat(NoisyOr.Auxiliaries(ts[0].variable, ts[0].causes), AuxAll(ts[1..]));
    }
  }

  lemma NoDupConcat(s: seq<string>, t: seq<string>)
    requires NoDup(s) && NoDup(t) && Elems(s) !! Elems(t)
    ensures NoDup(s + t)
  {
    forall i, j | 0 <= i < j < |s + t| ensures (s + t)[i] != (s + t)[j] {
      if i < |s| <= j {
        assert s[i] in Elems(s) && t[j - |s|] in Elems(t);
      }
    }
  }

  lemma {:induction false} AuxAllClear(ts: seq<Table>, names: set<string>)
    requires Proper(ts) && Clear(ts, names)
    ensures Elems(AuxAll(ts)) !! names
  {
    forall name | name in AuxAll(ts) ensures name !in names {
      AuxAllOwned(ts, name);
    }
  }

  // ----- summing the auxiliaries out -----

  lemma {:induction false} FlattenValid(ts: seq<Table>)
    requires Proper(ts)
    ensures AllValid(Flatten(ts))
    ensures Scope(Flatten(ts)) == Declared(ts) + Elems(AuxAll(ts))
  {
    if ts != [] {
      ProperHead(ts);
      FlattenHead(ts);
      FlattenValid(ts[1..]);
      var t := ts[0];
      NoisyOr.Exact(t.variable, t.causes, t.leak, map[]);
      NoisyOr.DecompositionScope(t.variable, t.causes, t.leak);
      ScopeConcat(Ground(t), Flatten(ts[1..]));
    }
  }

  /** Summing every auxiliary variable leaves the product of the tables. */
  lemma {:induction false} AuxTotal(ts: seq<Table>, a: Assignment)
    requires Proper(ts)
    ensures AllValid(Flatten(ts))
    ensures Total(AuxAll(ts), Flatten(ts), a) == Joint(ts, a)
    decreases |ts|
  {
    FlattenValid(ts);
    if ts != [] {
      var t := ts[0];
      ProperHead(ts);
      FlattenHead(ts);
      AuxSeparate(ts);
      FlattenValid(ts[1..]);
      NoisyOr.Exact(t.variable, t.causes, t.leak, a);
      NoisyOr.DecompositionScope(t.variable, t.causes, t.leak);
      AuxTotal(ts[1..], a);
      TotalIndependent(NoisyOr.Auxiliaries(t.variable, t.causes), Ground(t), AuxAll(ts[1..]), Flatten(ts[1..]), a);
    }
  }

  /** The solver's factor list has the totals of the closed-form network. */
  lemma {:induction false} NetworkTotal(us: seq<string>, ts: seq<Table>, a: Assignment)
    requires Proper(ts)
    ensures AllValid(Flatten(ts))
    ensures Total(us + AuxAll(ts), Flatten(ts), a) == JointTotal(us, ts, a)
  {
    FlattenValid(ts);
    if us == [] {
      assert us + AuxAll(ts) == AuxAll(ts);
      AuxTotal(ts, a);
    } else {
      assert (us + AuxAll(ts))[1..] == us[1..] + AuxAll(ts);
      NetworkTotal(us[1..], ts, a[us[0] := false]);
      NetworkTotal(us[1..], ts, a[us[0] := true]);
    }
  }

  /** The weight that a query on the factor list normalises is the marginal of
      the product of the tables over the hidden network variables `us`. */
  lemma NetworkWeight(ts: seq<Table>, variable: string, evidence: Assignment, b: bool, us: seq<string>)
    requires Proper(ts) && Clear(ts, evidence.Keys + {variable})
    requires NoDup(us) && Elems(us) == Declared(ts) - (evidence.Keys - {variable}) - {variable}
    ensures AllValid(Flatten(ts))
    ensures Query.Weight(Flatten(ts), variable, evidence, b)
         == JointTotal(us, ts, (evidence - {variable})[variable := b])
  {
    FlattenValid(ts);
    AuxAllNoDup(ts);
    AuxAllClear(ts, evidence.Keys + {variable});
    AuxAllClear(ts, Declared(ts));
    NoDupConcat(us, AuxAll(ts));
    assert Elems(us + AuxAll(ts)) == Elems(us) + Elems(AuxAll(ts));
    Query.WeightAnyOrder(Flatten(ts), variable, evidence, b, us + AuxAll(ts));
    NetworkTotal(us, ts, (evidence - {variable})[variable := b]);
  }

  lemma {:induction false} FlattenNonNegative(ts: seq<Table>)
    requires forall t :: t in ts ==> t.InRange()
    ensures AllNonNegative(Flatten(ts))
  {
    if ts != [] {
      assert ts[0] in ts;
      FlattenHead(ts);
      NoisyOr.DecompositionNonNegative(ts[0].variable, ts[0].causes, ts[0].leak);
      FlattenNonNegative(ts[1..]);
    }
  }

  // ----- the posterior of the network -----

  /** The weight of `variable` having state `b` under the evidence: the product
      of the closed-form tables summed over every other unobserved variable. */
  ghost function Marginal(ts: seq<Table>, variable: string, evidence: Assignment, b: bool): real {
    JointTotal(Listing(Declared(ts) - (evidence.Keys - {variable}) - {variable}), ts,
               (evidence - {variable})[variable := b])
  }

  /** The normalised marginal, or an error exactly when its weight is zero. */
  ghost predicate Answers(r: Query.Outcome, ts: seq<Table>, variable: string, evidence: Assignment) {
    Query.ExactFor(r, variable in Declared(ts), true, Marginal(ts, variable, evidence, false),
                   Marginal(ts, variable, evidence, true))
  }

  /** An exact query on the factor list answers for the network. */
  lemma QueryAnswers(r: Query.Outcome, ts: seq<Table>, variable: string, evidence: Assignment)
    requires Proper(ts) && Clear(ts, evidence.Keys + {variable})
    requires forall t :: t in ts ==> t.InRange()
    requires AllValid(Flatten(ts)) && Query.Exact(r, Flatten(ts), variable, evidence)
    ensures Answers(r, ts, variable, evidence)
  {
    var us := Listing(Declared(ts) - (evidence.Keys - {variable}) - {variable});
    NetworkWeight(ts, variable, evidence, false, us);
    NetworkWeight(ts, variable, evidence, true, us);
    FlattenNonNegative(ts);
    FlattenValid(ts);
    AuxAllClear(ts, evidence.Keys + {variable});
  }

  // ----- the order of causes is irrelevant -----

  /** The same table up to the order of its causes. */
  ghost predicate Alike(t: Table, u: Table) {
    t.variable == u.variable && t.leak == u.leak && multiset(t.causes) == multiset(u.causes)
  }

  ghost predicate AllAlike(ts: seq<Table>, us: seq<Table>) {
    |ts| == |us| && forall i :: 0 <= i < |ts| ==> Alike(ts[i], us[i])
  }

  function Survives(c: NoisyOr.Cause, a: Assignment): real {
    if Val(a, c.parent) then 1.0 - c.strength else 1.0
  }

  lemma {:induction false} OffRemove(cs: seq<NoisyOr.Cause>, leak: real, a: Assignment, i: nat)
    requires i < |cs|
    ensures NoisyOr.Off(cs, leak, a) == Times(NoisyOr.Off(RemoveAt(cs, i), leak, a), Survives(cs[i], a))
  {
    var n := |cs| - 1;
    if i == n {
      assert RemoveAt(cs, i) == cs[..n];
    } else {
      OffRemove(cs[..n], leak, a, i);
      var rest := RemoveAt(cs, i);
      assert RemoveAt(cs[..n], i) == rest[..n - 1];
      var p, x, y := NoisyOr.Off(rest[..n - 1], leak, a), Survives(cs[i], a), Survives(cs[n], a);
      assert rest[n - 1] == cs[n];
      TimesAssoc(p, x, y);
      TimesComm(x, y);
      TimesAssoc(p, y, x);
    }
  }

  lemma {:induction false} OffPermutation(cs: seq<NoisyOr.Cause>, ds: seq<NoisyOr.Cause>, leak: real, a: Assignment)
    requires multiset(cs) == multiset(ds)
    ensures NoisyOr.Off(cs, leak, a) == NoisyOr.Off(ds, leak, a)
    decreases |cs|
  {
    if cs == [] {
      assert |multiset(ds)| == 0;
    } else {
      var i := MatchLast(cs, ds);
      OffPermutation(cs[..|cs| - 1], RemoveAt(ds, i), leak, a);
      OffRemove(ds, leak, a, i);
    }
  }

  lemma AlikeNames(t: Table, u: Table)
    requires Alike(t, u)
    ensures t.Names() == u.Names()
  {
    forall c ensures c in t.causes <==> c in u.causes {
      assert c in multiset(t.causes) <==> c in multiset(u.causes);
    }
  }

  lemma {:induction false} AlikeDeclared(ts: seq<Table>, us: seq<Table>)
    requires AllAlike(ts, us)
    ensures Declared(ts) == Declared(us)
  {
    if ts != [] {
      AlikeNames(ts[0], us[0]);
      AlikeDeclared(ts[1..], us[1..]);
    }
  }

  lemma {:induction false} AlikeJoint(ts: seq<Table>, us: seq<Table>, a: Assignment)
    requires AllAlike(ts, us)
    ensures Joint(ts, a) == Joint(us, a)
  {
    if ts != [] {
      OffPermutation(ts[0].causes, us[0].causes, ts[0].leak, a);
      AlikeJoint(ts[1..], us[1..], a);
    }
  }

  lemma {:induction false} AlikeTotal(vs: seq<string>, ts: seq<Table>, us: seq<Table>, a: Assignment)
    requires AllAlike(ts, us)
    ensures JointTotal(vs, ts, a) == JointTotal(vs, us, a)
  {
    if vs == [] {
      AlikeJoint(ts, us, a);
    } else {
      AlikeTotal(vs[1..], ts, us, a[vs[0] := false]);
      AlikeTotal(vs[1..], ts, us, a[vs[0] := true]);
    }
  }

  /** Networks that differ only in the order of causes have one answer. */
  lemma AlikeAnswers(r: Query.Outcome, q: Query.Outcome, ts: seq<Table>, us: seq<Table>, variable: string,
                     evidence: Assignment)
    requires AllAlike(ts, us)
    requires Answers(r, ts, variable, evidence) && Answers(q, us, variable, evidence)
    ensures r == q
  {
    AlikeDeclared(ts, us);
    var vs := Listing(Declared(ts) - (evidence.Keys - {variable}) - {variable});
    AlikeTotal(vs, ts, us, (evidence - {variable})[variable := false]);
    AlikeTotal(vs, ts, us, (evidence - {variable})[variable := true]);
  }
}
