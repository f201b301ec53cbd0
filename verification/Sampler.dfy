/** The world sampler of the planner (internal/engine/brain/bamcp.go:861-899).

With every strength fixed, the sampler is a program that flips coins.  `Dist`
is the tree of its flips: `Prob` gives the probability of an outcome and
`Follow` the outcome for one tape of random numbers.  The sampler is proved to
follow the tree, and the tree to have the probabilities of the noisy-OR
network. */
module Sampler {
  import opened Factors
  import opened Order
  import opened Tables
  import NoisyOr

  datatype Dist<T> = Sure(value: T) | Flip(p: real, yes: Dist<T>, no: Dist<T>)

  function Prob<T(==)>(d: Dist<T>, v: T): real {
    match d
    case Sure(x) => if x == v then 1.0 else 0.0
    case Flip(p, yes, no) => Times(p, Prob(yes, v)) + Times(1.0 - p, Prob(no, v))
  }

  function Bind<T, U>(d: Dist<T>, f: T -> Dist<U>): Dist<U> {
    match d
    case Sure(x) => f(x)
    case Flip(p, yes, no) => Flip(p, Bind(yes, f), Bind(no, f))
  }

  /** The outcome for a tape read from position `at`, and where it ends: a coin
      with bias `p` shows "yes" when the next number is below `p`. */
  function Follow<T>(d: Dist<T>, tape: nat -> real, at: nat): (T, nat) {
    match d
    case Sure(x) => (x, at)
    case Flip(p, yes, no) => if tape(at) < p then Follow(yes, tape, at + 1) else Follow(no, tape, at + 1)
  }

  lemma {:induction false} FollowBind<T, U>(d: Dist<T>, f: T -> Dist<U>, tape: nat -> real, at: nat)
    ensures Follow(Bind(d, f), tape, at) == Follow(f(Follow(d, tape, at).0), tape, Follow(d, tape, at).1)
  {
    if d.Flip? {
      FollowBind(d.yes, f, tape, at + 1);
      FollowBind(d.no, f, tape, at + 1);
    }
  }

  lemma {:induction false} ProbSplit(d: Dist<bool>)
    ensures Prob(d, true) + Prob(d, false) == 1.0
  {
    match d {
      case Sure(b) =>
        assert b == true || b == false;
      case Flip(p, yes, no) =>
        ProbSplit(yes);
        ProbSplit(no);
        TimesDistribute(Prob(yes, true), Prob(yes, false), p);
        TimesDistribute(Prob(no, true), Prob(no, false), 1.0 - p);
        TimesUnit(p);
        TimesUnit(1.0 - p);
    }
  }

  lemma {:induction false} ProbBind<U>(d: Dist<bool>, f: bool -> Dist<U>, v: U)
    ensures Prob(Bind(d, f), v) == Times(Prob(d, true), Prob(f(true), v)) + Times(Prob(d, false), Prob(f(false), v))
  {
    var x, y := Prob(f(true), v), Prob(f(false), v);
    match d {
      case Sure(b) =>
        TimesUnit(x);
        TimesUnit(y);
        TimesZero(x);
        TimesZero(y);
      case Flip(p, yes, no) =>
        ProbBind(yes, f, v);
        ProbBind(no, f, v);
        Regroup(p, Prob(yes, true), Prob(yes, false), Prob(no, true), Prob(no, false), x, y);
    }
  }

  lemma Regroup(p: real, a: real, b: real, c: real, d: real, x: real, y: real)
    ensures Times(p, Times(a, x) + Times(b, y)) + Times(1.0 - p, Times(c, x) + Times(d, y))
         == Times(Times(p, a) + Times(1.0 - p, c), x) + Times(Times(p, b) + Times(1.0 - p, d), y)
  {
    var q := 1.0 - p;
    TimesDistribute(Times(a, x), Times(b, y), p);
    TimesDistribute(Times(c, x), Times(d, y), q);
    TimesAssoc(p, a, x);
    TimesAssoc(p, b, y);
    TimesAssoc(q, c, x);
    TimesAssoc(q, d, y);
    TimesDistribute(Times(p, a), Times(q, c), x);
    TimesDistribute(Times(p, b), Times(q, d), y);
  }

  // ----- one variable (bamcp.go:880-899) -----

  function CauseDist(causes: seq<NoisyOr.Cause>, realized: Assignment): Dist<bool> {
    if causes == [] then Sure(false)
    else
      var rest := CauseDist(causes[1..], realized);
      if Val(realized, causes[0].parent) then Flip(causes[0].strength, Sure(true), rest) else rest
  }

  /** The leak first, then each active cause in turn, until one fires. */
  function VariableDist(t: Table, realized: Assignment): Dist<bool> {
    Flip(t.leak, Sure(true), CauseDist(t.causes, realized))
  }

  lemma CauseProb(causes: seq<NoisyOr.Cause>, a: Assignment)
    requires causes != []
    ensures Prob(CauseDist(causes, a), false) == Times(Survives(causes[0], a), Prob(CauseDist(causes[1..], a), false))
  {
    TimesZero(causes[0].strength);
    TimesUnit(Prob(CauseDist(causes[1..], a), false));
  }

  lemma {:induction false} CauseOff(causes: seq<NoisyOr.Cause>, leak: real, a: Assignment)
    ensures Times(1.0 - leak, Prob(CauseDist(causes, a), false)) == NoisyOr.Off(causes, leak, a)
  {
    if causes == [] {
      TimesUnit(1.0 - leak);
    } else {
      assert NoisyOr.Off(causes, leak, a) == Times(NoisyOr.Off(causes[1..], leak, a), Survives(causes[0], a)) by {
        OffRemove(causes, leak, a, 0);
        assert RemoveAt(causes, 0) == causes[1..];
      }
      CauseOff(causes[1..], leak, a);
      CauseProb(causes, a);
      var off, s := Prob(CauseDist(causes[1..], a), false), Survives(causes[0], a);
      TimesAssoc(1.0 - leak, off, s);
      TimesComm(off, s);
    }
  }

  /** Stopping at the first cause that fires is exactly noisy-OR. */
  lemma VariableProb(t: Table, realized: Assignment, b: bool)
    ensures Prob(VariableDist(t, realized), b) == NoisyOr.Branch(b, NoisyOr.Off(t.causes, t.leak, realized))
  {
    CauseOff(t.causes, t.leak, realized);
    TimesZero(t.leak);
    ProbSplit(VariableDist(t, realized));
  }

  // ----- a world (bamcp.go:861-875) -----

  function WorldDist(ts: seq<Table>, realized: Assignment): Dist<Assignment>
    decreases |ts|
  {
    if ts == [] then Sure(realized)
    else Bind(VariableDist(ts[0], realized), b => WorldDist(ts[1..], realized[ts[0].variable := b]))
  }

  function Subjects(ts: seq<Table>): set<string> {
    set t | t in ts :: t.variable
  }

  /** Every cause is realized before its effect. */
  ghost predicate CausesFirst(ts: seq<Table>, realized: set<string>)
    decreases |ts|
  {
    ts == [] || (NoisyOr.ParentSet(ts[0].causes) <= realized && CausesFirst(ts[1..], realized + {ts[0].variable}))
  }

  ghost predicate Completes(w: Assignment, realized: Assignment, ts: seq<Table>) {
    && w.Keys == realized.Keys + Subjects(ts)
    && forall x :: x in realized ==> x in w && w[x] == realized[x]
  }

  lemma {:induction false} OffFrame(causes: seq<NoisyOr.Cause>, leak: real, a: Assignment, b: Assignment)
    requires forall c :: c in causes ==> Val(a, c.parent) == Val(b, c.parent)
    ensures NoisyOr.Off(causes, leak, a) == NoisyOr.Off(causes, leak, b)
  {
    if causes != [] {
      var last := causes[|causes| - 1];
      assert last in causes;
      OffFrame(causes[..|causes| - 1], leak, a, b);
    }
  }

  lemma VariableFactor(t: Table, realized: Assignment, w: Assignment)
    requires t.variable in w && NoisyOr.ParentSet(t.causes) <= realized.Keys
    requires forall x :: x in realized ==> x in w && w[x] == realized[x]
    ensures Prob(VariableDist(t, realized), w[t.variable]) == t.Probability(w)
  {
    VariableProb(t, realized, w[t.variable]);
    forall c | c in t.causes ensures Val(realized, c.parent) == Val(w, c.parent) {
      assert c.parent in NoisyOr.ParentSet(t.causes);
    }
    OffFrame(t.causes, t.leak, realized, w);
  }

  lemma CompletesStep(w: Assignment, realized: Assignment, ts: seq<Table>, b: bool)
    requires ts != [] && ts[0].variable !in realized
    ensures Completes(w, realized[ts[0].variable := b], ts[1..])
        <==> Completes(w, realized, ts) && w[ts[0].variable] == b
  {
    var v := ts[0].variable;
    assert Subjects(ts) == {v} + Subjects(ts[1..]) by {
      assert ts == [ts[0]] + ts[1..];
    }
    var next := realized[v := b];
    if Completes(w, next, ts[1..]) {
      assert v in next;
      assert forall x :: x in realized ==> x in next && next[x] == realized[x];
    }
  }

  /** The probability of sampling a world is the product of the closed-form
      tables, for every order that realizes causes first. */
  lemma {:induction false} WorldProb(ts: seq<Table>, realized: Assignment, w: Assignment)
    requires CausesFirst(ts, realized.Keys)
    requires forall i, j :: 0 <= i < j < |ts| ==> ts[i].variable != ts[j].variable
    requires forall t :: t in ts ==> t.variable !in realized
    ensures Prob(WorldDist(ts, realized), w) == if Completes(w, realized, ts) then Joint(ts, w) else 0.0
    decreases |ts|
  {
    if ts == [] {
      assert Completes(w, realized, ts) <==> w == realized;
    } else {
      WorldProbStep(ts, realized, w, true);
      WorldProbStep(ts, realized, w, false);
      var d := VariableDist(ts[0], realized);
      ProbBind(d, b => WorldDist(ts[1..], realized[ts[0].variable := b]), w);
      TimesZero(Prob(d, true));
      TimesZero(Prob(d, false));
      if Completes(w, realized, ts) {
        assert ts[0].variable in w by {
          assert ts[0] in ts;
        }
        VariableFactor(ts[0], realized, w);
      }
    }
  }

  lemma WorldFromNothing(ts: seq<Table>, w: Assignment)
    requires CausesFirst(ts, {})
    requires forall i, j :: 0 <= i < j < |ts| ==> ts[i].variable != ts[j].variable
    ensures Prob(WorldDist(ts, map[]), w) == if w.Keys == Subjects(ts) then Joint(ts, w) else 0.0
  {
    var none: Assignment := map[];
    assert none.Keys == {};
    WorldProb(ts, none, w);
  }

  lemma WorldProbStep(ts: seq<Table>, realized: Assignment, w: Assignment, b: bool)
    requires ts != [] && CausesFirst(ts, realized.Keys)
    requires forall i, j :: 0 <= i < j < |ts| ==> ts[i].variable != ts[j].variable
    requires forall t :: t in ts ==> t.variable !in realized
    ensures Prob(WorldDist(ts[1..], realized[ts[0].variable := b]), w)
         == if Completes(w, realized, ts) && w[ts[0].variable] == b then Joint(ts[1..], w) else 0.0
    decreases |ts|, 0
  {
    assert ts[0] in ts;
    CompletesStep(w, realized, ts, b);
    assert realized[ts[0].variable := b].Keys == realized.Keys + {ts[0].variable};
    forall t | t in ts[1..] ensures t.variable !in realized[ts[0].variable := b] {
      var i :| 0 < i < |ts| && ts[i] == t;
    }
    WorldProb(ts[1..], realized[ts[0].variable := b], w);
  }

  // ----- the order of the tables is irrelevant to the product -----

  lemma {:induction false} JointRemove(ts: seq<Table>, w: Assignment, i: nat)
    requires i < |ts|
    ensures Joint(ts, w) == Times(ts[i].Probability(w), Joint(RemoveAt(ts, i), w))
  {
    if i == 0 {
      assert RemoveAt(ts, 0) == ts[1..];
    } else {
      JointRemove(ts[1..], w, i - 1);
      var rest := RemoveAt(ts, i);
      assert rest[0] == ts[0] && rest[1..] == RemoveAt(ts[1..], i - 1);
      var x, y, z := ts[0].Probability(w), ts[i].Probability(w), Joint(RemoveAt(ts[1..], i - 1), w);
      TimesAssoc(x, y, z);
      TimesComm(x, y);
      TimesAssoc(y, x, z);
    }
  }

  lemma {:induction false} JointPermutation(ts: seq<Table>, us: seq<Table>, w: Assignment)
    requires multiset(ts) == multiset(us)
    ensures Joint(ts, w) == Joint(us, w)
    decreases |ts|
  {
    if ts == [] {
      assert |multiset(us)| == 0;
    } else {
      var n := |ts| - 1;
      var i := MatchLast(ts, us);
      JointPermutation(ts[..n], RemoveAt(us, i), w);
      JointRemove(us, w, i);
      JointRemove(ts, w, n);
      assert RemoveAt(ts, n) == ts[..n];
    }
  }

  // ----- the sampler itself -----

  /** A grounded variable; its strengths are point values here. */
  datatype Var = Var(name: string, leak: real, intra: seq<NoisyOr.Cause>, edges: seq<NoisyOr.Cause>) {
    function Causes(): seq<NoisyOr.Cause> {
      intra + edges
    }

    function Table(): Table {
      Tables.Table(name, Causes(), leak)
    }
  }

  /** A source of random numbers: a tape and a position on it. */
  class Rng {
    const tape: nat -> real
    var at: nat

    constructor (tape: nat -> real)
      ensures this.tape == tape && at == 0
    {
      this.tape, at := tape, 0;
    }

    method Float64() returns (u: real)
      modifies this
      ensures u == tape(old(at)) && at == old(at) + 1
    {
      u := tape(at);
      at := at + 1;
    }
  }

  lemma {:induction false} CauseDistAppend(cs: seq<NoisyOr.Cause>, ds: seq<NoisyOr.Cause>, realized: Assignment,
                                           tape: nat -> real, at: nat)
    ensures Follow(CauseDist(cs + ds, realized), tape, at)
         == var (fired, next) := Follow(CauseDist(cs, realized), tape, at);
            if fired then (true, next) else Follow(CauseDist(ds, realized), tape, next)
  {
    if cs == [] {
      assert cs + ds == ds;
    } else {
      assert (cs + ds)[1..] == cs[1..] + ds && (cs + ds)[0] == cs[0];
      CauseDistAppend(cs[1..], ds, realized, tape, at);
      CauseDistAppend(cs[1..], ds, realized, tape, at + 1);
    }
  }

  method SampleCauses(causes: seq<NoisyOr.Cause>, realized: Assignment, rng: Rng) returns (fired: bool)
    modifies rng
    ensures (fired, rng.at) == Follow(CauseDist(causes, realized), rng.tape, old(rng.at))
  {
    var rest := causes;
    while rest != []
      invariant Follow(CauseDist(rest, realized), rng.tape, rng.at)
             == Follow(CauseDist(causes, realized), rng.tape, old(rng.at))
      decreases |rest|
    {
      if Val(realized, rest[0].parent) {
        var u := rng.Float64();
        if u < rest[0].strength {
          return true;
        }
      }
      rest := rest[1..];
    }
    return false;
  }

  method SampleVariable(v: Var, realized: Assignment, rng: Rng) returns (b: bool)
    modifies rng
    ensures (b, rng.at) == Follow(VariableDist(v.Table(), realized), rng.tape, old(rng.at))
  {
    var u := rng.Float64();
    if u < v.leak {
      return true;
    }
    CauseDistAppend(v.intra, v.edges, realized, rng.tape, rng.at);
    b := SampleCauses(v.intra, realized, rng);
    if !b {
      b := SampleCauses(v.edges, realized, rng);
    }
  }

  function ByName(vars: seq<Var>): map<string, Var> {
    if vars == [] then map[] else map[vars[0].name := vars[0]] + ByName(vars[1..])
  }

  /** The tables of the named variables in the order of the names. */
  function InOrder(byName: map<string, Var>, order: seq<string>): seq<Table> {
    if order == [] then []
    else (if order[0] in byName then [byName[order[0]].Table()] else []) + InOrder(byName, order[1..])
  }

  ghost predicate Distinct(vars: seq<Var>) {
    forall i, j :: 0 <= i < j < |vars| ==> vars[i].name != vars[j].name
  }

  lemma {:induction false} ByNameHas(vars: seq<Var>, v: Var)
    requires v in vars && Distinct(vars)
    ensures v.name in ByName(vars) && ByName(vars)[v.name] == v
  {
    ByNameKeys(vars[1..]);
    if v != vars[0] {
      ByNameHas(vars[1..], v);
    }
  }

  lemma {:induction false} ByNameKeys(vars: seq<Var>)
    ensures forall x :: x in ByName(vars) ==> ByName(vars)[x] in vars && ByName(vars)[x].name == x
  {
    if vars != [] {
      ByNameKeys(vars[1..]);
    }
  }

  lemma FollowWorld(t: Table, tail: seq<Table>, realized: Assignment, tape: nat -> real, at: nat)
    ensures Follow(WorldDist([t] + tail, realized), tape, at)
         == var (b, next) := Follow(VariableDist(t, realized), tape, at);
            Follow(WorldDist(tail, realized[t.variable := b]), tape, next)
  {
    var ts := [t] + tail;
    assert ts[1..] == tail;
    FollowBind(VariableDist(ts[0], realized), b => WorldDist(ts[1..], realized[ts[0].variable := b]), tape, at);
  }

  method SampleWorld(vars: seq<Var>, order: seq<string>, rng: Rng) returns (realized: Assignment)
    modifies rng
    ensures (realized, rng.at) == Follow(WorldDist(InOrder(ByName(vars), order), map[]), rng.tape, old(rng.at))
  {
    var byName := IndexVars(vars);
    realized := map[];
    var rest := order;
    while rest != []
      invariant Follow(WorldDist(InOrder(byName, rest), realized), rng.tape, rng.at)
             == Follow(WorldDist(InOrder(byName, order), map[]), rng.tape, old(rng.at))
      decreases |rest|
    {
      var name := rest[0];
      if name in byName {
        ghost var tail := InOrder(byName, rest[1..]);
        ghost var t := byName[name].Table();
        assert InOrder(byName, rest) == [t] + tail;
        assert byName[name].name == name by {
          ByNameKeys(vars);
        }
        FollowWorld(t, tail, realized, rng.tape, rng.at);
        var b := SampleVariable(byName[name], realized, rng);
        realized := realized[name := b];
      } else {
        assert InOrder(byName, rest) == InOrder(byName, rest[1..]);
      }
      rest := rest[1..];
    }
  }

  method IndexVars(vars: seq<Var>) returns (byName: map<string, Var>)
    ensures byName == ByName(vars)
  {
    byName := map[];
    var rest := vars;
    while rest != []
      invariant byName + ByName(rest) == ByName(vars)
    {
      assert byName[rest[0].name := rest[0]] + ByName(rest[1..]) == byName + ByName(rest);
      byName := byName[rest[0].name := rest[0]];
      rest := rest[1..];
    }
  }
}
