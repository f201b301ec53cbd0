/** Which order the sampler's sweeps give (internal/engine/brain/bamcp.go:788-848):
a function of the names and causes alone, and when it is the documented one,
"the smallest ready name first". */
module SweepOrder {
  import opened Factors
  import opened Order
  import opened Lists
  import opened Graphs
  import opened Sampler
  import opened TopoOrder

  // ----- the order depends on the sets only -----

  lemma {:induction false} SweepSame(names: seq<string>, edges: seq<Edge>, edges': seq<Edge>, done: set<string>, i: nat,
                                     moved: bool)
    requires i <= |names| && forall e :: e in edges <==> e in edges'
    ensures SweepFrom(names, edges, done, i, moved) == SweepFrom(names, edges', done, i, moved)
    decreases Elems(names) - done, if moved then 1 else 0, |names| - i
  {
    if i == |names| {
      if moved {
        SweepSame(names, edges, edges', done, 0, false);
      }
    } else {
      assert Ready(edges, names[i], done) == Ready(edges', names[i], done);
      if Available(names, edges, done, i) {
        assert names[i] in Elems(names) - done;
        SweepSame(names, edges, edges', done + {names[i]}, i + 1, true);
      } else {
        SweepSame(names, edges, edges', done, i + 1, moved);
      }
    }
  }

  /** Variables listed in another order are sampled in the same order. */
  lemma OrderRelisted(vars: seq<Var>, vars': seq<Var>)
    requires multiset(vars) == multiset(vars')
    ensures SweptOrder(SortStrings(NamesOf(vars)), CauseEdges(vars))
         == SweptOrder(SortStrings(NamesOf(vars')), CauseEdges(vars'))
  {
    var f := (v: Var) => v.name;
    assert NamesOf(vars) == Image(f, vars) && NamesOf(vars') == Image(f, vars');
    ImagePermuted(f, vars, vars');
    SortStringsCanonical(NamesOf(vars), NamesOf(vars'));
    forall e ensures e in CauseEdges(vars) <==> e in CauseEdges(vars') {
      EdgesRelisted(vars, vars', e);
      EdgesRelisted(vars', vars, e);
    }
    SweepSame(SortStrings(NamesOf(vars)), CauseEdges(vars), CauseEdges(vars'), {}, 0, false);
  }

  lemma EdgesRelisted(vars: seq<Var>, vars': seq<Var>, e: Edge)
    requires multiset(vars) == multiset(vars')
    ensures e in CauseEdges(vars) ==> e in CauseEdges(vars')
  {
    CauseEdgesInside(vars, e);
    CauseEdgesInside(vars', e);
    if e in CauseEdges(vars) {
      var v :| v in vars && e in OwnEdges(v);
      InSame(vars, vars', v);
    }
  }

  // ----- the documented order -----

  /** The first available position, or the end. */
  function FirstFrom(names: seq<string>, edges: seq<Edge>, done: set<string>, i: nat): (m: nat)
    requires i <= |names|
    ensures i <= m <= |names|
    ensures m < |names| ==> Available(names, edges, done, m)
    ensures forall j :: i <= j < m ==> !Available(names, edges, done, j)
    decreases |names| - i
  {
    if i == |names| || Available(names, edges, done, i) then i else FirstFrom(names, edges, done, i + 1)
  }

  /** Always the smallest ready name; `names` are sorted. */
  function SmallestFirst(names: seq<string>, edges: seq<Edge>, done: set<string>): seq<string>
    decreases Elems(names) - done
  {
    var m := FirstFrom(names, edges, done, 0);
    if m == |names| then []
    else
      assert names[m] in Elems(names) - done;
      [names[m]] + SmallestFirst(names, edges, done + {names[m]})
  }

  /** A name behind the sweep and one ahead of it are both ready. */
  ghost predicate Overtakes(names: seq<string>, edges: seq<Edge>, done: set<string>, i: nat) {
    exists a, z :: a < i <= z && Available(names, edges, done, a) && Available(names, edges, done, z)
  }

  /** Taking the smallest ready name each time, starting behind position `i`,
      never leaves a ready name on either side of the one just taken. */
  ghost predicate Straight(names: seq<string>, edges: seq<Edge>, done: set<string>, i: nat)
    decreases Elems(names) - done
  {
    var m := FirstFrom(names, edges, done, 0);
    m == |names|
    || (assert names[m] in Elems(names) - done;
        !Overtakes(names, edges, done, i) && Straight(names, edges, done + {names[m]}, m + 1))
  }

  /** Nothing between `i` and `m` is available: the sweep goes on at `m`. */
  lemma {:induction false} ScanTo(names: seq<string>, edges: seq<Edge>, done: set<string>, i: nat, moved: bool, m: nat)
    requires i <= m <= |names| && forall j :: i <= j < m ==> !Available(names, edges, done, j)
    ensures SweepFrom(names, edges, done, i, moved) == SweepFrom(names, edges, done, m, moved)
    decreases m - i
  {
    if i < m {
      ScanTo(names, edges, done, i + 1, moved, m);
    }
  }

  lemma {:induction false} AgreeFrom(names: seq<string>, edges: seq<Edge>, done: set<string>, i: nat, moved: bool)
    requires NoDup(names) && i <= |names|
    requires !moved ==> forall j :: 0 <= j < i ==> !Available(names, edges, done, j)
    ensures SweepFrom(names, edges, done, i, moved) == SmallestFirst(names, edges, done)
       <==> Straight(names, edges, done, i)
    decreases Elems(names) - done
  {
    var m, z := FirstFrom(names, edges, done, 0), FirstFrom(names, edges, done, i);
    ScanTo(names, edges, done, i, moved, z);
    ScanTo(names, edges, done, 0, false, m);
    if m < |names| {
      assert names[m] in Elems(names) - done;
      var after := done + {names[m]};
      AgreeFrom(names, edges, after, m + 1, true);
      if m < i && z < |names| {
        assert Overtakes(names, edges, done, i);
        assert SweepFrom(names, edges, done, i, moved)[0] == names[z] != names[m];
      } else {
        assert Available(names, edges, done, m);
        assert SweepFrom(names, edges, done, i, moved) == [names[m]] + SweepFrom(names, edges, after, m + 1, true);
        SameTails(names[m], SweepFrom(names, edges, after, m + 1, true), SmallestFirst(names, edges, after));
        assert !Overtakes(names, edges, done, i);
      }
    }
  }

  lemma SameTails(x: string, s: seq<string>, t: seq<string>)
    ensures [x] + s == [x] + t <==> s == t
  {
    assert s == ([x] + s)[1..] && t == ([x] + t)[1..];
  }

  /** The sweeps give the documented order exactly when no sweep goes on to a
      later name while an earlier one has become ready. */
  lemma SmallestFirstIff(names: seq<string>, edges: seq<Edge>)
    requires NoDup(names)
    ensures SweepFrom(names, edges, {}, 0, false) == SmallestFirst(names, edges, {})
       <==> Straight(names, edges, {}, 0)
  {
    AgreeFrom(names, edges, {}, 0, false);
  }

  /** In particular when every effect has a larger name than its causes. */
  lemma {:induction false} AscendingStraight(names: seq<string>, edges: seq<Edge>, done: set<string>, i: nat)
    requires NoDup(names) && i <= |names| && Sorted(Less, names)
    requires forall e :: e in edges ==> Less(e.from, e.to)
    requires forall j :: 0 <= j < i ==> !Available(names, edges, done, j)
    ensures Straight(names, edges, done, i)
    decreases Elems(names) - done
  {
    var m := FirstFrom(names, edges, done, 0);
    if m < |names| {
      assert names[m] in Elems(names) - done;
      var after := done + {names[m]};
      forall j | 0 <= j < m + 1 ensures !Available(names, edges, after, j) {
        assert j < m ==> !Available(names, edges, done, j) && !Less(names[m], names[j]);
      }
      AscendingStraight(names, edges, after, m + 1);
    }
  }

  /** With `a` caused by `b`, the first sweep goes on from `b` to `c`. */
  lemma SweepPassesBy(a: string, b: string, c: string)
    requires a != b && a != c && b != c
    ensures SweepFrom([a, b, c], [Edge("", b, a)], {}, 0, false) == [b, c, a]
    ensures SmallestFirst([a, b, c], [Edge("", b, a)], {}) == [b, a, c]
  {
    var names, edges := [a, b, c], [Edge("", b, a)];
    assert edges[0] in edges;
    assert !Available(names, edges, {}, 0) && Available(names, edges, {}, 1);
    assert Available(names, edges, {b}, 0) && Available(names, edges, {b}, 2);
    assert Available(names, edges, {b, c}, 0) && Available(names, edges, {a, b}, 2);
    assert !Available(names, edges, {a, b}, 0) && !Available(names, edges, {a, b}, 1);
    assert {} + {b} == {b} && {b} + {c} == {b, c} && {b} + {a} == {a, b};
    Swept(names, edges, a, b, c);
    Smallest(names, edges, a, b, c);
  }

  lemma Swept(names: seq<string>, edges: seq<Edge>, a: string, b: string, c: string)
    requires names == [a, b, c]
    requires !Available(names, edges, {}, 0) && Available(names, edges, {}, 1) && Available(names, edges, {b}, 2)
    requires Available(names, edges, {b, c}, 0)
    ensures SweepFrom(names, edges, {}, 0, false) == [b, c, a]
  {
    assert {} + {b} == {b} && {b} + {c} == {b, c};
    SweepDone(names, edges, {b, c} + {a}, 1, true);
    assert SweepFrom(names, edges, {b, c}, 0, false) == [a];
    assert SweepFrom(names, edges, {b, c}, 3, true) == [a];
    assert SweepFrom(names, edges, {b}, 2, true) == [c, a];
    assert SweepFrom(names, edges, {}, 1, false) == [b, c, a];
  }

  lemma Smallest(names: seq<string>, edges: seq<Edge>, a: string, b: string, c: string)
    requires names == [a, b, c]
    requires !Available(names, edges, {}, 0) && Available(names, edges, {}, 1) && Available(names, edges, {b}, 0)
    requires !Available(names, edges, {a, b}, 0) && !Available(names, edges, {a, b}, 1)
    requires Available(names, edges, {a, b}, 2)
    ensures SmallestFirst(names, edges, {}) == [b, a, c]
  {
    assert {} + {b} == {b} && {b} + {a} == {a, b};
    var all := {a, b} + {c};
    assert FirstFrom(names, edges, all, 0) == 3;
    assert SmallestFirst(names, edges, all) == [];
    assert FirstFrom(names, edges, {a, b}, 0) == 2;
    assert SmallestFirst(names, edges, {a, b}) == [c];
    assert FirstFrom(names, edges, {b}, 0) == 0;
    assert SmallestFirst(names, edges, {b}) == [a, c];
    assert FirstFrom(names, edges, {}, 0) == 1;
  }
}
