/** Directed graphs given as edge lists, and the deterministic cycle-breaking
topological order of the attack graph (belief_attack_graph.go:232-288): take
the smallest id with no unprocessed predecessor, or, when there is none, force
the smallest remaining id. */
module Graphs {
  import opened Factors
  import opened Order
  import opened Lists

  datatype Edge = Edge(kind: string, from: string, to: string)

  // ----- walks and cycles -----

  ghost predicate Linked(edges: seq<Edge>, u: string, v: string) {
    exists e :: e in edges && e.from == u && e.to == v
  }

  ghost predicate IsWalk(edges: seq<Edge>, w: seq<string>) {
    w != [] && forall i :: 0 <= i < |w| - 1 ==> Linked(edges, w[i], w[i + 1])
  }

  ghost predicate IsCycle(edges: seq<Edge>, w: seq<string>) {
    |w| > 1 && IsWalk(edges, w) && w[0] == w[|w| - 1]
  }

  ghost predicate Cyclic(edges: seq<Edge>) {
    exists w :: IsCycle(edges, w)
  }

  /** `w` goes once round a cycle, up to position `j`, and then on to `v`. */
  ghost predicate LeadsFromCycle(edges: seq<Edge>, w: seq<string>, j: nat, v: string) {
    0 < j < |w| && IsWalk(edges, w) && w[0] == w[j] && w[|w| - 1] == v
  }

  /** `v` is reachable from a node on a cycle. */
  ghost predicate AfterCycle(edges: seq<Edge>, v: string) {
    exists w, j :: LeadsFromCycle(edges, w, j, v)
  }

  lemma AfterCycleCyclic(edges: seq<Edge>, v: string)
    requires AfterCycle(edges, v)
    ensures Cyclic(edges)
  {
    var w, j :| LeadsFromCycle(edges, w, j, v);
    assert IsCycle(edges, w[..j + 1]);
  }

  /** Ranks that increase along every edge leave no room for a cycle. */
  lemma {:induction false} WalkClimbs(edges: seq<Edge>, rank: map<string, int>, w: seq<string>)
    requires forall e :: e in edges ==> e.from in rank && e.to in rank && rank[e.from] < rank[e.to]
    requires |w| > 1 && IsWalk(edges, w)
    ensures w[0] in rank && w[|w| - 1] in rank && rank[w[0]] < rank[w[|w| - 1]]
  {
    assert Linked(edges, w[0], w[1]);
    if |w| > 2 {
      var rest := w[1..];
      forall i | 0 <= i < |rest| - 1 ensures Linked(edges, rest[i], rest[i + 1]) {
        assert Linked(edges, w[i + 1], w[i + 1 + 1]);
      }
      WalkClimbs(edges, rank, rest);
    }
  }

  lemma RankedAcyclic(edges: seq<Edge>, rank: map<string, int>)
    requires forall e :: e in edges ==> e.from in rank && e.to in rank && rank[e.from] < rank[e.to]
    ensures !Cyclic(edges)
  {
    forall w ensures !IsCycle(edges, w) {
      if IsCycle(edges, w) {
        WalkClimbs(edges, rank, w);
      }
    }
  }

  // ----- counting -----

  lemma LargerHasMore<T>(a: set<T>, b: set<T>) returns (x: T)
    requires |a| < |b|
    ensures x in b && x !in a
  {
    if b <= a {
      SubsetCount(b, a);
    }
    x :| x in b && x !in a;
  }

  lemma PigeonHole<T>(w: seq<T>, s: set<T>) returns (i: nat, j: nat)
    requires Elems(w) <= s && |w| > |s|
    ensures i < j < |w| && w[i] == w[j]
  {
    if NoDup(w) {
      ElemsCount(w);
      SubsetCount(Elems(w), s);
    }
    i, j :| 0 <= i < j < |w| && w[i] == w[j];
  }

  ghost predicate HasPredecessor(edges: seq<Edge>, rem: set<string>, v: string) {
    exists u :: u in rem && Linked(edges, u, v)
  }

  /** Every node of `rem` has a predecessor in `rem`. */
  ghost predicate Stuck(edges: seq<Edge>, rem: set<string>) {
    forall v {:trigger HasPredecessor(edges, rem, v)} :: v in rem ==> HasPredecessor(edges, rem, v)
  }

  lemma {:induction false} BackwardWalk(edges: seq<Edge>, rem: set<string>, v: string, n: nat) returns (w: seq<string>)
    requires Stuck(edges, rem) && v in rem
    ensures |w| == n + 1 && IsWalk(edges, w) && Elems(w) <= rem && w[n] == v
  {
    if n == 0 {
      w := [v];
    } else {
      var tail := BackwardWalk(edges, rem, v, n - 1);
      assert tail[0] in Elems(tail);
      assert HasPredecessor(edges, rem, tail[0]);
      var u :| u in rem && Linked(edges, u, tail[0]);
      w := [u] + tail;
      forall i | 0 <= i < |w| - 1 ensures Linked(edges, w[i], w[i + 1]) {
        if i > 0 {
          assert Linked(edges, tail[i - 1], tail[i - 1 + 1]);
        }
      }
    }
  }

  /** Where every node has a predecessor, walking backwards must meet a node
      twice: each node is reachable from a cycle. */
  lemma StuckAfterCycle(edges: seq<Edge>, rem: set<string>, v: string)
    requires Stuck(edges, rem) && v in rem
    ensures AfterCycle(edges, v)
  {
    var w := BackwardWalk(edges, rem, v, |rem|);
    var i, j := PigeonHole(w, rem);
    var tail := w[i..];
    forall k | 0 <= k < |tail| - 1 ensures Linked(edges, tail[k], tail[k + 1]) {
      assert Linked(edges, w[i + k], w[i + k + 1]);
    }
    assert LeadsFromCycle(edges, tail, j - i, v);
  }

  // ----- the cycle-breaking order -----

  function Remaining(ids: seq<string>, done: set<string>): (r: seq<string>)
    ensures forall x :: x in r <==> x in ids && x !in done
  {
    if ids == [] then []
    else
      var rest := Remaining(ids[1..], done);
      if ids[0] in done then rest else [ids[0]] + rest
  }

  /** No edge into `id` comes from a node that is not done yet. */
  predicate Ready(edges: seq<Edge>, id: string, done: set<string>) {
    forall e :: e in edges && e.to == id ==> e.from in done
  }

  function ReadyOf(ids: seq<string>, edges: seq<Edge>, done: set<string>): (r: seq<string>)
    ensures forall x :: x in r <==> x in ids && x !in done && Ready(edges, x, done)
  {
    if ids == [] then []
    else
      var rest := ReadyOf(ids[1..], edges, done);
      if ids[0] !in done && Ready(edges, ids[0], done) then [ids[0]] + rest else rest
  }

  function Pick(ids: seq<string>, edges: seq<Edge>, done: set<string>): (p: string)
    requires Remaining(ids, done) != []
    ensures p in ids && p !in done
    ensures ReadyOf(ids, edges, done) != [] ==> p in ReadyOf(ids, edges, done)
  {
    var ready := ReadyOf(ids, edges, done);
    if ready != [] then assert ready[0] in ready; ready[0]
    else
      var rem := Remaining(ids, done);
      assert rem[0] in rem;
      rem[0]
  }

  function PickOrder(ids: seq<string>, edges: seq<Edge>, done: set<string>): (order: seq<string>)
    ensures NoDup(order) && Elems(order) == Elems(ids) - done
    decreases Elems(ids) - done
  {
    if Remaining(ids, done) == [] then
      assert forall x :: x in ids && x !in done ==> x in Remaining(ids, done);
      []
    else
      var p := Pick(ids, edges, done);
      var rest := PickOrder(ids, edges, done + {p});
      assert forall x :: x in rest <==> x in Elems(rest);
      [p] + rest
  }

  /** When an edge does not go forward in the order, its head was forced, so
      it is reachable from a cycle. */
  lemma {:induction false} ForcedAfterCycle(ids: seq<string>, edges: seq<Edge>, done: set<string>, e: Edge)
    requires e in edges && e.from in ids && e.to in ids && e.from !in done && e.to !in done
    requires forall f :: f in edges ==> f.from in ids
    requires forall x :: x in PickOrder(ids, edges, done) <==> x in ids && x !in done
    requires IndexOf(PickOrder(ids, edges, done), e.from) >= IndexOf(PickOrder(ids, edges, done), e.to)
    ensures AfterCycle(edges, e.to)
    decreases Elems(ids) - done
  {
    var order := PickOrder(ids, edges, done);
    assert e.to in Remaining(ids, done);
    var p := Pick(ids, edges, done);
    assert order == [p] + PickOrder(ids, edges, done + {p});
    if p == e.to {
      NoneReady(ids, edges, done, e);
    } else {
      var rest := PickOrder(ids, edges, done + {p});
      assert order[1..] == rest;
      assert forall x :: x in rest <==> x in Elems(rest);
      assert p != e.from;
      ForcedAfterCycle(ids, edges, done + {p}, e);
    }
  }

  /** Each node is picked from what its predecessors in the order leave. */
  lemma {:induction false} PickOrderAt(ids: seq<string>, edges: seq<Edge>, done: set<string>, k: nat)
    requires k < |PickOrder(ids, edges, done)|
    ensures var order := PickOrder(ids, edges, done);
            && Remaining(ids, done + Elems(order[..k])) != []
            && order[k] == Pick(ids, edges, done + Elems(order[..k]))
    decreases k
  {
    var order, p := PickOrder(ids, edges, done), Pick(ids, edges, done);
    var rest := PickOrder(ids, edges, done + {p});
    assert order == [p] + rest;
    if k == 0 {
      assert done + Elems(order[..0]) == done;
    } else {
      PickOrderAt(ids, edges, done + {p}, k - 1);
      TakenSo(done, p, rest, k - 1);
    }
  }

  lemma TakenSo(done: set<string>, p: string, rest: seq<string>, k: nat)
    requires k <= |rest|
    ensures done + Elems(([p] + rest)[..k + 1]) == done + {p} + Elems(rest[..k])
  {
    assert ([p] + rest)[..k + 1] == [p] + rest[..k];
  }

  /** At position `k` of the order nothing was ready and the head of `e` was
      forced while its tail was still waiting. */
  ghost predicate ForcedAt(ids: seq<string>, edges: seq<Edge>, e: Edge, k: nat) {
    var order := PickOrder(ids, edges, {});
    k < |order| && order[k] == e.to && ReadyOf(ids, edges, Elems(order[..k])) == [] && e.from !in order[..k]
  }

  ghost predicate Forced(ids: seq<string>, edges: seq<Edge>, e: Edge) {
    exists k: nat :: ForcedAt(ids, edges, e, k)
  }

  lemma IndexOfEarlier(order: seq<string>, k: nat, x: string)
    requires NoDup(order) && k < |order| && x in order
    ensures IndexOf(order, order[k]) == k
    ensures IndexOf(order, x) < k <==> x in order[..k]
  {
    var i, j := IndexOf(order, x), IndexOf(order, order[k]);
    assert j == k;
    if i < k {
      assert order[..k][i] == x;
    }
    if x in order[..k] {
      var m :| 0 <= m < k && order[m] == x;
      assert m == i;
    }
  }

  /** An edge runs against the order exactly when its head was forced before
      its tail was picked. */
  lemma AgainstIffForced(ids: seq<string>, edges: seq<Edge>, e: Edge)
    requires e in edges && e.from in PickOrder(ids, edges, {}) && e.to in PickOrder(ids, edges, {})
    ensures var order := PickOrder(ids, edges, {});
            IndexOf(order, e.from) >= IndexOf(order, e.to) <==> Forced(ids, edges, e)
  {
    var order := PickOrder(ids, edges, {});
    var k := IndexOf(order, e.to);
    IndexOfEarlier(order, k, e.from);
    PickOrderAt(ids, edges, {}, k);
    var done := Elems(order[..k]);
    assert {} + done == done;
    if e.from !in order[..k] {
      assert !Ready(edges, e.to, done);
      assert ForcedAt(ids, edges, e, k);
    }
    forall j: nat | ForcedAt(ids, edges, e, j) ensures j == k {
      IndexOfEarlier(order, j, e.from);
    }
  }

  lemma NoneReady(ids: seq<string>, edges: seq<Edge>, done: set<string>, e: Edge)
    requires e in edges && e.from !in done && e.to in ids && e.to !in done
    requires forall f :: f in edges ==> f.from in ids
    requires Remaining(ids, done) != [] && Pick(ids, edges, done) == e.to
    ensures AfterCycle(edges, e.to)
  {
    var ready := ReadyOf(ids, edges, done);
    assert !Ready(edges, e.to, done);
    var rem := Elems(ids) - done;
    forall v | v in rem ensures HasPredecessor(edges, rem, v) {
      assert v !in ready;
      var f :| f in edges && f.to == v && f.from !in done;
      assert f.from in rem && Linked(edges, f.from, v);
    }
    StuckAfterCycle(edges, rem, e.to);
  }

  // ----- the order depends on the set of edges only -----

  lemma {:induction false} ReadyOfSame(ids: seq<string>, edges: seq<Edge>, edges': seq<Edge>, done: set<string>)
    requires forall e :: e in edges <==> e in edges'
    ensures ReadyOf(ids, edges, done) == ReadyOf(ids, edges', done)
  {
    if ids != [] {
      ReadyOfSame(ids[1..], edges, edges', done);
      assert Ready(edges, ids[0], done) == Ready(edges', ids[0], done);
    }
  }

  lemma {:induction false} PickOrderSame(ids: seq<string>, edges: seq<Edge>, edges': seq<Edge>, done: set<string>)
    requires forall e :: e in edges <==> e in edges'
    ensures PickOrder(ids, edges, done) == PickOrder(ids, edges', done)
    decreases Elems(ids) - done
  {
    if Remaining(ids, done) != [] {
      ReadyOfSame(ids, edges, edges', done);
      PickOrderSame(ids, edges, edges', done + {Pick(ids, edges, done)});
    }
  }

  lemma ForcedSame(ids: seq<string>, edges: seq<Edge>, edges': seq<Edge>, e: Edge)
    requires forall f :: f in edges <==> f in edges'
    ensures Forced(ids, edges, e) ==> Forced(ids, edges', e)
  {
    PickOrderSame(ids, edges, edges', {});
    if k: nat :| ForcedAt(ids, edges, e, k) {
      ReadyOfSame(ids, edges, edges', Elems(PickOrder(ids, edges, {})[..k]));
      assert ForcedAt(ids, edges', e, k);
    }
  }

  // ----- sorted edge lists (belief_attack_graph.go:210-220) -----

  predicate EdgeLess(e: Edge, f: Edge) {
    if e.from != f.from then Less(e.from, f.from)
    else if e.to != f.to then Less(e.to, f.to)
    else Less(e.kind, f.kind)
  }

  lemma EdgeLessTransitive(e: Edge, f: Edge, g: Edge)
    requires EdgeLess(e, f) && EdgeLess(f, g)
    ensures EdgeLess(e, g)
  {
    LessOrder(multiset{});
  }

  lemma EdgeLessTotal(e: Edge, f: Edge)
    ensures e == f || EdgeLess(e, f) || EdgeLess(f, e)
  {
    LessTotal(e.from, f.from);
    LessTotal(e.to, f.to);
    LessTotal(e.kind, f.kind);
  }

  lemma EdgeOrder(edges: multiset<Edge>)
    ensures StrictWeak(EdgeLess) && StrictOn(EdgeLess, edges)
  {
    forall e ensures !EdgeLess(e, e) { LessIrreflexive(e.kind); }
    forall e, f, g | EdgeLess(e, f) && EdgeLess(f, g) ensures EdgeLess(e, g) { EdgeLessTransitive(e, f, g); }
    forall e, f ensures e == f || EdgeLess(e, f) || EdgeLess(f, e) { EdgeLessTotal(e, f); }
    forall e, f, g | EdgeLess(e, g) ensures EdgeLess(e, f) || EdgeLess(f, g) {
      EdgeLessTotal(e, f);
    }
  }

  function SortEdges(edges: seq<Edge>): (r: seq<Edge>)
    ensures multiset(r) == multiset(edges)
  {
    Sort(EdgeLess, edges)
  }

  lemma SortEdgesCanonical(edges: seq<Edge>, edges': seq<Edge>)
    requires multiset(edges) == multiset(edges')
    ensures SortEdges(edges) == SortEdges(edges')
  {
    EdgeOrder(multiset(edges));
    SortCanonical(EdgeLess, edges, edges');
  }
}
