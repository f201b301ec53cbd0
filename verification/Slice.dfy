/** Bounded slices of the attack graph (internal/engine/brain/belief_slice.go):
the ancestors of a target within a hop bound, trimmed to a node budget by
relevance, with their induced edges made acyclic. */
module Slice {
  import opened Factors
  import opened Order
  import opened Graphs
  import opened Lists
  import opened AttackGraph

  datatype Options = Options(maxDepth: int, nodeBudget: int)

  // ----- backward distance -----

  /** The known nodes that reach `target` in at most `k` hops. */
  ghost function Ball(edges: seq<Edge>, known: set<string>, target: string, k: nat): set<string> {
    if k == 0 then {target}
    else
      var inner := Ball(edges, known, target, k - 1);
      inner + Sources(edges, known, inner)
  }

  /** The known nodes with an edge into the set. */
  ghost function Sources(edges: seq<Edge>, known: set<string>, heads: set<string>): set<string> {
    set e | e in edges && e.to in heads && e.from in known :: e.from
  }

  /** A walk of known nodes from `x` to `target` with at most `k` hops. */
  ghost predicate Approach(edges: seq<Edge>, known: set<string>, x: string, target: string, k: nat, w: seq<string>) {
    && IsWalk(edges, w) && |w| <= k + 1 && w[0] == x && w[|w| - 1] == target
    && Elems(w) <= known
  }

  lemma {:induction false} BallWalk(edges: seq<Edge>, known: set<string>, target: string, k: nat, x: string)
    returns (w: seq<string>)
    requires target in known && x in Ball(edges, known, target, k)
    ensures Approach(edges, known, x, target, k, w)
  {
    if k == 0 {
      w := [target];
    } else if x in Ball(edges, known, target, k - 1) {
      w := BallWalk(edges, known, target, k - 1, x);
    } else {
      var e :| e in edges && e.to in Ball(edges, known, target, k - 1) && e.from in known && e.from == x;
      var tail := BallWalk(edges, known, target, k - 1, e.to);
      w := [x] + tail;
      assert Linked(edges, x, e.to);
      forall i | 0 <= i < |w| - 1 ensures Linked(edges, w[i], w[i + 1]) {
        if i > 0 {
          assert Linked(edges, tail[i - 1], tail[i - 1 + 1]);
        }
      }
    }
  }

  lemma {:induction false} WalkBall(edges: seq<Edge>, known: set<string>, target: string, k: nat, w: seq<string>)
    requires IsWalk(edges, w) && |w| <= k + 1 && w[|w| - 1] == target && Elems(w) <= known
    ensures w[0] in Ball(edges, known, target, k)
    decreases k, |w|
  {
    if |w| > 1 {
      var tail := w[1..];
      forall i | 0 <= i < |tail| - 1 ensures Linked(edges, tail[i], tail[i + 1]) {
        assert Linked(edges, w[i + 1], w[i + 1 + 1]);
      }
      WalkBall(edges, known, target, k - 1, tail);
      assert Linked(edges, w[0], w[1]);
      assert w[0] in Elems(w);
    } else if k > 0 {
      WalkBall(edges, known, target, k - 1, w);
    }
  }

  /** The balls are the hop-bounded ancestors: membership is the existence of
      a short enough walk. */
  lemma BallIsReach(edges: seq<Edge>, known: set<string>, target: string, k: nat, x: string)
    requires target in known
    ensures x in Ball(edges, known, target, k) <==> exists w :: Approach(edges, known, x, target, k, w)
  {
    if x in Ball(edges, known, target, k) {
      var w := BallWalk(edges, known, target, k, x);
    }
    forall w | Approach(edges, known, x, target, k, w) ensures x in Ball(edges, known, target, k) {
      WalkBall(edges, known, target, k, w);
    }
  }

  predicate Allowed(maxDepth: int, k: int) {
    maxDepth <= 0 || k <= maxDepth
  }

  /** `k` is the shortest backward distance of `x` from the target. */
  ghost predicate Distance(edges: seq<Edge>, known: set<string>, target: string, x: string, k: int) {
    && k >= 0 && x in Ball(edges, known, target, k)
    && forall j :: 0 <= j < k ==> x !in Ball(edges, known, target, j)
  }

  ghost predicate Near(edges: seq<Edge>, known: set<string>, target: string, maxDepth: int, x: string) {
    exists k: nat :: Allowed(maxDepth, k) && x in Ball(edges, known, target, k)
  }

  // ----- breadth-first search (belief_slice.go:97-128) -----

  /** Discovered distances are lengths of real walks within the bound. */
  ghost predicate Sound(edges: seq<Edge>, known: set<string>, target: string, maxDepth: int, depth: map<string, int>) {
    && target in depth && depth[target] == 0
    && depth.Keys <= known
    && forall x :: x in depth ==> Placed(edges, known, target, maxDepth, x, depth[x])
  }

  ghost predicate Placed(edges: seq<Edge>, known: set<string>, target: string, maxDepth: int, x: string, d: int) {
    d >= 0 && Allowed(maxDepth, d) && x in Ball(edges, known, target, d)
  }

  /** The queue holds distances in order, spanning at most two layers. */
  ghost predicate Layered(depth: map<string, int>, queue: seq<string>) {
    && Elems(queue) <= depth.Keys
    && (forall i, j :: 0 <= i < j < |queue| ==> depth[queue[i]] <= depth[queue[j]])
    && (forall x :: x in depth && queue != [] ==> depth[x] <= depth[queue[0]] + 1)
  }

  /** Every predecessor of an expanded node is known to be at most one hop
      farther. */
  ghost predicate Covered(edges: seq<Edge>, known: set<string>, maxDepth: int, depth: map<string, int>,
                          done: set<string>)
  {
    forall e :: e in edges && e.from in known && e.to in done && e.to in depth && Allowed(maxDepth, depth[e.to] + 1) ==>
      e.from in depth && depth[e.from] <= depth[e.to] + 1
  }

  lemma {:induction false} CoveredReaches(edges: seq<Edge>, known: set<string>, target: string, maxDepth: int,
                                          depth: map<string, int>, k: nat, x: string)
    requires Sound(edges, known, target, maxDepth, depth)
    requires Covered(edges, known, maxDepth, depth, depth.Keys)
    requires Allowed(maxDepth, k) && x in Ball(edges, known, target, k)
    ensures x in depth && depth[x] <= k
  {
    if k > 0 {
      if x in Ball(edges, known, target, k - 1) {
        CoveredReaches(edges, known, target, maxDepth, depth, k - 1, x);
      } else {
        var e :| e in edges && e.to in Ball(edges, known, target, k - 1) && e.from in known && e.from == x;
        CoveredReaches(edges, known, target, maxDepth, depth, k - 1, e.to);
      }
    }
  }

  lemma SearchExact(edges: seq<Edge>, known: set<string>, target: string, maxDepth: int, depth: map<string, int>)
    requires Sound(edges, known, target, maxDepth, depth)
    requires Covered(edges, known, maxDepth, depth, depth.Keys)
    ensures forall x :: x in depth <==> Near(edges, known, target, maxDepth, x)
    ensures forall x :: x in depth ==> Distance(edges, known, target, x, depth[x])
  {
    forall x, k: nat | Allowed(maxDepth, k) && x in Ball(edges, known, target, k) ensures x in depth && depth[x] <= k {
      CoveredReaches(edges, known, target, maxDepth, depth, k, x);
    }
  }

  function Flip(edges: seq<Edge>): seq<Edge> {
    seq(|edges|, i requires 0 <= i < |edges| => Edge(edges[i].kind, edges[i].to, edges[i].from))
  }

  lemma {:induction false} HeadsOfFlip(edges: seq<Edge>, x: string, p: string)
    ensures p in Heads(Flip(edges), x) <==> Linked(edges, p, x)
  {
    if edges != [] {
      assert Flip(edges) == [Edge(edges[0].kind, edges[0].to, edges[0].from)] + Flip(edges[1..]);
      HeadsOfFlip(edges[1..], x, p);
      assert Linked(edges, p, x) <==> (edges[0].from == p && edges[0].to == x) || Linked(edges[1..], p, x) by {
        assert edges == [edges[0]] + edges[1..];
      }
    }
  }

  /** Discover the known, unseen predecessors of one node. */
  method Expand(preds: seq<string>, known: set<string>, before: map<string, int>, d: int)
    returns (depth: map<string, int>, added: seq<string>)
    ensures depth.Keys == before.Keys + Elems(added) && Elems(added) !! before.Keys && NoDup(added)
    ensures forall x :: x in depth ==> depth[x] == if x in before then before[x] else d
    ensures forall x :: x in added ==> x in preds && x in known
    ensures forall p :: p in preds && p in known ==> p in depth
  {
    depth, added := before, [];
    var rest := preds;
    while rest != []
      invariant depth.Keys == before.Keys + Elems(added) && Elems(added) !! before.Keys && NoDup(added)
      invariant forall x :: x in depth ==> depth[x] == if x in before then before[x] else d
      invariant forall p :: p in rest ==> p in preds
      invariant forall x :: x in added ==> x in preds && x in known
      invariant forall p :: p in preds && p in known ==> p in depth || p in rest
    {
      var pred := rest[0];
      assert pred in rest;
      if pred in known && pred !in depth {
        ElemsSnoc(added, pred);
        depth := depth[pred := d];
        added := added + [pred];
      }
      rest := rest[1..];
    }
  }

  /** What `Expand` promises about the node `id` at the head of the queue. */
  ghost predicate Expanded(edges: seq<Edge>, known: set<string>, id: string, before: map<string, int>, d: int,
                           depth: map<string, int>, added: seq<string>) {
    && depth.Keys == before.Keys + Elems(added) && Elems(added) !! before.Keys
    && (forall x :: x in depth ==> depth[x] == if x in before then before[x] else d + 1)
    && (forall x :: x in added ==> x in known && Linked(edges, x, id))
    && (forall p :: p in known && Linked(edges, p, id) ==> p in depth)
  }

  lemma SoundStep(edges: seq<Edge>, known: set<string>, target: string, maxDepth: int, before: map<string, int>,
                  id: string, depth: map<string, int>, added: seq<string>)
    requires Sound(edges, known, target, maxDepth, before) && id in before && Allowed(maxDepth, before[id] + 1)
    requires Expanded(edges, known, id, before, before[id], depth, added)
    ensures Sound(edges, known, target, maxDepth, depth)
  {
    assert Placed(edges, known, target, maxDepth, id, before[id]);
    AddedNear(edges, known, target, before[id], id, added);
    SoundGrows(edges, known, target, maxDepth, before, before[id] + 1, depth, Elems(added));
  }

  lemma AddedNear(edges: seq<Edge>, known: set<string>, target: string, k: nat, id: string, added: seq<string>)
    requires id in Ball(edges, known, target, k) && forall x :: x in added ==> x in known && Linked(edges, x, id)
    ensures Elems(added) <= known && Elems(added) <= Ball(edges, known, target, k + 1)
  {
    forall x | x in Elems(added) ensures x in known && x in Ball(edges, known, target, k + 1) {
      BallGrows(edges, known, target, k, x, id);
    }
  }

  lemma SoundGrows(edges: seq<Edge>, known: set<string>, target: string, maxDepth: int, before: map<string, int>,
                   d: nat, depth: map<string, int>, added: set<string>)
    requires Sound(edges, known, target, maxDepth, before) && Allowed(maxDepth, d)
    requires depth.Keys == before.Keys + added && added <= known && added <= Ball(edges, known, target, d)
    requires forall x :: x in depth ==> depth[x] == if x in before then before[x] else d
    ensures Sound(edges, known, target, maxDepth, depth)
  {
  }

  lemma BallGrows(edges: seq<Edge>, known: set<string>, target: string, k: nat, x: string, id: string)
    requires id in Ball(edges, known, target, k) && x in known && Linked(edges, x, id)
    ensures x in Ball(edges, known, target, k + 1)
  {
    var e :| e in edges && e.from == x && e.to == id;
    assert e.from in Sources(edges, known, Ball(edges, known, target, k));
  }

  lemma LayeredStep(edges: seq<Edge>, known: set<string>, before: map<string, int>, queue: seq<string>,
                    depth: map<string, int>, added: seq<string>)
    requires queue != [] && Layered(before, queue) && queue[0] in before
    requires Expanded(edges, known, queue[0], before, before[queue[0]], depth, added)
    ensures Layered(depth, queue[1..] + added)
  {
    var d := before[queue[0]];
    var queue' := queue[1..] + added;
    forall x | x in queue' ensures x in depth && d <= depth[x] <= d + 1 {
      if x in queue[1..] {
        assert x in Elems(queue);
      } else {
        assert x in Elems(added);
      }
    }
    forall i, j | 0 <= i < j < |queue'| ensures depth[queue'[i]] <= depth[queue'[j]] {
      assert queue'[i] in queue' && queue'[j] in queue';
      if j < |queue| - 1 {
        assert queue[i + 1] in Elems(queue) && queue[j + 1] in Elems(queue);
      } else {
        assert queue'[j] in Elems(added);
      }
    }
    if queue' != [] {
      assert queue'[0] in queue';
    }
  }

  lemma CoveredStep(edges: seq<Edge>, known: set<string>, maxDepth: int, before: map<string, int>, queue: seq<string>,
                    done: set<string>, depth: map<string, int>, added: seq<string>)
    requires queue != [] && Layered(before, queue) && queue[0] in before
    requires Covered(edges, known, maxDepth, before, done) && done <= before.Keys
    requires Expanded(edges, known, queue[0], before, before[queue[0]], depth, added)
    ensures Covered(edges, known, maxDepth, depth, done + {queue[0]})
  {
    forall e | e in edges && e.from in known && e.to in done + {queue[0]} && e.to in depth
           && Allowed(maxDepth, depth[e.to] + 1)
      ensures e.from in depth && depth[e.from] <= depth[e.to] + 1
    {
      if e.to == queue[0] {
        assert Linked(edges, e.from, queue[0]);
      }
    }
  }

  lemma HeadDone(edges: seq<Edge>, known: set<string>, maxDepth: int, depth: map<string, int>, queue: seq<string>,
                 done: set<string>)
    requires queue != [] && Layered(depth, queue) && queue[0] in depth && !Allowed(maxDepth, depth[queue[0]] + 1)
    requires Covered(edges, known, maxDepth, depth, done)
    ensures Layered(depth, queue[1..]) && Covered(edges, known, maxDepth, depth, done + {queue[0]})
  {
    assert Elems(queue[1..]) <= Elems(queue);
  }

  lemma QueueStep(queue: seq<string>, done: set<string>, keys: set<string>, added: seq<string>)
    requires queue != [] && NoDup(queue) && done !! Elems(queue) && done + Elems(queue) == keys
    requires NoDup(added) && Elems(added) !! keys
    ensures NoDup(queue[1..] + added)
    ensures done + {queue[0]} !! Elems(queue[1..] + added)
    ensures done + {queue[0]} + Elems(queue[1..] + added) == keys + Elems(added)
  {
    NoDupTail(queue);
    assert Elems(queue) == {queue[0]} + Elems(queue[1..]);
    assert Elems(queue[1..] + added) == Elems(queue[1..]) + Elems(added);
    var q := queue[1..] + added;
    forall i, j | 0 <= i < j < |q| ensures q[i] != q[j] {
      if i < |queue| - 1 <= j {
        assert q[i] in Elems(queue) && q[j] in Elems(added);
      }
    }
  }

  /** Each visited id gets its shortest backward distance, and exactly the ids
      within the bound are visited. */
  method BackwardSearch(known: set<string>, edges: seq<Edge>, target: string, maxDepth: int)
    returns (depth: map<string, int>)
    requires target in known
    ensures forall x :: x in depth <==> Near(edges, known, target, maxDepth, x)
    ensures forall x :: x in depth ==> Distance(edges, known, target, x, depth[x])
    ensures depth.Keys <= known
  {
    var predecessors := Successors(Flip(edges));
    depth := map[target := 0];
    var queue := [target];
    ghost var done: set<string> := {};
    while queue != []
      invariant Sound(edges, known, target, maxDepth, depth)
      invariant Layered(depth, queue)
      invariant Covered(edges, known, maxDepth, depth, done)
      invariant NoDup(queue) && done !! Elems(queue) && done + Elems(queue) == depth.Keys
      decreases known - done
    {
      var id := queue[0];
      assert id in Elems(queue);
      var d := depth[id];
      if maxDepth > 0 && d >= maxDepth {
        HeadDone(edges, known, maxDepth, depth, queue, done);
        QueueStep(queue, done, depth.Keys, []);
        assert queue[1..] + [] == queue[1..];
        queue := queue[1..];
      } else {
        var after, added := Discover(predecessors, known, depth, id, d + 1, edges);
        SoundStep(edges, known, target, maxDepth, depth, id, after, added);
        LayeredStep(edges, known, depth, queue, after, added);
        CoveredStep(edges, known, maxDepth, depth, queue, done, after, added);
        QueueStep(queue, done, depth.Keys, added);
        depth := after;
        queue := queue[1..] + added;
      }
      done := done + {id};
    }
    assert done == depth.Keys;
    SearchExact(edges, known, target, maxDepth, depth);
  }

  method Discover(predecessors: map<string, seq<string>>, known: set<string>, before: map<string, int>, id: string,
                  d: int, ghost edges: seq<Edge>)
    returns (depth: map<string, int>, added: seq<string>)
    requires multiset(Listed(predecessors, id)) == multiset(Heads(Flip(edges), id))
    ensures Expanded(edges, known, id, before, d - 1, depth, added) && NoDup(added)
  {
    var preds := Listed(predecessors, id);
    depth, added := Expand(preds, known, before, d);
    forall p ensures p in preds <==> Linked(edges, p, id) {
      InSame(preds, Heads(Flip(edges), id), p);
      HeadsOfFlip(edges, id, p);
    }
  }

  // ----- the node budget (belief_slice.go:136-161) -----

  function Relevance(relevance: map<string, real>, x: string): real {
    if x in relevance then relevance[x] else 0.0
  }

  /** Higher relevance first, then the smaller id. */
  predicate MoreRelevant(relevance: map<string, real>, x: string, y: string) {
    if Relevance(relevance, x) != Relevance(relevance, y) then Relevance(relevance, x) > Relevance(relevance, y)
    else Less(x, y)
  }

  lemma RelevanceOrder(relevance: map<string, real>, ids: multiset<string>)
    ensures StrictWeak((x, y) => MoreRelevant(relevance, x, y))
    ensures StrictOn((x, y) => MoreRelevant(relevance, x, y), ids)
  {
    LessOrder(ids);
    forall x, y ensures x == y || Less(x, y) || Less(y, x) { LessTotal(x, y); }
  }

  function ByRelevance(relevance: map<string, real>, ids: seq<string>): (r: seq<string>)
    ensures multiset(r) == multiset(ids) && |r| == |ids|
  {
    Sort((x, y) => MoreRelevant(relevance, x, y), ids)
  }

  lemma RelevanceSorted(relevance: map<string, real>, ids: seq<string>, ids': seq<string>)
    requires multiset(ids) == multiset(ids')
    ensures ByRelevance(relevance, ids) == ByRelevance(relevance, ids')
    ensures forall i, j :: 0 <= i < j < |ids| ==>
        !MoreRelevant(relevance, ByRelevance(relevance, ids)[j], ByRelevance(relevance, ids)[i])
  {
    var less := (x, y) => MoreRelevant(relevance, x, y);
    RelevanceOrder(relevance, multiset(ids));
    SortCanonical(less, ids, ids');
    SortSorted(less, ids);
  }

  /** The ids that survive the budget. */
  ghost function Chosen(candidates: set<string>, target: string, budget: int, relevance: map<string, real>): set<string>
  {
    if budget <= 0 || |candidates| <= budget then candidates
    else
      var ranked := ByRelevance(relevance, Listing(candidates - {target}));
      {target} + Elems(ranked[..if budget - 1 <= |ranked| then budget - 1 else |ranked|])
  }

  /** `s` holds the target and as many of the other candidates as the budget
      leaves room for, none of them less relevant than one left out. */
  ghost predicate TopOf(s: set<string>, candidates: set<string>, target: string, budget: int,
                        relevance: map<string, real>)
  {
    && s <= candidates && target in s && |s| == budget
    && forall x, y :: x in s && x != target && y in candidates && y !in s ==> MoreRelevant(relevance, x, y)
  }

  lemma RankedPrefix(relevance: map<string, real>, ids: seq<string>, n: nat)
    requires NoDup(ids) && n <= |ids|
    ensures var top := ByRelevance(relevance, ids)[..n];
      NoDup(top) && Elems(top) <= Elems(ids)
      && forall x, y :: x in top && y in ids && y !in top ==> MoreRelevant(relevance, x, y)
  {
    var ranked := ByRelevance(relevance, ids);
    RelevanceSorted(relevance, ids, ids);
    NoDupPermuted(ids, ranked);
    var top := ranked[..n];
    forall x | x in ranked ensures x in Elems(ids) {
      InSame(ranked, ids, x);
    }
    forall k | 0 <= k < n ensures ranked[k] in top {
      assert top[k] == ranked[k];
    }
    forall x, y | x in top && y in ids && y !in top ensures MoreRelevant(relevance, x, y) {
      InSame(ranked, ids, y);
      var i :| 0 <= i < n && ranked[i] == x;
      var j :| 0 <= j < |ranked| && ranked[j] == y;
      LessTotal(x, y);
    }
  }

  /** Over budget, the choice is the target and the best of the rest. */
  lemma ChosenIsTop(candidates: set<string>, target: string, budget: int, relevance: map<string, real>)
    requires target in candidates && 0 < budget < |candidates|
    ensures TopOf(Chosen(candidates, target, budget, relevance), candidates, target, budget, relevance)
  {
    var rest := candidates - {target};
    var ids := Listing(rest);
    ElemsCount(ids);
    assert |rest| == |candidates| - 1;
    var top := ByRelevance(relevance, ids)[..budget - 1];
    RankedPrefix(relevance, ids, budget - 1);
    ElemsCount(top);
    var s := Chosen(candidates, target, budget, relevance);
    assert s == {target} + Elems(top);
    assert target !in Elems(top);
    forall x, y | x in s && x != target && y in candidates && y !in s ensures MoreRelevant(relevance, x, y) {
      assert x in top && y in Elems(ids) && y !in top;
    }
  }

  /** No other set of that size is made of the best candidates. */
  lemma TopIsUnique(s: set<string>, t: set<string>, candidates: set<string>, target: string, budget: int,
                    relevance: map<string, real>)
    requires TopOf(s, candidates, target, budget, relevance) && TopOf(t, candidates, target, budget, relevance)
    ensures s == t
  {
    if s <= t {
      SubsetCount(s, t);
    } else if t <= s {
      SubsetCount(t, s);
    } else {
      var x :| x in s && x !in t;
      var y :| y in t && y !in s;
      OneWay(relevance, x, y);
    }
  }

  lemma OneWay(relevance: map<string, real>, x: string, y: string)
    ensures !(MoreRelevant(relevance, x, y) && MoreRelevant(relevance, y, x))
  {
    if Less(x, y) && Less(y, x) {
      LessTransitive(x, y, x);
      LessIrreflexive(x);
    }
  }

  method SelectByBudget(depth: map<string, int>, target: string, budget: int, relevance: map<string, real>)
    returns (kept: seq<string>)
    requires target in depth
    ensures NoDup(kept) && Elems(kept) == Chosen(depth.Keys, target, budget, relevance)
  {
    var candidates := KeysOf(depth.Keys);
    ElemsCount(candidates);
    if budget <= 0 || |candidates| <= budget {
      return candidates;
    }
    var rest := OtherCandidates(candidates, target);
    assert Elems(rest) == depth.Keys - {target};
    var ranked := ByRelevance(relevance, rest);
    var smaller := if budget - 1 <= |rest| then budget - 1 else |rest|;
    var budgetForRest := if smaller >= 0 then smaller else 0;
    RankedPrefix(relevance, rest, budgetForRest);
    ChosenFrom(depth.Keys, target, budget, relevance, rest, budgetForRest);
    kept := [target] + ranked[..budgetForRest];
    NoDupCons(target, ranked[..budgetForRest]);
  }

  /** Any listing of the other candidates leads to the same choice. */
  lemma ChosenFrom(candidates: set<string>, target: string, budget: int, relevance: map<string, real>,
                   rest: seq<string>, n: nat)
    requires 0 < budget < |candidates| && NoDup(rest) && Elems(rest) == candidates - {target}
    requires n <= |rest| && n == if budget - 1 <= |rest| then budget - 1 else |rest|
    ensures Chosen(candidates, target, budget, relevance) == {target} + Elems(ByRelevance(relevance, rest)[..n])
  {
    var others := Listing(candidates - {target});
    SameListing(rest, others);
    RelevanceSorted(relevance, rest, others);
    assert |rest| == |multiset(rest)| && |others| == |multiset(others)|;
  }

  lemma NoDupCons(x: string, s: seq<string>)
    requires NoDup(s) && x !in Elems(s)
    ensures NoDup([x] + s) && Elems([x] + s) == {x} + Elems(s)
  {
  }

  method OtherCandidates(candidates: seq<string>, target: string) returns (rest: seq<string>)
    ensures rest == Except(candidates, target)
  {
    rest := [];
    var i := 0;
    while i < |candidates|
      invariant 0 <= i <= |candidates| && rest + Except(candidates[i..], target) == Except(candidates, target)
    {
      assert candidates[i..][1..] == candidates[i + 1..];
      if candidates[i] != target {
        rest := rest + [candidates[i]];
      }
      i := i + 1;
    }
  }

  lemma ChosenWithin(candidates: set<string>, target: string, budget: int, relevance: map<string, real>)
    requires target in candidates
    ensures Chosen(candidates, target, budget, relevance) <= candidates
    ensures target in Chosen(candidates, target, budget, relevance)
  {
    if 0 < budget < |candidates| {
      ChosenIsTop(candidates, target, budget, relevance);
    }
  }

  // ----- the slice (belief_slice.go:60-90, 165-189) -----

  function NodesAt(ids: seq<string>, byId: map<string, GraphNode>): (r: seq<GraphNode>)
    requires Elems(ids) <= byId.Keys
    ensures |r| == |ids|
    ensures forall i :: 0 <= i < |ids| ==> ids[i] in byId && r[i] == byId[ids[i]]
  {
    assert forall i :: 0 <= i < |ids| ==> ids[i] in Elems(ids);
    seq(|ids|, i requires 0 <= i < |ids| => byId[ids[i]])
  }

  function Inside(edges: seq<Edge>, kept: set<string>): seq<Edge> {
    Filter((e: Edge) => e.from in kept && e.to in kept, edges)
  }

  function Leaving(edges: seq<Edge>, target: string): seq<Edge> {
    Filter((e: Edge) => e.from == target, edges)
  }

  function Staying(edges: seq<Edge>, target: string): seq<Edge> {
    Filter((e: Edge) => e.from != target, edges)
  }

  /** The kept nodes sorted by id, with every edge between two of them. */
  ghost function Induced(byId: map<string, GraphNode>, edges: seq<Edge>, kept: set<string>): Graph
    requires kept <= byId.Keys
  {
    NoDupSorted(Listing(kept));
    Graph(NodesAt(SortStrings(Listing(kept)), byId), SortEdges(Inside(edges, kept)), [])
  }

  function DropLeaving(g: Graph, target: string): Graph {
    Graph(g.nodes, Staying(g.edges, target), g.dropped + Leaving(g.edges, target))
  }

  ghost function Candidates(edges: seq<Edge>, known: set<string>, target: string, maxDepth: int): set<string> {
    set x | x in known && Near(edges, known, target, maxDepth, x)
  }

  /** The ids of the slice: within the hop bound, then within the budget. */
  ghost function Kept(g: Graph, target: string, opts: Options, relevance: map<string, real>): set<string> {
    Chosen(Candidates(g.edges, ById(g.nodes).Keys, target, opts.maxDepth), target, opts.nodeBudget, relevance)
  }

  lemma KeptWithin(g: Graph, target: string, opts: Options, relevance: map<string, real>)
    requires target in ById(g.nodes)
    ensures target in Kept(g, target, opts, relevance) && Kept(g, target, opts, relevance) <= ById(g.nodes).Keys
  {
    var known := ById(g.nodes).Keys;
    assert target in Ball(g.edges, known, target, 0) && Allowed(opts.maxDepth, 0);
    ChosenWithin(Candidates(g.edges, known, target, opts.maxDepth), target, opts.nodeBudget, relevance);
  }

  lemma InducedWellFormed(byId: map<string, GraphNode>, edges: seq<Edge>, kept: set<string>, target: string)
    requires kept <= byId.Keys && forall x :: x in byId ==> byId[x].id == x
    ensures Ids(Induced(byId, edges, kept).nodes) == SortStrings(Listing(kept))
    ensures WellFormed(DropLeaving(Induced(byId, edges, kept), target))
    ensures Elems(Ids(Induced(byId, edges, kept).nodes)) == kept
  {
    var ids := SortStrings(Listing(kept));
    NoDupSorted(Listing(kept));
    var g := Induced(byId, edges, kept);
    assert Ids(g.nodes) == ids;
    forall e | e in Staying(g.edges, target) ensures e.from in Elems(ids) && e.to in Elems(ids) {
      InSame(g.edges, Inside(edges, kept), e);
    }
  }

  /** The slice, before the cut. */
  ghost function Uncut(g: Graph, target: string, opts: Options, relevance: map<string, real>): Graph
    requires target in ById(g.nodes)
  {
    KeptWithin(g, target, opts, relevance);
    DropLeaving(Induced(ById(g.nodes), g.edges, Kept(g, target, opts, relevance)), target)
  }

  lemma UncutWellFormed(g: Graph, target: string, opts: Options, relevance: map<string, real>)
    requires target in ById(g.nodes)
    ensures WellFormed(Uncut(g, target, opts, relevance))
    ensures Elems(Ids(Uncut(g, target, opts, relevance).nodes)) == Kept(g, target, opts, relevance)
  {
    KeptWithin(g, target, opts, relevance);
    ByIdKeys(g.nodes);
    InducedWellFormed(ById(g.nodes), g.edges, Kept(g, target, opts, relevance), target);
  }

  ghost function Extract(g: Graph, target: string, opts: Options, relevance: map<string, real>): Graph {
    if target !in ById(g.nodes) then Graph([], [], [])
    else
      UncutWellFormed(g, target, opts, relevance);
      Cut(Uncut(g, target, opts, relevance))
  }

  method BuildGraph(byId: map<string, GraphNode>, edges: seq<Edge>, kept: seq<string>) returns (g: Graph)
    requires NoDup(kept) && Elems(kept) <= byId.Keys
    ensures g == Induced(byId, edges, Elems(kept))
  {
    var keptSet := Elems(kept);
    NoDupSorted(kept);
    SortStringsOfSet(kept, Listing(keptSet));
    var outEdges := [];
    var rest := edges;
    while rest != []
      invariant outEdges + Inside(rest, keptSet) == Inside(edges, keptSet)
    {
      FilterStep((e: Edge) => e.from in keptSet && e.to in keptSet, outEdges, rest);
      if rest[0].from in keptSet && rest[0].to in keptSet {
        outEdges := outEdges + [rest[0]];
      }
      rest := rest[1..];
    }
    assert outEdges == outEdges + [];
    assert outEdges == Inside(edges, keptSet);
    g := Graph(NodesAt(SortStrings(kept), byId), SortEdges(outEdges), []);
  }

  method DropTargetOutEdges(g: Graph, target: string) returns (r: Graph)
    ensures r == DropLeaving(g, target)
  {
    var kept, dropped := [], g.dropped;
    var rest := g.edges;
    while rest != []
      invariant kept + Staying(rest, target) == Staying(g.edges, target)
      invariant dropped + Leaving(rest, target) == g.dropped + Leaving(g.edges, target)
    {
      FilterStep((e: Edge) => e.from != target, kept, rest);
      FilterStep((e: Edge) => e.from == target, dropped, rest);
      if rest[0].from == target {
        dropped := dropped + [rest[0]];
      } else {
        kept := kept + [rest[0]];
      }
      rest := rest[1..];
    }
    r := Graph(g.nodes, kept, dropped);
  }

  method ExtractBoundedSlice(g: Graph, target: string, opts: Options, relevance: map<string, real>) returns (r: Graph)
    ensures r == Extract(g, target, opts, relevance)
  {
    var byId := IndexNodes(g.nodes);
    if target !in byId {
      return Graph([], [], []);
    }
    KeptWithin(g, target, opts, relevance);
    UncutWellFormed(g, target, opts, relevance);
    var depth := BackwardSearch(byId.Keys, g.edges, target, opts.maxDepth);
    assert depth.Keys == Candidates(g.edges, byId.Keys, target, opts.maxDepth);
    assert Distance(g.edges, byId.Keys, target, target, 0);
    assert Allowed(opts.maxDepth, 0) && Near(g.edges, byId.Keys, target, opts.maxDepth, target);
    var kept := SelectByBudget(depth, target, opts.nodeBudget, relevance);
    var built := BuildGraph(byId, g.edges, kept);
    var trimmed := DropTargetOutEdges(built, target);
    r := BreakCycles(trimmed);
  }

  // ----- what the slice guarantees -----

  /** Its nodes are exactly the hop-bounded ancestors, or the best of them when
      they exceed the budget. */
  lemma SliceNodes(g: Graph, target: string, opts: Options, relevance: map<string, real>)
    requires target in ById(g.nodes)
    ensures var near := Candidates(g.edges, ById(g.nodes).Keys, target, opts.maxDepth);
            var ids := Elems(Ids(Extract(g, target, opts, relevance).nodes));
            if opts.nodeBudget <= 0 || |near| <= opts.nodeBudget then ids == near
            else TopOf(ids, near, target, opts.nodeBudget, relevance)
  {
    var near := Candidates(g.edges, ById(g.nodes).Keys, target, opts.maxDepth);
    UncutWellFormed(g, target, opts, relevance);
    CutNodes(Uncut(g, target, opts, relevance));
    RankKeys(Uncut(g, target, opts, relevance));
    if 0 < opts.nodeBudget < |near| {
      assert Allowed(opts.maxDepth, 0) && target in Ball(g.edges, ById(g.nodes).Keys, target, 0);
      ChosenIsTop(near, target, opts.nodeBudget, relevance);
    }
  }

  lemma UncutEdges(g: Graph, target: string, opts: Options, relevance: map<string, real>)
    requires target in ById(g.nodes)
    ensures var inner := Inside(g.edges, Kept(g, target, opts, relevance));
            && multiset(Uncut(g, target, opts, relevance).edges) == multiset(Staying(inner, target))
            && multiset(Uncut(g, target, opts, relevance).dropped) == multiset(Leaving(inner, target))
  {
    KeptWithin(g, target, opts, relevance);
    var inner := Inside(g.edges, Kept(g, target, opts, relevance));
    FilterPermuted((e: Edge) => e.from != target, SortEdges(inner), inner);
    FilterPermuted((e: Edge) => e.from == target, SortEdges(inner), inner);
  }

  /** It is acyclic, nothing leaves the target, and its kept and dropped edges
      are together the induced ones. */
  lemma SliceEdges(g: Graph, target: string, opts: Options, relevance: map<string, real>)
    requires target in ById(g.nodes)
    ensures var r := Extract(g, target, opts, relevance);
            && !Cyclic(r.edges)
            && (forall e :: e in r.edges ==> e.from != target)
            && multiset(r.edges) + multiset(r.dropped) == multiset(Inside(g.edges, Kept(g, target, opts, relevance)))
  {
    var u := Uncut(g, target, opts, relevance);
    UncutWellFormed(g, target, opts, relevance);
    UncutEdges(g, target, opts, relevance);
    CutAcyclic(u);
    CutSharesEdges(u);
    var inner := Inside(g.edges, Kept(g, target, opts, relevance));
    FilterSplit((e: Edge) => e.from != target, (e: Edge) => e.from == target, inner);
    forall e | e in Cut(u).edges ensures e.from != target {
      InSame(Cut(u).edges, Forward(u.edges, Potentials(Cut(u).nodes)), e);
    }
  }

  /** When the induced edges that do not leave the target have no cycle, no
      other edge is lost. */
  lemma SliceLosesNothing(g: Graph, target: string, opts: Options, relevance: map<string, real>)
    requires target in ById(g.nodes)
    requires !Cyclic(Staying(Inside(g.edges, Kept(g, target, opts, relevance)), target))
    ensures var inner := Inside(g.edges, Kept(g, target, opts, relevance));
            && multiset(Extract(g, target, opts, relevance).edges) == multiset(Staying(inner, target))
            && multiset(Extract(g, target, opts, relevance).dropped) == multiset(Leaving(inner, target))
  {
    var u := Uncut(g, target, opts, relevance);
    var inner := Inside(g.edges, Kept(g, target, opts, relevance));
    UncutWellFormed(g, target, opts, relevance);
    UncutEdges(g, target, opts, relevance);
    SameEdgesAcyclic(Staying(inner, target), u.edges);
    AcyclicLosesNothing(u);
  }

  /** The ids and edges that the cut of a slice works on. */
  ghost function KeptIds(g: Graph, target: string, opts: Options, relevance: map<string, real>): seq<string> {
    Sorting(Kept(g, target, opts, relevance))
  }

  ghost function Inner(g: Graph, target: string, opts: Options, relevance: map<string, real>): seq<Edge> {
    Staying(Inside(g.edges, Kept(g, target, opts, relevance)), target)
  }

  lemma UncutListing(g: Graph, target: string, opts: Options, relevance: map<string, real>)
    requires target in ById(g.nodes)
    ensures SortStrings(Ids(Uncut(g, target, opts, relevance).nodes)) == KeptIds(g, target, opts, relevance)
  {
    var kept := Kept(g, target, opts, relevance);
    UncutWellFormed(g, target, opts, relevance);
    SortStringsOfSet(Ids(Uncut(g, target, opts, relevance).nodes), Listing(kept));
  }

  /** An induced edge that does not leave the target, in particular one into the
      target, is cut exactly when its head is forced before its tail. */
  lemma SliceCutsExactly(g: Graph, target: string, opts: Options, relevance: map<string, real>, e: Edge)
    requires target in ById(g.nodes) && e in Inner(g, target, opts, relevance)
    ensures var r := Extract(g, target, opts, relevance);
            && (e in r.dropped <==> Forced(KeptIds(g, target, opts, relevance), Inner(g, target, opts, relevance), e))
            && (e in r.edges <==> e !in r.dropped)
  {
    var u, inner, ids := Uncut(g, target, opts, relevance), Inner(g, target, opts, relevance),
                         KeptIds(g, target, opts, relevance);
    UncutWellFormed(g, target, opts, relevance);
    UncutListing(g, target, opts, relevance);
    UncutEdges(g, target, opts, relevance);
    forall f ensures f in u.edges <==> f in inner {
      InSame(u.edges, inner, f);
    }
    InSame(u.dropped, Leaving(Inside(g.edges, Kept(g, target, opts, relevance)), target), e);
    CutSides(u, e);
    ForcedSame(ids, u.edges, inner, e);
    ForcedSame(ids, inner, u.edges, e);
  }

  /** A target with the smallest id of a slice in which every node waits for
      another is forced first, and so keeps no edge at all. */
  lemma TargetStarved(g: Graph, target: string, opts: Options, relevance: map<string, real>, e: Edge)
    requires target in ById(g.nodes)
    requires KeptIds(g, target, opts, relevance) != [] && KeptIds(g, target, opts, relevance)[0] == target
    requires forall x :: x in KeptIds(g, target, opts, relevance) ==> !Ready(Inner(g, target, opts, relevance), x, {})
    ensures e in Extract(g, target, opts, relevance).edges ==> e.to != target && e.from != target
  {
    var r, inner, ids := Extract(g, target, opts, relevance), Inner(g, target, opts, relevance),
                         KeptIds(g, target, opts, relevance);
    SliceEdges(g, target, opts, relevance);
    if e in r.edges && e.to == target {
      KeptEdgeInner(g, target, opts, relevance, e);
      FirstIsForced(ids, inner, e);
      SliceCutsExactly(g, target, opts, relevance, e);
    }
  }

  lemma KeptEdgeInner(g: Graph, target: string, opts: Options, relevance: map<string, real>, e: Edge)
    requires target in ById(g.nodes) && e in Extract(g, target, opts, relevance).edges
    ensures e in Inner(g, target, opts, relevance)
  {
    SliceEdges(g, target, opts, relevance);
    var r := Extract(g, target, opts, relevance);
    PartOf(r.edges, r.dropped, Inside(g.edges, Kept(g, target, opts, relevance)), e);
  }

  lemma PartOf<T>(s: seq<T>, t: seq<T>, whole: seq<T>, x: T)
    requires multiset(s) + multiset(t) == multiset(whole) && x in s
    ensures x in whole
  {
    assert x in multiset(s);
    assert x in multiset(whole);
  }

  // ----- a target that loses its only edge -----

  const UNBOUNDED: Options := Options(0, 0)

  /** `a` is enabled by `c` only, which is on a cycle with `b`. */
  ghost predicate BelowCycle(g: Graph, kind: string, a: string, b: string, c: string) {
    && Ids(g.nodes) == [a, b, c] && NoDup(Ids(g.nodes)) && Sorted(Less, Ids(g.nodes))
    && g.edges == Downstream(kind, a, b, c)
  }

  lemma AllNear(kind: string, a: string, b: string, c: string)
    ensures Candidates(Downstream(kind, a, b, c), {a, b, c}, a, 0) == {a, b, c}
  {
    var edges, known := Downstream(kind, a, b, c), {a, b, c};
    assert edges[2] in edges && edges[0] in edges;
    assert Linked(edges, c, a) && Linked(edges, b, c);
    assert a in Ball(edges, known, a, 0);
    BallGrows(edges, known, a, 0, c, a);
    BallGrows(edges, known, a, 1, b, c);
    assert Allowed(0, 0) && Allowed(0, 1) && Allowed(0, 2);
    assert Near(edges, known, a, 0, a) && Near(edges, known, a, 0, b) && Near(edges, known, a, 0, c);
  }

  lemma AllKept(g: Graph, kind: string, a: string, b: string, c: string, relevance: map<string, real>)
    requires BelowCycle(g, kind, a, b, c)
    ensures ById(g.nodes).Keys == {a, b, c} && Kept(g, a, UNBOUNDED, relevance) == {a, b, c}
    ensures KeptIds(g, a, UNBOUNDED, relevance) == [a, b, c]
  {
    ByIdKeys(g.nodes);
    assert Elems(Ids(g.nodes)) == {a, b, c};
    AllNear(kind, a, b, c);
    AlreadySorted([a, b, c]);
    SortStringsOfSet(Listing({a, b, c}), [a, b, c]);
  }

  lemma InnerMember(edges: seq<Edge>, kept: set<string>, target: string, e: Edge)
    ensures e in Staying(Inside(edges, kept), target)
       <==> e in edges && e.from in kept && e.to in kept && e.from != target
  {
  }

  lemma DownstreamMember(kind: string, a: string, b: string, c: string, e: Edge)
    ensures e in Downstream(kind, a, b, c) <==> e == Edge(kind, b, c) || e == Edge(kind, c, b) || e == Edge(kind, c, a)
  {
    var edges := Downstream(kind, a, b, c);
    assert edges[0] == Edge(kind, b, c) && edges[1] == Edge(kind, c, b) && edges[2] == Edge(kind, c, a);
  }

  lemma AllInner(g: Graph, kind: string, a: string, b: string, c: string, relevance: map<string, real>, e: Edge)
    requires BelowCycle(g, kind, a, b, c)
    ensures a != b && a != c
    ensures e in Inner(g, a, UNBOUNDED, relevance)
       <==> e == Edge(kind, b, c) || e == Edge(kind, c, b) || e == Edge(kind, c, a)
  {
    assert a != b && a != c by {
      assert Ids(g.nodes)[0] != Ids(g.nodes)[1] && Ids(g.nodes)[0] != Ids(g.nodes)[2];
    }
    AllKept(g, kind, a, b, c, relevance);
    InnerMember(g.edges, {a, b, c}, a, e);
    DownstreamMember(kind, a, b, c, e);
  }

  lemma NoneInto(g: Graph, kind: string, a: string, b: string, c: string, relevance: map<string, real>, e: Edge)
    requires BelowCycle(g, kind, a, b, c) && a in ById(g.nodes) && e in Extract(g, a, UNBOUNDED, relevance).edges
    ensures e.to != a
  {
    AllKept(g, kind, a, b, c, relevance);
    AllInner(g, kind, a, b, c, relevance, Edge(kind, b, c));
    AllInner(g, kind, a, b, c, relevance, Edge(kind, c, b));
    AllInner(g, kind, a, b, c, relevance, Edge(kind, c, a));
    AllWait(Inner(g, a, UNBOUNDED, relevance), kind, a, b, c);
    TargetStarved(g, a, UNBOUNDED, relevance, e);
  }

  /** The slice of `a` drops the one edge into its target, although that edge is
      on no cycle and either edge of the cycle could go. */
  lemma TargetLosesItsEdge(g: Graph, kind: string, a: string, b: string, c: string, relevance: map<string, real>)
    requires BelowCycle(g, kind, a, b, c)
    ensures Edge(kind, c, a) in Extract(g, a, UNBOUNDED, relevance).dropped
    ensures forall e :: e in Extract(g, a, UNBOUNDED, relevance).edges ==> e.to != a
    ensures forall w, i :: IsCycle(g.edges, w) && 0 <= i < |w| ==> w[i] != a
  {
    AllKept(g, kind, a, b, c, relevance);
    forall e | e in Extract(g, a, UNBOUNDED, relevance).edges ensures e.to != a {
      NoneInto(g, kind, a, b, c, relevance, e);
    }
    AllInner(g, kind, a, b, c, relevance, Edge(kind, c, a));
    SliceCutsExactly(g, a, UNBOUNDED, relevance, Edge(kind, c, a));
    OffCycle(g.edges, kind, a, b, c);
  }

  /** Such a graph exists. */
  lemma ThreeHosts() returns (g: Graph)
    ensures BelowCycle(g, "reaches", "1", "2", "3")
  {
    g := Graph([GraphNode("1", "host", map[], 0), GraphNode("2", "host", map[], 0), GraphNode("3", "host", map[], 0)],
               Downstream("reaches", "1", "2", "3"), []);
    assert Ids(g.nodes) == ["1", "2", "3"];
    assert Less("1", "2") && Less("2", "3") && Less("1", "3");
    assert !Less("2", "1") && !Less("3", "2") && !Less("3", "1");
  }

  // ----- the slice depends on the sets only -----

  lemma {:induction false} BallSame(edges: seq<Edge>, edges': seq<Edge>, known: set<string>, target: string, k: nat)
    requires forall heads {:trigger Sources(edges, known, heads)} ::
               Sources(edges, known, heads) == Sources(edges', known, heads)
    ensures Ball(edges, known, target, k) == Ball(edges', known, target, k)
  {
    if k > 0 {
      BallSame(edges, edges', known, target, k - 1);
      var inner := Ball(edges, known, target, k - 1);
      assert Sources(edges, known, inner) == Sources(edges', known, inner);
    }
  }

  lemma SourcesEqual(edges: seq<Edge>, edges': seq<Edge>, known: set<string>, heads: set<string>)
    requires Elems(edges) == Elems(edges')
    ensures Sources(edges, known, heads) == Sources(edges', known, heads)
  {
    SourcesSame(edges, edges', known, heads);
    SourcesSame(edges', edges, known, heads);
  }

  lemma SourcesSame(edges: seq<Edge>, edges': seq<Edge>, known: set<string>, heads: set<string>)
    requires Elems(edges) == Elems(edges')
    ensures Sources(edges, known, heads) <= Sources(edges', known, heads)
  {
    forall x | x in Sources(edges, known, heads) ensures x in Sources(edges', known, heads) {
      var e :| e in edges && e.to in heads && e.from in known && e.from == x;
      assert e in Elems(edges) && e in edges';
    }
  }

  lemma KeptRelisted(g: Graph, g': Graph, target: string, opts: Options, relevance: map<string, real>)
    requires NoDup(Ids(g.nodes)) && Relisted(g, g')
    ensures Kept(g, target, opts, relevance) == Kept(g', target, opts, relevance)
  {
    ByIdRelisted(g.nodes, g'.nodes);
    forall e ensures e in g.edges <==> e in g'.edges {
      InSame(g.edges, g'.edges, e);
    }
    CandidatesSame(g.edges, g'.edges, ById(g.nodes).Keys, target, opts.maxDepth);
  }

  lemma CandidatesSame(edges: seq<Edge>, edges': seq<Edge>, known: set<string>, target: string, maxDepth: int)
    requires Elems(edges) == Elems(edges')
    ensures Candidates(edges, known, target, maxDepth) == Candidates(edges', known, target, maxDepth)
  {
    forall x ensures Near(edges, known, target, maxDepth, x) <==> Near(edges', known, target, maxDepth, x) {
      NearSame(edges, edges', known, target, maxDepth, x);
      NearSame(edges', edges, known, target, maxDepth, x);
    }
  }

  lemma NearSame(edges: seq<Edge>, edges': seq<Edge>, known: set<string>, target: string, maxDepth: int, x: string)
    requires Elems(edges) == Elems(edges')
    ensures Near(edges, known, target, maxDepth, x) ==> Near(edges', known, target, maxDepth, x)
  {
    if Near(edges, known, target, maxDepth, x) {
      var k: nat :| Allowed(maxDepth, k) && x in Ball(edges, known, target, k);
      forall heads ensures Sources(edges, known, heads) == Sources(edges', known, heads) {
        SourcesEqual(edges, edges', known, heads);
      }
      BallSame(edges, edges', known, target, k);
    }
  }

  /** The same graph in any order gives the same slice. */
  lemma SliceRelisted(g: Graph, g': Graph, target: string, opts: Options, relevance: map<string, real>)
    requires NoDup(Ids(g.nodes)) && Relisted(g, g')
    ensures Extract(g, target, opts, relevance) == Extract(g', target, opts, relevance)
  {
    ByIdRelisted(g.nodes, g'.nodes);
    KeptRelisted(g, g', target, opts, relevance);
    if target in ById(g.nodes) {
      var kept := Kept(g, target, opts, relevance);
      KeptWithin(g, target, opts, relevance);
      FilterPermuted((e: Edge) => e.from in kept && e.to in kept, g.edges, g'.edges);
      SortEdgesCanonical(Inside(g.edges, kept), Inside(g'.edges, kept));
      assert Uncut(g, target, opts, relevance) == Uncut(g', target, opts, relevance);
    }
  }
}
