/** Attack-graph derivation (internal/engine/brain/belief_attack_graph.go):
the belief-bearing part of the infra graph, and the cut that makes it acyclic.

The registry hands out the variables of a node kind in no particular order, so
a node's variables are a map here from a variable to what it depends on. */
module AttackGraph {
  import opened Factors
  import opened Order
  import opened Graphs
  import opened Lists

  type Variables = map<string, seq<string>>

  datatype InfraNode = InfraNode(id: string, kind: string)
  datatype Registry = Registry(bearing: map<string, Variables>, feeds: map<string, string>)
  datatype GraphNode = GraphNode(id: string, kind: string, variables: Variables, potential: int)
  datatype Graph = Graph(nodes: seq<GraphNode>, edges: seq<Edge>, dropped: seq<Edge>)

  function Ids(nodes: seq<GraphNode>): (r: seq<string>)
    ensures |r| == |nodes| && forall i :: 0 <= i < |r| ==> r[i] == nodes[i].id
  {
    seq(|nodes|, i requires 0 <= i < |nodes| => nodes[i].id)
  }

  /** Ids are unique and every edge stays inside the node set. */
  ghost predicate WellFormed(g: Graph) {
    NoDup(Ids(g.nodes)) && forall e :: e in g.edges ==> e.from in Ids(g.nodes) && e.to in Ids(g.nodes)
  }

  /** The nodes by id; of two nodes with one id the later stays. */
  function ById(nodes: seq<GraphNode>): map<string, GraphNode> {
    if nodes == [] then map[] else map[nodes[0].id := nodes[0]] + ById(nodes[1..])
  }

  lemma {:induction false} ByIdKeys(nodes: seq<GraphNode>)
    ensures ById(nodes).Keys == Elems(Ids(nodes))
    ensures forall x :: x in ById(nodes) ==> ById(nodes)[x] in nodes && ById(nodes)[x].id == x
  {
    if nodes != [] {
      ByIdKeys(nodes[1..]);
      assert Ids(nodes) == [nodes[0].id] + Ids(nodes[1..]);
    }
  }

  lemma {:induction false} ByIdUnique(nodes: seq<GraphNode>, i: nat)
    requires NoDup(Ids(nodes)) && i < |nodes|
    ensures nodes[i].id in ById(nodes) && ById(nodes)[nodes[i].id] == nodes[i]
  {
    var rest := nodes[1..];
    assert Ids(nodes) == [nodes[0].id] + Ids(rest);
    NoDupTail(Ids(nodes));
    if i == 0 {
      ByIdKeys(rest);
    } else {
      ByIdUnique(rest, i - 1);
    }
  }

  // ----- topological potentials (belief_attack_graph.go:232-288) -----

  function Ranks(order: seq<string>): map<string, int> {
    map x | x in order :: IndexOf(order, x)
  }

  lemma {:induction false} IndexOfSnoc(order: seq<string>, p: string, x: string)
    requires p !in order && x in order + [p]
    ensures IndexOf(order + [p], x) == if x == p then |order| else IndexOf(order, x)
  {
    if order != [] && order[0] != x {
      assert (order + [p])[1..] == order[1..] + [p];
      IndexOfSnoc(order[1..], p, x);
    }
  }

  lemma RanksSnoc(order: seq<string>, p: string)
    requires p !in order
    ensures Ranks(order + [p]) == Ranks(order)[p := |order|]
  {
    forall x | x in order + [p]
      ensures IndexOf(order + [p], x) == if x == p then |order| else IndexOf(order, x)
    {
      IndexOfSnoc(order, p, x);
    }
  }

  /** How many edges into `id` come from nodes not done yet. */
  function Pending(edges: seq<Edge>, id: string, done: set<string>): (n: nat)
    ensures n == 0 <==> Ready(edges, id, done)
  {
    if edges == [] then 0
    else
      assert forall e :: e in edges <==> e == edges[0] || e in edges[1..];
      (if edges[0].to == id && edges[0].from !in done then 1 else 0) + Pending(edges[1..], id, done)
  }

  /** The heads of the edges out of `from`, one per edge. */
  function Heads(edges: seq<Edge>, from: string): seq<string> {
    if edges == [] then []
    else (if edges[0].from == from then [edges[0].to] else []) + Heads(edges[1..], from)
  }

  lemma {:induction false} PendingDone(edges: seq<Edge>, id: string, done: set<string>, p: string)
    requires p !in done
    ensures Pending(edges, id, done) == Pending(edges, id, done + {p}) + multiset(Heads(edges, p))[id]
  {
    if edges != [] {
      PendingDone(edges[1..], id, done, p);
    }
  }

  function Listed(out: map<string, seq<string>>, from: string): seq<string> {
    if from in out then out[from] else []
  }

  lemma HeadsStep(out: map<string, seq<string>>, rest: seq<Edge>, f: string)
    requires rest != []
    ensures var e := rest[0];
            Listed(out[e.from := Listed(out, e.from) + [e.to]], f) + Heads(rest[1..], f)
            == Listed(out, f) + Heads(rest, f)
  {
    var e, tail := rest[0], Heads(rest[1..], f);
    if e.from == f {
      Associate(Listed(out, f), [e.to], tail);
    } else {
      assert [] + tail == tail;
    }
  }

  method Successors(edges: seq<Edge>) returns (out: map<string, seq<string>>)
    ensures forall f :: multiset(Listed(out, f)) == multiset(Heads(edges, f))
  {
    out := map[];
    var rest := edges;
    forall f ensures Listed(out, f) + Heads(rest, f) == Heads(edges, f) {
      assert [] + Heads(edges, f) == Heads(edges, f);
    }
    while rest != []
      invariant forall f {:trigger Heads(edges, f)} :: Listed(out, f) + Heads(rest, f) == Heads(edges, f)
    {
      var e := rest[0];
      forall f {:trigger Heads(edges, f)}
        ensures Listed(out[e.from := Listed(out, e.from) + [e.to]], f) + Heads(rest[1..], f) == Heads(edges, f)
      {
        HeadsStep(out, rest, f);
      }
      out := out[e.from := Listed(out, e.from) + [e.to]];
      rest := rest[1..];
    }
    forall f {:trigger Heads(edges, f)} ensures Listed(out, f) == Heads(edges, f) {
      assert Listed(out, f) + [] == Listed(out, f);
    }
    out := map f | f in out :: SortStrings(out[f]);
  }

  method InDegrees(ids: seq<string>, edges: seq<Edge>) returns (inDegree: map<string, int>)
    requires forall e :: e in edges ==> e.to in ids
    ensures inDegree.Keys == Elems(ids)
    ensures forall x :: x in inDegree ==> inDegree[x] == Pending(edges, x, {})
  {
    inDegree := map x | x in ids :: 0;
    var rest := edges;
    while rest != []
      invariant inDegree.Keys == Elems(ids)
      invariant forall e :: e in rest ==> e.to in ids
      invariant forall x :: x in inDegree ==> inDegree[x] + Pending(rest, x, {}) == Pending(edges, x, {})
    {
      assert rest[0] in rest;
      inDegree := inDegree[rest[0].to := inDegree[rest[0].to] + 1];
      rest := rest[1..];
    }
  }

  /** The first id that is neither done nor waited for, or the empty string. */
  method FirstReady(ids: seq<string>, inDegree: map<string, int>, processed: set<string>, ghost edges: seq<Edge>)
    returns (pick: string)
    requires Elems(ids) <= inDegree.Keys
    requires forall x :: x in inDegree && x !in processed ==> inDegree[x] == Pending(edges, x, processed)
    ensures pick == if ReadyOf(ids, edges, processed) == [] then "" else ReadyOf(ids, edges, processed)[0]
  {
    var rest := ids;
    while rest != []
      invariant Elems(rest) <= inDegree.Keys
      invariant ReadyOf(rest, edges, processed) == ReadyOf(ids, edges, processed)
    {
      assert rest[0] in Elems(rest);
      if rest[0] !in processed && inDegree[rest[0]] == 0 {
        return rest[0];
      }
      rest := rest[1..];
    }
    return "";
  }

  method FirstRemaining(ids: seq<string>, processed: set<string>) returns (pick: string)
    requires Remaining(ids, processed) != []
    ensures pick == Remaining(ids, processed)[0]
  {
    var rest := ids;
    while rest[0] in processed
      invariant rest != [] && Remaining(rest, processed) == Remaining(ids, processed)
      decreases |rest|
    {
      rest := rest[1..];
    }
    return rest[0];
  }

  /** The empty id, when it is ready, is also the smallest id that remains, so
      that using it as "nothing is ready" does no harm. */
  lemma EmptyIsFirst(ids: seq<string>, done: set<string>)
    requires Sorted(Less, ids) && "" in ids && "" !in done
    ensures Remaining(ids, done) != [] && Remaining(ids, done)[0] == ""
  {
    var k :| 0 <= k < |ids| && ids[k] == "";
    assert k > 0 ==> !Less(ids[k], ids[0]);
  }

  method PickNext(ids: seq<string>, inDegree: map<string, int>, processed: set<string>, ghost edges: seq<Edge>)
    returns (pick: string)
    requires Sorted(Less, ids) && Remaining(ids, processed) != []
    requires Elems(ids) <= inDegree.Keys
    requires forall x :: x in inDegree && x !in processed ==> inDegree[x] == Pending(edges, x, processed)
    ensures pick == Pick(ids, edges, processed)
  {
    pick := FirstReady(ids, inDegree, processed, edges);
    if pick == "" {
      if ReadyOf(ids, edges, processed) != [] {
        assert "" in ReadyOf(ids, edges, processed);
        EmptyIsFirst(ids, processed);
      }
      pick := FirstRemaining(ids, processed);
    }
  }

  /** One decrement per listed id, except for the ids that are done. */
  method Decrease(listed: seq<string>, done: set<string>, before: map<string, int>) returns (inDegree: map<string, int>)
    requires forall x :: x in listed ==> x in before
    ensures inDegree.Keys == before.Keys
    ensures forall x :: x in before && x !in done ==> inDegree[x] == before[x] - multiset(listed)[x]
  {
    inDegree := before;
    var rest := listed;
    while rest != []
      invariant inDegree.Keys == before.Keys && forall x :: x in rest ==> x in before
      invariant forall x :: x in before && x !in done ==>
          inDegree[x] - multiset(rest)[x] == before[x] - multiset(listed)[x]
    {
      var to := rest[0];
      assert rest == [to] + rest[1..];
      assert to in rest;
      if to !in done {
        inDegree := inDegree[to := inDegree[to] - 1];
      }
      rest := rest[1..];
    }
  }

  method Relax(out: map<string, seq<string>>, pick: string, processed: set<string>, before: map<string, int>,
               ghost edges: seq<Edge>)
    returns (inDegree: map<string, int>)
    requires pick !in processed
    requires multiset(Listed(out, pick)) == multiset(Heads(edges, pick))
    requires forall e :: e in edges ==> e.to in before
    requires forall x :: x in before && x !in processed ==> before[x] == Pending(edges, x, processed)
    ensures inDegree.Keys == before.Keys
    ensures forall x ::
        x in inDegree && x !in processed + {pick} ==> inDegree[x] == Pending(edges, x, processed + {pick})
  {
    var listed := Listed(out, pick);
    HeadsInside(edges, pick, before.Keys);
    forall x | x in listed ensures x in before {
      InSame(listed, Heads(edges, pick), x);
    }
    inDegree := Decrease(listed, processed + {pick}, before);
    forall x | x in inDegree && x !in processed + {pick}
      ensures inDegree[x] == Pending(edges, x, processed + {pick})
    {
      PendingDone(edges, x, processed, pick);
    }
  }

  lemma {:induction false} HeadsInside(edges: seq<Edge>, from: string, ids: set<string>)
    requires forall e :: e in edges ==> e.to in ids
    ensures Elems(Heads(edges, from)) <= ids
  {
    if edges != [] {
      HeadsInside(edges[1..], from, ids);
      assert edges[0] in edges;
      assert forall x :: x in Heads(edges, from) ==> x == edges[0].to || x in Elems(Heads(edges[1..], from));
    }
  }

  lemma PickOrderStep(ids: seq<string>, edges: seq<Edge>, picks: seq<string>, done: set<string>)
    requires picks + PickOrder(ids, edges, done) == PickOrder(ids, edges, {})
    requires Remaining(ids, done) != []
    ensures var p := Pick(ids, edges, done);
            picks + [p] + PickOrder(ids, edges, done + {p}) == PickOrder(ids, edges, {})
  {
    var p := Pick(ids, edges, done);
    var rest := PickOrder(ids, edges, done + {p});
    assert picks + [p] + rest == picks + ([p] + rest);
  }

  lemma PickOrderDone(ids: seq<string>, edges: seq<Edge>, done: set<string>)
    requires Elems(ids) <= done
    ensures PickOrder(ids, edges, done) == []
  {
    var rem := Remaining(ids, done);
    assert forall x :: x in rem ==> x in Elems(ids);
    assert rem == [] || rem[0] in rem;
  }

  method AssignPotentials(ids: seq<string>, edges: seq<Edge>) returns (potential: map<string, int>)
    requires NoDup(ids) && Sorted(Less, ids)
    requires forall e :: e in edges ==> e.from in ids && e.to in ids
    ensures potential == Ranks(PickOrder(ids, edges, {}))
  {
    var out := Successors(edges);
    var inDegree := InDegrees(ids, edges);
    var processed: set<string> := {};
    potential := map[];
    var next := 0;
    ghost var picks: seq<string> := [];
    ElemsCount(ids);
    assert [] + PickOrder(ids, edges, {}) == PickOrder(ids, edges, {});
    assert Ranks([]) == map[];
    while |processed| < |ids|
      invariant processed == Elems(picks) && processed <= Elems(ids) && next == |picks|
      invariant potential == Ranks(picks)
      invariant picks + PickOrder(ids, edges, processed) == PickOrder(ids, edges, {})
      invariant inDegree.Keys == Elems(ids)
      invariant forall x :: x in inDegree && x !in processed ==> inDegree[x] == Pending(edges, x, processed)
      decreases Elems(ids) - processed
    {
      ghost var left := LargerHasMore(processed, Elems(ids));
      assert left in Remaining(ids, processed);
      PickOrderStep(ids, edges, picks, processed);
      var pick := PickNext(ids, inDegree, processed, edges);
      inDegree := Relax(out, pick, processed, inDegree, edges);
      processed := processed + {pick};
      RanksSnoc(picks, pick);
      ElemsSnoc(picks, pick);
      potential := potential[pick := next];
      next := next + 1;
      picks := picks + [pick];
    }
    SubsetCount(processed, Elems(ids));
    PickOrderDone(ids, edges, processed);
    assert picks == picks + [];
  }

  // ----- the cut (belief_attack_graph.go:174-204) -----

  predicate Climbs(rank: map<string, int>, e: Edge) {
    e.from in rank && e.to in rank && rank[e.from] < rank[e.to]
  }

  function Forward(edges: seq<Edge>, rank: map<string, int>): seq<Edge> {
    Filter(e => Climbs(rank, e), edges)
  }

  function Backward(edges: seq<Edge>, rank: map<string, int>): seq<Edge> {
    Filter(e => !Climbs(rank, e), edges)
  }

  function Potentials(nodes: seq<GraphNode>): map<string, int> {
    map x | x in ById(nodes) :: ById(nodes)[x].potential
  }

  /** The topological rank that the cut gives each node of `g`. */
  function TopologicalRank(g: Graph): map<string, int> {
    Ranks(PickOrder(SortStrings(Ids(g.nodes)), g.edges, {}))
  }

  lemma RankKeys(g: Graph)
    requires WellFormed(g)
    ensures TopologicalRank(g).Keys == ById(g.nodes).Keys == Elems(Ids(g.nodes)) == Elems(SortStrings(Ids(g.nodes)))
  {
    NoDupSorted(Ids(g.nodes));
    ByIdKeys(g.nodes);
    var order := PickOrder(SortStrings(Ids(g.nodes)), g.edges, {});
    assert forall x :: x in TopologicalRank(g) <==> x in Elems(order);
  }

  function Ranked(ids: seq<string>, byId: map<string, GraphNode>, rank: map<string, int>): (r: seq<GraphNode>)
    requires Elems(ids) <= byId.Keys && Elems(ids) <= rank.Keys
    ensures |r| == |ids|
    ensures forall i :: 0 <= i < |ids| ==> ids[i] in byId && ids[i] in rank
    ensures forall i :: 0 <= i < |r| ==> r[i] == byId[ids[i]].(potential := rank[ids[i]])
  {
    assert forall i :: 0 <= i < |ids| ==> ids[i] in Elems(ids);
    seq(|ids|, i requires 0 <= i < |ids| => byId[ids[i]].(potential := rank[ids[i]]))
  }

  function Cut(g: Graph): Graph
    requires WellFormed(g)
  {
    RankKeys(g);
    var rank := TopologicalRank(g);
    Graph(Ranked(SortStrings(Ids(g.nodes)), ById(g.nodes), rank),
          SortEdges(Forward(g.edges, rank)),
          SortEdges(g.dropped + Backward(g.edges, rank)))
  }

  method IndexNodes(nodes: seq<GraphNode>) returns (byId: map<string, GraphNode>)
    ensures byId == ById(nodes)
  {
    byId := map[];
    var rest := nodes;
    while rest != []
      invariant byId + ById(rest) == ById(nodes)
    {
      assert byId[rest[0].id := rest[0]] + ById(rest[1..]) == byId + ById(rest);
      byId := byId[rest[0].id := rest[0]];
      rest := rest[1..];
    }
  }

  method SplitEdges(edges: seq<Edge>, potential: map<string, int>, before: seq<Edge>)
    returns (kept: seq<Edge>, dropped: seq<Edge>)
    requires forall e :: e in edges ==> e.from in potential && e.to in potential
    ensures kept == Forward(edges, potential)
    ensures dropped == before + Backward(edges, potential)
  {
    kept, dropped := [], before;
    var rest := edges;
    while rest != []
      invariant forall e :: e in rest ==> e.from in potential && e.to in potential
      invariant kept + Forward(rest, potential) == Forward(edges, potential)
      invariant dropped + Backward(rest, potential) == before + Backward(edges, potential)
    {
      var e := rest[0];
      assert e in rest;
      FilterStep(f => Climbs(potential, f), kept, rest);
      FilterStep(f => !Climbs(potential, f), dropped, rest);
      if potential[e.from] < potential[e.to] {
        kept := kept + [e];
      } else {
        dropped := dropped + [e];
      }
      rest := rest[1..];
    }
  }

  method BreakCycles(g: Graph) returns (r: Graph)
    requires WellFormed(g)
    ensures r == Cut(g)
  {
    RankKeys(g);
    NoDupSorted(Ids(g.nodes));
    var ids := SortStrings(Ids(g.nodes));
    var byId := IndexNodes(g.nodes);
    assert forall e :: e in g.edges ==> e.from in Elems(ids) && e.to in Elems(ids);
    var potential := AssignPotentials(ids, g.edges);
    assert forall e :: e in g.edges ==> e.from in potential.Keys && e.to in potential.Keys;
    var kept, dropped := SplitEdges(g.edges, potential, g.dropped);
    r := Graph(Ranked(ids, byId, potential), SortEdges(kept), SortEdges(dropped));
  }

  // ----- what the cut guarantees -----

  lemma RankedIds(ids: seq<string>, byId: map<string, GraphNode>, rank: map<string, int>)
    requires Elems(ids) <= byId.Keys && Elems(ids) <= rank.Keys
    requires forall x :: x in byId ==> byId[x].id == x
    ensures Ids(Ranked(ids, byId, rank)) == ids
  {
    assert forall i :: 0 <= i < |ids| ==> ids[i] in byId;
  }

  lemma PotentialsAre(nodes: seq<GraphNode>, rank: map<string, int>)
    requires Elems(Ids(nodes)) == rank.Keys
    requires forall n :: n in nodes ==> n.id in rank && n.potential == rank[n.id]
    ensures Potentials(nodes) == rank
  {
    ByIdKeys(nodes);
  }

  /** The node list is the same apart from the potentials, sorted by id; the
      potentials are the topological ranks. */
  lemma CutNodes(g: Graph)
    requires WellFormed(g)
    ensures Ids(Cut(g).nodes) == SortStrings(Ids(g.nodes))
    ensures forall m :: m in Cut(g).nodes ==> exists n :: n in g.nodes && m == n.(potential := m.potential)
    ensures Potentials(Cut(g).nodes) == TopologicalRank(g)
  {
    RankKeys(g);
    NoDupSorted(Ids(g.nodes));
    ByIdKeys(g.nodes);
    RankedIds(SortStrings(Ids(g.nodes)), ById(g.nodes), TopologicalRank(g));
    PotentialsAre(Cut(g).nodes, TopologicalRank(g));
  }

  lemma RanksBijective(order: seq<string>)
    requires NoDup(order)
    ensures Ranks(order).Keys == Elems(order)
    ensures forall k :: k in Ranks(order).Values <==> 0 <= k < |order|
    ensures forall x, y :: (x in Ranks(order) && y in Ranks(order) && x != y) ==> Ranks(order)[x] != Ranks(order)[y]
  {
    forall k: int | 0 <= k < |order| ensures k in Ranks(order).Values {
      assert order[k] in Ranks(order) && Ranks(order)[order[k]] == k;
    }
  }

  /** Potentials are a bijection from the ids onto 0 .. n - 1. */
  lemma PotentialsBijective(g: Graph)
    requires WellFormed(g)
    ensures Potentials(Cut(g).nodes).Keys == Elems(Ids(g.nodes))
    ensures forall k :: k in Potentials(Cut(g).nodes).Values <==> 0 <= k < |g.nodes|
    ensures forall x, y ::
        (x in Potentials(Cut(g).nodes) && y in Potentials(Cut(g).nodes) && x != y) ==>
        Potentials(Cut(g).nodes)[x] != Potentials(Cut(g).nodes)[y]
  {
    CutNodes(g);
    RankKeys(g);
    var order := PickOrder(SortStrings(Ids(g.nodes)), g.edges, {});
    RanksBijective(order);
    ElemsCount(order);
    ElemsCount(Ids(g.nodes));
  }

  /** No edge is lost or duplicated: the edges that climb are kept and the
      others join the dropped ones. */
  lemma CutSharesEdges(g: Graph)
    requires WellFormed(g)
    ensures multiset(Cut(g).edges) == multiset(Forward(g.edges, Potentials(Cut(g).nodes)))
    ensures multiset(Cut(g).dropped) == multiset(g.dropped) + multiset(Backward(g.edges, Potentials(Cut(g).nodes)))
    ensures multiset(Cut(g).edges) + multiset(Cut(g).dropped) == multiset(g.edges) + multiset(g.dropped)
  {
    CutNodes(g);
    var rank := TopologicalRank(g);
    FilterSplit(e => Climbs(rank, e), e => !Climbs(rank, e), g.edges);
  }

  lemma CutAcyclic(g: Graph)
    requires WellFormed(g)
    ensures !Cyclic(Cut(g).edges)
  {
    var rank := TopologicalRank(g);
    var kept := Forward(g.edges, rank);
    forall e | e in Cut(g).edges ensures Climbs(rank, e) {
      InSame(Cut(g).edges, kept, e);
    }
    RankedAcyclic(Cut(g).edges, rank);
  }

  /** An edge is cut only when its head is reachable from a cycle of the
      input. */
  lemma CutOnlyAfterCycles(g: Graph, e: Edge)
    requires WellFormed(g) && e in Backward(g.edges, Potentials(Cut(g).nodes))
    ensures AfterCycle(g.edges, e.to)
  {
    CutNodes(g);
    RankKeys(g);
    var ids := SortStrings(Ids(g.nodes));
    forall f | f in g.edges ensures f.from in ids && f.to in ids {
      assert f.from in Elems(ids) && f.to in Elems(ids);
    }
    var order := PickOrder(ids, g.edges, {});
    forall x ensures x in order <==> x in ids && x !in {} {
      assert x in Elems(order) <==> x in Elems(ids);
    }
    ForcedAfterCycle(ids, g.edges, {}, e);
  }

  /** An edge is cut exactly when its head is forced, with nothing ready,
      before its tail is picked. */
  lemma CutExactly(g: Graph, e: Edge)
    requires WellFormed(g) && e in g.edges
    ensures e in Backward(g.edges, Potentials(Cut(g).nodes)) <==> Forced(SortStrings(Ids(g.nodes)), g.edges, e)
  {
    CutNodes(g);
    RankKeys(g);
    var ids := SortStrings(Ids(g.nodes));
    var order := PickOrder(ids, g.edges, {});
    assert e.from in Elems(order) && e.to in Elems(order);
    AgainstIffForced(ids, g.edges, e);
  }

  lemma CutSides(g: Graph, e: Edge)
    requires WellFormed(g) && e in g.edges && e !in g.dropped
    ensures e in Cut(g).dropped <==> Forced(SortStrings(Ids(g.nodes)), g.edges, e)
    ensures e in Cut(g).edges <==> e !in Cut(g).dropped
  {
    var rank := Potentials(Cut(g).nodes);
    CutExactly(g, e);
    CutSharesEdges(g);
    InSame(Cut(g).edges, Forward(g.edges, rank), e);
    InSame(Cut(g).dropped, g.dropped + Backward(g.edges, rank), e);
  }

  /** Something is cut exactly when the input has a cycle. */
  lemma CutsNothingIffAcyclic(g: Graph)
    requires WellFormed(g)
    ensures Backward(g.edges, Potentials(Cut(g).nodes)) == [] <==> !Cyclic(g.edges)
  {
    var cut := Backward(g.edges, Potentials(Cut(g).nodes));
    if cut != [] {
      CutOnlyAfterCycles(g, cut[0]);
      AfterCycleCyclic(g.edges, cut[0].to);
    } else {
      CutSharesEdges(g);
      CutAcyclic(g);
      var r := Cut(g);
      Cancel(multiset(r.edges), multiset(r.dropped), multiset(g.edges), multiset(g.dropped));
      SameEdgesAcyclic(r.edges, g.edges);
    }
  }

  lemma SameEdgesAcyclic(edges: seq<Edge>, edges': seq<Edge>)
    requires multiset(edges) == multiset(edges') && !Cyclic(edges)
    ensures !Cyclic(edges')
  {
    forall w ensures !IsCycle(edges', w) {
      forall u, v | Linked(edges', u, v) ensures Linked(edges, u, v) {
        var e :| e in edges' && e.from == u && e.to == v;
        InSame(edges, edges', e);
      }
      assert IsCycle(edges', w) ==> IsCycle(edges, w);
    }
  }

  lemma AcyclicLosesNothing(g: Graph)
    requires WellFormed(g) && !Cyclic(g.edges)
    ensures multiset(Cut(g).edges) == multiset(g.edges) && multiset(Cut(g).dropped) == multiset(g.dropped)
  {
    CutSharesEdges(g);
    CutsNothingIffAcyclic(g);
    var r := Cut(g);
    Cancel(multiset(r.edges), multiset(r.dropped), multiset(g.edges), multiset(g.dropped));
  }

  /** A two-node cycle b -> c -> b with an edge c -> a out of it. */
  function Downstream(kind: string, a: string, b: string, c: string): seq<Edge> {
    [Edge(kind, b, c), Edge(kind, c, b), Edge(kind, c, a)]
  }

  lemma AllWait(edges: seq<Edge>, kind: string, a: string, b: string, c: string)
    requires Edge(kind, b, c) in edges && Edge(kind, c, b) in edges && Edge(kind, c, a) in edges
    ensures forall x :: x in [a, b, c] ==> !Ready(edges, x, {})
  {
    assert !Ready(edges, a, {}) && !Ready(edges, b, {}) && !Ready(edges, c, {});
  }

  lemma OffCycle(edges: seq<Edge>, kind: string, a: string, b: string, c: string)
    requires edges == Downstream(kind, a, b, c) && a != b && a != c
    ensures forall w, i :: IsCycle(edges, w) && 0 <= i < |w| ==> w[i] != a
  {
    forall w, i | IsCycle(edges, w) && 0 <= i < |w| ensures w[i] != a {
      var k := if i == |w| - 1 then 0 else i;
      assert Linked(edges, w[k], w[k + 1]);
    }
  }

  lemma AlreadySorted(names: seq<string>)
    requires Sorted(Less, names)
    ensures SortStrings(names) == names
  {
    LessOrder(multiset(names));
    SortStringsCanonical(names, names);
    SortedUnique(Less, SortStrings(names), names);
  }

  lemma CutDownstream(g: Graph, kind: string, a: string, b: string, c: string)
    requires WellFormed(g) && Ids(g.nodes) == [a, b, c] && Sorted(Less, Ids(g.nodes))
    requires g.edges == Downstream(kind, a, b, c)
    ensures Edge(kind, c, a) in Backward(g.edges, Potentials(Cut(g).nodes))
  {
    assert g.edges[0] in g.edges && g.edges[1] in g.edges && g.edges[2] in g.edges;
    AlreadySorted(Ids(g.nodes));
    AllWait(g.edges, kind, a, b, c);
    FirstIsForced([a, b, c], g.edges, Edge(kind, c, a));
    CutExactly(g, Edge(kind, c, a));
  }

  /** A cut edge need not lie on a cycle itself: the smallest id is forced
      first even when no edge leaves it. */
  lemma CutOffCycle(g: Graph, kind: string, a: string, b: string, c: string)
    requires WellFormed(g) && Ids(g.nodes) == [a, b, c] && Sorted(Less, Ids(g.nodes))
    requires g.edges == Downstream(kind, a, b, c)
    ensures Edge(kind, c, a) in Backward(g.edges, Potentials(Cut(g).nodes))
    ensures forall w, i :: IsCycle(g.edges, w) && 0 <= i < |w| ==> w[i] != a
  {
    CutDownstream(g, kind, a, b, c);
    assert Ids(g.nodes)[0] != Ids(g.nodes)[1] && Ids(g.nodes)[0] != Ids(g.nodes)[2];
    OffCycle(g.edges, kind, a, b, c);
  }

  lemma FirstRankedZero(order: seq<string>)
    ensures forall e: Edge :: order != [] && e.to == order[0] ==> !Climbs(Ranks(order), e)
  {
  }

  lemma SmallestForcedFirst(ids: seq<string>, edges: seq<Edge>)
    requires ids != [] && forall x :: x in ids ==> !Ready(edges, x, {})
    ensures PickOrder(ids, edges, {}) != [] && PickOrder(ids, edges, {})[0] == ids[0]
  {
    assert ids[0] in Remaining(ids, {});
    assert forall x :: x !in ReadyOf(ids, edges, {});
    assert Remaining(ids, {}) == [ids[0]] + Remaining(ids[1..], {});
  }

  lemma FirstIsForced(ids: seq<string>, edges: seq<Edge>, e: Edge)
    requires ids != [] && e.to == ids[0] && forall x :: x in ids ==> !Ready(edges, x, {})
    ensures Forced(ids, edges, e)
  {
    SmallestForcedFirst(ids, edges);
    assert Elems(PickOrder(ids, edges, {})[..0]) == {};
    assert forall x :: x !in ReadyOf(ids, edges, {});
    assert ForcedAt(ids, edges, e, 0);
  }

  /** Where every node waits for another, the smallest id is forced first and
      keeps no edge into it. */
  lemma FirstForced(g: Graph, e: Edge)
    requires WellFormed(g) && e in Cut(g).edges
    requires forall x :: x in Ids(g.nodes) ==> !Ready(g.edges, x, {})
    ensures SortStrings(Ids(g.nodes)) != [] && e.to != SortStrings(Ids(g.nodes))[0]
  {
    var ids := SortStrings(Ids(g.nodes));
    CutSharesEdges(g);
    CutNodes(g);
    InSame(Cut(g).edges, Forward(g.edges, TopologicalRank(g)), e);
    RankKeys(g);
    assert e.to in Elems(ids);
    forall x | x in ids ensures !Ready(g.edges, x, {}) {
      assert x in Elems(ids);
    }
    SmallestForcedFirst(ids, g.edges);
    FirstRankedZero(PickOrder(ids, g.edges, {}));
  }

  // ----- the cut depends on the sets only -----

  /** The same nodes and edges, listed in another order. */
  ghost predicate Relisted(g: Graph, g': Graph) {
    && multiset(g.nodes) == multiset(g'.nodes)
    && multiset(g.edges) == multiset(g'.edges)
    && multiset(g.dropped) == multiset(g'.dropped)
  }

  lemma SameIds(nodes: seq<GraphNode>, nodes': seq<GraphNode>)
    requires multiset(nodes) == multiset(nodes')
    ensures Elems(Ids(nodes)) <= Elems(Ids(nodes'))
  {
    forall x | x in Ids(nodes) ensures x in Ids(nodes') {
      var i :| 0 <= i < |nodes| && nodes[i].id == x;
      InSame(nodes, nodes', nodes[i]);
      var j :| 0 <= j < |nodes'| && nodes'[j] == nodes[i];
      assert Ids(nodes')[j] == x;
    }
  }

  lemma UniqueRelisted(nodes: seq<GraphNode>, nodes': seq<GraphNode>)
    requires multiset(nodes) == multiset(nodes') && NoDup(Ids(nodes))
    ensures Elems(Ids(nodes)) == Elems(Ids(nodes')) && NoDup(Ids(nodes'))
  {
    SameIds(nodes, nodes');
    SameIds(nodes', nodes);
    assert Elems(Ids(nodes)) == Elems(Ids(nodes'));
    ElemsCount(Ids(nodes));
    assert |nodes| == |multiset(nodes)| && |nodes'| == |multiset(nodes')|;
    CountNoDup(Ids(nodes'));
  }

  lemma ByIdRelisted(nodes: seq<GraphNode>, nodes': seq<GraphNode>)
    requires multiset(nodes) == multiset(nodes') && NoDup(Ids(nodes))
    ensures ById(nodes) == ById(nodes')
  {
    UniqueRelisted(nodes, nodes');
    var byId, byId' := ById(nodes), ById(nodes');
    assert byId.Keys == byId'.Keys by {
      ByIdKeys(nodes);
      ByIdKeys(nodes');
    }
    forall x | x in byId ensures byId[x] == byId'[x] {
      ByIdSame(nodes, nodes', x);
    }
  }

  lemma ByIdSame(nodes: seq<GraphNode>, nodes': seq<GraphNode>, x: string)
    requires multiset(nodes) == multiset(nodes') && NoDup(Ids(nodes')) && x in ById(nodes)
    ensures x in ById(nodes') && ById(nodes')[x] == ById(nodes)[x]
  {
    ByIdKeys(nodes);
    var n := ById(nodes)[x];
    InSame(nodes, nodes', n);
    var j :| 0 <= j < |nodes'| && nodes'[j] == n;
    ByIdUnique(nodes', j);
  }

  lemma WellFormedRelisted(g: Graph, g': Graph)
    requires WellFormed(g) && Relisted(g, g')
    ensures WellFormed(g')
  {
    UniqueRelisted(g.nodes, g'.nodes);
    forall e | e in g'.edges ensures e.from in Elems(Ids(g'.nodes)) && e.to in Elems(Ids(g'.nodes)) {
      InSame(g.edges, g'.edges, e);
      assert e.from in Elems(Ids(g.nodes)) && e.to in Elems(Ids(g.nodes));
    }
  }

  lemma RankRelisted(g: Graph, g': Graph)
    requires WellFormed(g) && Relisted(g, g')
    ensures TopologicalRank(g) == TopologicalRank(g')
    ensures SortStrings(Ids(g.nodes)) == SortStrings(Ids(g'.nodes))
  {
    UniqueRelisted(g.nodes, g'.nodes);
    SortStringsOfSet(Ids(g.nodes), Ids(g'.nodes));
    forall e ensures e in g.edges <==> e in g'.edges {
      InSame(g.edges, g'.edges, e);
    }
    PickOrderSame(SortStrings(Ids(g.nodes)), g.edges, g'.edges, {});
  }

  /** The same graph in any order gives the same result. */
  lemma CutRelisted(g: Graph, g': Graph)
    requires WellFormed(g) && Relisted(g, g')
    ensures WellFormed(g') && Cut(g) == Cut(g')
  {
    WellFormedRelisted(g, g');
    RankRelisted(g, g');
    ByIdRelisted(g.nodes, g'.nodes);
    var rank := TopologicalRank(g);
    FilterPermuted(e => Climbs(rank, e), g.edges, g'.edges);
    FilterPermuted(e => !Climbs(rank, e), g.edges, g'.edges);
    SortEdgesCanonical(Forward(g.edges, rank), Forward(g'.edges, rank));
    SortEdgesCanonical(g.dropped + Backward(g.edges, rank), g'.dropped + Backward(g'.edges, rank));
  }

  // ----- the enablement graph (belief_attack_graph.go:128-168) -----

  /** The belief-bearing nodes by id; of two with one id the later stays. */
  function Bearing(nodes: seq<InfraNode>, registry: Registry): map<string, InfraNode> {
    if nodes == [] then map[]
    else (if nodes[0].kind in registry.bearing then map[nodes[0].id := nodes[0]] else map[])
         + Bearing(nodes[1..], registry)
  }

  lemma {:induction false} BearingSound(nodes: seq<InfraNode>, registry: Registry)
    ensures forall x :: x in Bearing(nodes, registry) ==>
        var n := Bearing(nodes, registry)[x];
        n in nodes && n.id == x && n.kind in registry.bearing
  {
    if nodes != [] {
      BearingSound(nodes[1..], registry);
    }
  }

  ghost predicate UniquelyNamed(nodes: seq<InfraNode>) {
    forall m, n :: m in nodes && n in nodes && m.id == n.id ==> m == n
  }

  lemma {:induction false} BearingComplete(nodes: seq<InfraNode>, registry: Registry, n: InfraNode)
    requires UniquelyNamed(nodes) && n in nodes && n.kind in registry.bearing
    ensures n.id in Bearing(nodes, registry) && Bearing(nodes, registry)[n.id] == n
  {
    var rest := nodes[1..];
    assert nodes[0] in nodes && forall m :: m in rest ==> m in nodes;
    BearingSound(rest, registry);
    if n in rest {
      BearingComplete(rest, registry, n);
    }
  }

  predicate Eligible(registry: Registry, ids: set<string>, e: Edge) {
    e.kind in registry.feeds && e.from in ids && e.to in ids
  }

  function Enabling(edges: seq<Edge>, registry: Registry, ids: set<string>): seq<Edge> {
    Filter(e => Eligible(registry, ids, e), edges)
  }

  /** The retained nodes in the order of `ids`, each with its variables. */
  function Retained(ids: seq<string>, bearing: map<string, InfraNode>, registry: Registry): (r: seq<GraphNode>)
    requires forall x :: x in ids ==> x in bearing && bearing[x].kind in registry.bearing
    ensures |r| == |ids|
    ensures forall i :: 0 <= i < |r| ==> ids[i] in bearing && bearing[ids[i]].kind in registry.bearing
    ensures forall i :: 0 <= i < |r| ==>
        r[i] == GraphNode(bearing[ids[i]].id, bearing[ids[i]].kind, registry.bearing[bearing[ids[i]].kind], 0)
  {
    seq(|ids|, i requires 0 <= i < |ids| =>
      var n := bearing[ids[i]];
      GraphNode(n.id, n.kind, registry.bearing[n.kind], 0))
  }

  ghost function Enabled(nodes: seq<InfraNode>, edges: seq<Edge>, registry: Registry): Graph {
    BearingSound(nodes, registry);
    var bearing := Bearing(nodes, registry);
    NoDupSorted(Listing(bearing.Keys));
    var ids := SortStrings(Listing(bearing.Keys));
    assert forall x :: x in ids ==> x in Elems(ids);
    Graph(Retained(ids, bearing, registry), SortEdges(Enabling(edges, registry, bearing.Keys)), [])
  }

  method EnablementGraph(nodes: seq<InfraNode>, edges: seq<Edge>, registry: Registry) returns (r: Graph)
    ensures r == Enabled(nodes, edges, registry)
  {
    BearingSound(nodes, registry);
    var bearing := CollectBearing(nodes, registry);
    var kept := CollectEnabling(edges, registry, bearing.Keys);
    var keys := KeysOf(bearing.Keys);
    SortStringsOfSet(keys, Listing(bearing.Keys));
    NoDupSorted(keys);
    var ids := SortStrings(keys);
    assert forall x :: x in ids ==> x in Elems(ids);
    r := Graph(Retained(ids, bearing, registry), SortEdges(kept), []);
  }

  method CollectBearing(nodes: seq<InfraNode>, registry: Registry) returns (bearing: map<string, InfraNode>)
    ensures bearing == Bearing(nodes, registry)
  {
    bearing := map[];
    var rest := nodes;
    while rest != []
      invariant bearing + Bearing(rest, registry) == Bearing(nodes, registry)
    {
      var n := rest[0];
      if n.kind in registry.bearing {
        assert bearing[n.id := n] + Bearing(rest[1..], registry) == bearing + Bearing(rest, registry);
        bearing := bearing[n.id := n];
      }
      rest := rest[1..];
    }
  }

  method CollectEnabling(edges: seq<Edge>, registry: Registry, ids: set<string>) returns (kept: seq<Edge>)
    ensures kept == Enabling(edges, registry, ids)
  {
    kept := [];
    var rest := edges;
    while rest != []
      invariant kept + Enabling(rest, registry, ids) == Enabling(edges, registry, ids)
    {
      FilterStep(e => Eligible(registry, ids, e), kept, rest);
      if rest[0].kind in registry.feeds && rest[0].from in ids && rest[0].to in ids {
        kept := kept + [rest[0]];
      }
      rest := rest[1..];
    }
  }

  /** The graph handed to the cut always has unique ids and inner edges. */
  lemma EnabledWellFormed(nodes: seq<InfraNode>, edges: seq<Edge>, registry: Registry)
    ensures WellFormed(Enabled(nodes, edges, registry))
    ensures Elems(Ids(Enabled(nodes, edges, registry).nodes)) == Bearing(nodes, registry).Keys
  {
    BearingSound(nodes, registry);
    var g := Enabled(nodes, edges, registry);
    var bearing := Bearing(nodes, registry);
    var ids := SortStrings(Listing(bearing.Keys));
    NoDupSorted(Listing(bearing.Keys));
    assert forall x :: x in ids ==> x in Elems(ids);
    assert Ids(g.nodes) == ids;
    var kept := Enabling(edges, registry, bearing.Keys);
    forall e | e in g.edges ensures e.from in Elems(ids) && e.to in Elems(ids) {
      InSame(g.edges, kept, e);
    }
  }

  /** It holds exactly the belief-bearing nodes, and of the edges exactly those
      of an enablement kind between two of them. */
  lemma EnabledExactly(nodes: seq<InfraNode>, edges: seq<Edge>, registry: Registry, n: GraphNode, e: Edge)
    requires UniquelyNamed(nodes)
    ensures n in Enabled(nodes, edges, registry).nodes <==>
            (InfraNode(n.id, n.kind) in nodes && n.kind in registry.bearing
             && n.variables == registry.bearing[n.kind] && n.potential == 0)
    ensures multiset(Enabled(nodes, edges, registry).edges)[e] ==
            if Eligible(registry, Elems(Ids(Enabled(nodes, edges, registry).nodes)), e) then multiset(edges)[e] else 0
  {
    EnabledWellFormed(nodes, edges, registry);
    var bearing := Bearing(nodes, registry);
    FilterCount(f => Eligible(registry, bearing.Keys, f), edges, e);
    BearingSound(nodes, registry);
    var g := Enabled(nodes, edges, registry);
    var infra := InfraNode(n.id, n.kind);
    if infra in nodes && n.kind in registry.bearing {
      BearingComplete(nodes, registry, infra);
      assert n.id in Elems(Ids(g.nodes));
    }
  }

  lemma BearingRelisted(nodes: seq<InfraNode>, nodes': seq<InfraNode>, registry: Registry)
    requires UniquelyNamed(nodes) && multiset(nodes) == multiset(nodes')
    ensures Bearing(nodes, registry) == Bearing(nodes', registry)
  {
    BearingSound(nodes, registry);
    BearingSound(nodes', registry);
    forall n ensures n in nodes <==> n in nodes' {
      InSame(nodes, nodes', n);
    }
    forall n | n in nodes && n.kind in registry.bearing
      ensures n.id in Bearing(nodes, registry) && n.id in Bearing(nodes', registry)
      ensures Bearing(nodes, registry)[n.id] == n == Bearing(nodes', registry)[n.id]
    {
      BearingComplete(nodes, registry, n);
      BearingComplete(nodes', registry, n);
    }
  }

  /** Derivation is a function of the sets of nodes and edges. */
  lemma DerivationRelisted(nodes: seq<InfraNode>, nodes': seq<InfraNode>, edges: seq<Edge>, edges': seq<Edge>,
                           registry: Registry)
    requires UniquelyNamed(nodes) && multiset(nodes) == multiset(nodes') && multiset(edges) == multiset(edges')
    ensures Enabled(nodes, edges, registry) == Enabled(nodes', edges', registry)
  {
    BearingRelisted(nodes, nodes', registry);
    var ids := Bearing(nodes, registry).Keys;
    FilterPermuted(e => Eligible(registry, ids, e), edges, edges');
    SortEdgesCanonical(Enabling(edges, registry, ids), Enabling(edges', registry, ids));
  }

  method DeriveAttackGraph(nodes: seq<InfraNode>, edges: seq<Edge>, registry: Registry) returns (r: Graph)
    ensures WellFormed(Enabled(nodes, edges, registry)) && r == Cut(Enabled(nodes, edges, registry))
    ensures !Cyclic(r.edges)
  {
    EnabledWellFormed(nodes, edges, registry);
    CutAcyclic(Enabled(nodes, edges, registry));
    var g := EnablementGraph(nodes, edges, registry);
    r := BreakCycles(g);
  }
}
