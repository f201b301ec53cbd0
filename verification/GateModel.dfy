/** The slice-digest protocol as a state machine
(internal/engine/brain/belief_slice_gate.go, belief_graph_wire.go:76-110).

A digest is the payload it fingerprints: hashing is taken to be injective.
The provider is a pure function of what the digest covers of a slice: its node
ids, kinds and edges (the registry that maps kinds to variables is fixed).
Writes to the substrate are visible to the next read and do not fail. */
module GateModel {
  import opened Factors
  import opened Order
  import opened Graphs
  import opened Lists
  import opened AttackGraph
  import Slice

  datatype Ref = Ref(kind: string, id: string)
  datatype Belief = Belief(reachable: real, exploitable: real, juicy: real, model: string)
  datatype Content = Content(belief: Belief, causes: seq<string>)
  datatype NodeBelief = NodeBelief(content: Content, evidence: string)
  type Beliefs = map<Ref, NodeBelief>

  datatype DigestNode = DigestNode(id: string, kind: string, evidence: string)
  datatype Digest = Digest(nodes: seq<DigestNode>, edges: seq<Edge>)
  datatype Shape = Shape(nodes: seq<InfraNode>, edges: seq<Edge>)
  type Provider = Shape -> map<string, Content>

  datatype Request = Request(target: string, slice: Graph, digest: Digest)
  datatype ScoredNode = ScoredNode(ref: Ref, content: Content)

  /** The graph, the bounds and the relevance that a round works with. */
  datatype Env = Env(graph: Graph, slicing: Slice.Options, propagation: Slice.Options, relevance: map<string, real>)

  datatype State = State(digests: map<string, Digest>, beliefs: Beliefs, pending: seq<Request>)

  // ----- digests -----

  function EvidenceOf(beliefs: Beliefs, ref: Ref): string {
    if ref in beliefs then beliefs[ref].evidence else ""
  }

  function DigestOf(slice: Graph, beliefs: Beliefs): Digest {
    Digest(seq(|slice.nodes|, i requires 0 <= i < |slice.nodes| =>
             var n := slice.nodes[i];
             DigestNode(n.id, n.kind, EvidenceOf(beliefs, Ref(n.kind, n.id)))),
           slice.edges)
  }

  function ShapeOf(slice: Graph): Shape {
    Shape(seq(|slice.nodes|, i requires 0 <= i < |slice.nodes| => InfraNode(slice.nodes[i].id, slice.nodes[i].kind)),
          slice.edges)
  }

  function Outline(d: Digest): Shape {
    Shape(seq(|d.nodes|, i requires 0 <= i < |d.nodes| => InfraNode(d.nodes[i].id, d.nodes[i].kind)), d.edges)
  }

  lemma OutlineOfDigest(slice: Graph, beliefs: Beliefs)
    ensures Outline(DigestOf(slice, beliefs)) == ShapeOf(slice)
  {
  }

  /** The same evidence gives the same digest, whatever the beliefs are. */
  lemma DigestSame(slice: Graph, beliefs: Beliefs, beliefs': Beliefs)
    requires forall ref :: EvidenceOf(beliefs, ref) == EvidenceOf(beliefs', ref)
    ensures DigestOf(slice, beliefs) == DigestOf(slice, beliefs')
  {
  }

  // ----- scores -----

  function Named(nodes: seq<InfraNode>, target: string, content: Content): (r: seq<ScoredNode>)
    ensures forall sn :: sn in r ==> sn.ref.id == target && sn.content == content
  {
    if nodes == [] then []
    else
      (if nodes[0].id == target then [ScoredNode(Ref(nodes[0].kind, target), content)] else [])
      + Named(nodes[1..], target, content)
  }

  /** What the provider says about the target of a slice. */
  function Answer(provider: Provider, shape: Shape, target: string): seq<ScoredNode> {
    if target in provider(shape) then Named(shape.nodes, target, provider(shape)[target]) else []
  }

  /** Every scored node already has that content. */
  predicate Holds(beliefs: Beliefs, nodes: seq<ScoredNode>) {
    forall sn :: sn in nodes ==> sn.ref in beliefs && beliefs[sn.ref].content == sn.content
  }

  function Write(beliefs: Beliefs, nodes: seq<ScoredNode>): Beliefs
    decreases |nodes|
  {
    if nodes == [] then beliefs
    else Write(beliefs[nodes[0].ref := NodeBelief(nodes[0].content, EvidenceOf(beliefs, nodes[0].ref))], nodes[1..])
  }

  lemma {:induction false} WriteFrame(beliefs: Beliefs, nodes: seq<ScoredNode>, ref: Ref)
    ensures EvidenceOf(Write(beliefs, nodes), ref) == EvidenceOf(beliefs, ref)
    ensures (forall sn :: sn in nodes ==> sn.ref != ref) ==>
            ((ref in beliefs <==> ref in Write(beliefs, nodes))
             && (ref in beliefs ==> beliefs[ref] == Write(beliefs, nodes)[ref]))
    decreases |nodes|
  {
    if nodes != [] {
      assert nodes[0] in nodes;
      var one := beliefs[nodes[0].ref := NodeBelief(nodes[0].content, EvidenceOf(beliefs, nodes[0].ref))];
      WriteFrame(one, nodes[1..], ref);
    }
  }

  lemma {:induction false} WriteSets(beliefs: Beliefs, nodes: seq<ScoredNode>, ref: Ref, content: Content)
    requires forall sn :: sn in nodes ==> sn.content == content
    requires (exists sn :: sn in nodes && sn.ref == ref) || (ref in beliefs && beliefs[ref].content == content)
    ensures ref in Write(beliefs, nodes) && Write(beliefs, nodes)[ref].content == content
    decreases |nodes|
  {
    if nodes != [] {
      var one := beliefs[nodes[0].ref := NodeBelief(nodes[0].content, EvidenceOf(beliefs, nodes[0].ref))];
      assert nodes[0] in nodes;
      WriteSets(one, nodes[1..], ref, content);
    }
  }

  lemma WriteHolds(provider: Provider, beliefs: Beliefs, shape: Shape, target: string)
    ensures Holds(Write(beliefs, Answer(provider, shape, target)), Answer(provider, shape, target))
  {
    var nodes := Answer(provider, shape, target);
    forall sn | sn in nodes
      ensures sn.ref in Write(beliefs, nodes) && Write(beliefs, nodes)[sn.ref].content == sn.content
    {
      WriteSets(beliefs, nodes, sn.ref, sn.content);
    }
  }

  /** A write for one target does not disturb what another target holds. */
  lemma WriteElsewhere(provider: Provider, beliefs: Beliefs, shape: Shape, target: string, shape': Shape, other: string)
    requires target != other
    ensures Holds(beliefs, Answer(provider, shape', other))
        <==> Holds(Write(beliefs, Answer(provider, shape, target)), Answer(provider, shape', other))
  {
    forall sn | sn in Answer(provider, shape', other)
      ensures var w := Write(beliefs, Answer(provider, shape, target));
              (sn.ref in beliefs <==> sn.ref in w) && (sn.ref in beliefs ==> beliefs[sn.ref] == w[sn.ref])
    {
      WriteFrame(beliefs, Answer(provider, shape, target), sn.ref);
    }
  }

  // ----- downstream propagation (belief_slice_gate.go:252-287) -----

  /** The ids a forward walk may meet. */
  function Reached(edges: seq<Edge>, changed: string): set<string> {
    {changed} + (set e | e in edges :: e.to)
  }

  /** The nodes within the hop bound downstream of `changed`. */
  ghost function DownstreamOf(g: Graph, changed: string, maxDepth: int): set<string> {
    Slice.Candidates(Slice.Flip(g.edges), Reached(g.edges, changed), changed, maxDepth) - {changed}
  }

  /** Sorted and cut at the node budget. */
  ghost function Affected(g: Graph, changed: string, opts: Slice.Options): seq<string> {
    var all := SortStrings(Listing(DownstreamOf(g, changed, opts.maxDepth)));
    if 0 < opts.nodeBudget < |all| then all[..opts.nodeBudget] else all
  }

  lemma AffectedInside(g: Graph, changed: string, opts: Slice.Options)
    requires WellFormed(g)
    ensures Elems(Affected(g, changed, opts)) <= DownstreamOf(g, changed, opts.maxDepth) <= Elems(Ids(g.nodes))
    ensures Affected(g, changed, opts) != [] ==> changed in Elems(Ids(g.nodes))
  {
    NoDupSorted(Listing(DownstreamOf(g, changed, opts.maxDepth)));
    var all := SortStrings(Listing(DownstreamOf(g, changed, opts.maxDepth)));
    assert forall x :: x in Affected(g, changed, opts) ==> x in all;
    assert forall x :: x in all ==> x in Elems(all);
    forall x | x in DownstreamOf(g, changed, opts.maxDepth)
      ensures x in Elems(Ids(g.nodes)) && changed in Elems(Ids(g.nodes))
    {
      assert x in Reached(g.edges, changed);
      var k: nat :| Slice.Allowed(opts.maxDepth, k)
        && x in Slice.Ball(Slice.Flip(g.edges), Reached(g.edges, changed), changed, k);
      LeavesChanged(g.edges, Reached(g.edges, changed), changed, k, x);
    }
    if Affected(g, changed, opts) != [] {
      assert Affected(g, changed, opts)[0] in Affected(g, changed, opts);
    }
  }

  lemma {:induction false} LeavesChanged(edges: seq<Edge>, known: set<string>, changed: string, k: nat, x: string)
    requires x in Slice.Ball(Slice.Flip(edges), known, changed, k) && x != changed
    ensures exists e :: e in edges && e.from == changed
  {
    if x in Slice.Ball(Slice.Flip(edges), known, changed, k - 1) {
      LeavesChanged(edges, known, changed, k - 1, x);
    } else {
      var f :| f in Slice.Flip(edges) && f.to in Slice.Ball(Slice.Flip(edges), known, changed, k - 1) && f.from == x;
      var i :| 0 <= i < |edges| && Slice.Flip(edges)[i] == f;
      if f.to == changed {
        assert edges[i] in edges && edges[i].from == changed;
      } else {
        LeavesChanged(edges, known, changed, k - 1, f.to);
      }
    }
  }

  // ----- the steps -----

  ghost function SliceOf(env: Env, target: string): Graph {
    Slice.Extract(env.graph, target, env.slicing, env.relevance)
  }

  ghost function Current(env: Env, beliefs: Beliefs, target: string): Digest {
    DigestOf(SliceOf(env, target), beliefs)
  }

  ghost predicate Fresh(env: Env, s: State, target: string) {
    target in s.digests && s.digests[target] == Current(env, s.beliefs, target)
  }

  /** Check a target and tap the request, if there is one. */
  ghost function CheckStep(env: Env, s: State, target: string): State {
    if Fresh(env, s, target) then s
    else
      var d := Current(env, s.beliefs, target);
      State(s.digests[target := d], s.beliefs, s.pending + [Request(target, SliceOf(env, target), d)])
  }

  /** Score the oldest request and apply the result, unless it is stale. */
  ghost function ScoreStep(provider: Provider, env: Env, s: State): State
    requires s.pending != []
  {
    var req := s.pending[0];
    var nodes := Answer(provider, ShapeOf(req.slice), req.target);
    if req.target !in s.digests || s.digests[req.target] != req.digest then s.(pending := s.pending[1..])
    else
      State(if Holds(s.beliefs, nodes) then s.digests
            else s.digests - Elems(Affected(env.graph, req.target, env.propagation)),
            Write(s.beliefs, nodes), s.pending[1..])
  }

  /** New evidence for one node. */
  function EvidenceStep(s: State, ref: Ref, content: Content, evidence: string): State {
    s.(beliefs := s.beliefs[ref := NodeBelief(if ref in s.beliefs then s.beliefs[ref].content else content, evidence)])
  }

  // ----- the invariant of every run -----

  ghost predicate Outstanding(s: State, target: string) {
    exists req :: req in s.pending && req.target == target && target in s.digests && req.digest == s.digests[target]
  }

  /** A recorded digest is either answered or still requested. */
  ghost predicate Answered(provider: Provider, s: State, target: string) {
    target in s.digests ==>
      Outstanding(s, target) || Holds(s.beliefs, Answer(provider, Outline(s.digests[target]), target))
  }

  ghost predicate Inv(provider: Provider, s: State) {
    && (forall req :: req in s.pending ==> Outline(req.digest) == ShapeOf(req.slice))
    && (forall n :: Answered(provider, s, n))
  }

  lemma CheckKeeps(provider: Provider, env: Env, s: State, target: string)
    requires Inv(provider, s)
    ensures Inv(provider, CheckStep(env, s, target))
  {
    OutlineOfDigest(SliceOf(env, target), s.beliefs);
    forall n ensures Answered(provider, CheckStep(env, s, target), n) {
      CheckKeepsOne(provider, env, s, target, n);
    }
  }

  lemma CheckKeepsOne(provider: Provider, env: Env, s: State, target: string, n: string)
    requires Inv(provider, s)
    ensures Answered(provider, CheckStep(env, s, target), n)
  {
    var s' := CheckStep(env, s, target);
    assert Answered(provider, s, n);
    if !Fresh(env, s, target) {
      var req := Request(target, SliceOf(env, target), Current(env, s.beliefs, target));
      assert s'.pending[|s.pending|] == req;
      if n == target {
        assert req in s'.pending && Outstanding(s', n);
      } else if Outstanding(s, n) {
        PendingStays(s, s', n, req);
      }
    }
  }

  lemma PendingStays(s: State, s': State, n: string, extra: Request)
    requires Outstanding(s, n) && s'.pending == s.pending + [extra]
    requires n in s.digests && n in s'.digests && s'.digests[n] == s.digests[n]
    ensures Outstanding(s', n)
  {
    var r :| r in s.pending && r.target == n && n in s.digests && r.digest == s.digests[n];
    assert r in s'.pending;
  }

  lemma ScoreKeeps(provider: Provider, env: Env, s: State)
    requires Inv(provider, s) && s.pending != []
    ensures Inv(provider, ScoreStep(provider, env, s))
  {
    var req := s.pending[0];
    assert req in s.pending;
    var s' := ScoreStep(provider, env, s);
    assert s.pending == [req] + s'.pending;
    forall n ensures Answered(provider, s', n) {
      ScoreKeepsOne(provider, env, s, n);
    }
  }

  lemma ScoreKeepsOne(provider: Provider, env: Env, s: State, n: string)
    requires Inv(provider, s) && s.pending != []
    ensures Answered(provider, ScoreStep(provider, env, s), n)
  {
    var req := s.pending[0];
    assert req in s.pending;
    var s' := ScoreStep(provider, env, s);
    assert Answered(provider, s, n);
    if n in s'.digests {
      var d := s.digests[n];
      if exists r :: r in s'.pending && r.target == n && r.digest == d {
        assert Outstanding(s', n);
      } else if n == req.target {
        assert Outstanding(s, n) ==> req.digest == d;
        WriteHolds(provider, s.beliefs, ShapeOf(req.slice), n);
      } else {
        assert !Outstanding(s, n);
        WriteElsewhere(provider, s.beliefs, ShapeOf(req.slice), req.target, Outline(d), n);
      }
    }
  }

  lemma EvidenceKeeps(provider: Provider, s: State, ref: Ref, content: Content, evidence: string)
    requires Inv(provider, s)
    ensures Inv(provider, EvidenceStep(s, ref, content, evidence))
  {
    var s' := EvidenceStep(s, ref, content, evidence);
    forall n ensures Answered(provider, s', n) {
      assert Answered(provider, s, n);
      assert Outstanding(s, n) ==> Outstanding(s', n);
    }
  }

  /** Anything that can happen to the gate, in any order and with any graph. */
  datatype Action =
    | Check(env: Env, target: string)
    | Score(env: Env)
    | Observe(ref: Ref, initial: Content, evidence: string)

  ghost function Step(provider: Provider, s: State, a: Action): State {
    match a
    case Check(env, target) => CheckStep(env, s, target)
    case Score(env) => if s.pending == [] then s else ScoreStep(provider, env, s)
    case Observe(ref, initial, evidence) => EvidenceStep(s, ref, initial, evidence)
  }

  ghost function Run(provider: Provider, s: State, actions: seq<Action>): State
    decreases |actions|
  {
    if actions == [] then s else Run(provider, Step(provider, s, actions[0]), actions[1..])
  }

  /** Over every run from an empty gate, a recorded digest is answered by the
      score of the slice it was taken from, or has its request pending. */
  lemma {:induction false} RunKeeps(provider: Provider, s: State, actions: seq<Action>)
    requires Inv(provider, s)
    ensures Inv(provider, Run(provider, s, actions))
    decreases |actions|
  {
    if actions != [] {
      match actions[0] {
        case Check(env, target) => CheckKeeps(provider, env, s, target);
        case Score(env) => if s.pending != [] { ScoreKeeps(provider, env, s); }
        case Observe(ref, initial, evidence) => EvidenceKeeps(provider, s, ref, initial, evidence);
      }
      RunKeeps(provider, Step(provider, s, actions[0]), actions[1..]);
    }
  }

  lemma EmptyGate(provider: Provider, beliefs: Beliefs, actions: seq<Action>)
    ensures Inv(provider, Run(provider, State(map[], beliefs, []), actions))
  {
    RunKeeps(provider, State(map[], beliefs, []), actions);
  }

  // ----- rounds on a fixed world (belief_graph_wire.go:76-110) -----

  ghost function CheckAll(env: Env, s: State, targets: seq<string>): State
    decreases |targets|
  {
    if targets == [] then s else CheckAll(env, CheckStep(env, s, targets[0]), targets[1..])
  }

  ghost function DrainAll(provider: Provider, env: Env, s: State): State
    decreases |s.pending|
  {
    if s.pending == [] then s else DrainAll(provider, env, ScoreStep(provider, env, s))
  }

  /** The downstream ids that scoring the oldest request invalidates. */
  ghost function Invalidated(provider: Provider, env: Env, s: State): set<string>
    requires s.pending != []
  {
    var req := s.pending[0];
    if req.target !in s.digests || s.digests[req.target] != req.digest
       || Holds(s.beliefs, Answer(provider, ShapeOf(req.slice), req.target)) then {}
    else Elems(Affected(env.graph, req.target, env.propagation))
  }

  ghost function AllInvalidated(provider: Provider, env: Env, s: State): set<string>
    decreases |s.pending|
  {
    if s.pending == [] then {}
    else Invalidated(provider, env, s) + AllInvalidated(provider, env, ScoreStep(provider, env, s))
  }

  ghost function Round(provider: Provider, env: Env, s: State): State {
    DrainAll(provider, env, CheckAll(env, s, Ids(env.graph.nodes)))
  }

  /** `k` rounds in a row. */
  ghost function Rounds(provider: Provider, env: Env, s: State, k: nat): State {
    Iterate((t: State) => Round(provider, env, t), s, k)
  }

  /** A round on `s` issues a request. */
  ghost predicate Issues(env: Env, s: State) {
    exists n :: n in Ids(env.graph.nodes) && !Fresh(env, s, n)
  }

  /** The target's belief is the score of its own slice, if it has one. */
  ghost predicate Right(provider: Provider, env: Env, beliefs: Beliefs, target: string) {
    Holds(beliefs, Answer(provider, ShapeOf(SliceOf(env, target)), target))
  }

  /** The nodes whose belief differs from that score. */
  ghost function Wrong(provider: Provider, env: Env, beliefs: Beliefs): set<string> {
    set n | n in Ids(env.graph.nodes) && !Right(provider, env, beliefs, n)
  }

  /** No node of the graph has an out-of-date digest; one may have none. */
  ghost predicate UpToDate(env: Env, s: State) {
    forall n :: n in Ids(env.graph.nodes) && n in s.digests ==> Fresh(env, s, n)
  }

  lemma {:induction false} ChecksFresh(env: Env, s: State, targets: seq<string>, n: string)
    ensures CheckAll(env, s, targets).beliefs == s.beliefs
    ensures n in targets || Fresh(env, s, n) ==> Fresh(env, CheckAll(env, s, targets), n)
    decreases |targets|
  {
    if targets != [] {
      ChecksFresh(env, CheckStep(env, s, targets[0]), targets[1..], n);
    }
  }

  lemma {:induction false} ChecksKeep(provider: Provider, env: Env, s: State, targets: seq<string>)
    requires Inv(provider, s)
    ensures Inv(provider, CheckAll(env, s, targets))
    decreases |targets|
  {
    if targets != [] {
      CheckKeeps(provider, env, s, targets[0]);
      ChecksKeep(provider, env, CheckStep(env, s, targets[0]), targets[1..]);
    }
  }

  lemma {:induction false} DrainKeeps(provider: Provider, env: Env, s: State)
    requires Inv(provider, s)
    ensures Inv(provider, DrainAll(provider, env, s)) && DrainAll(provider, env, s).pending == []
    decreases |s.pending|
  {
    if s.pending != [] {
      ScoreKeeps(provider, env, s);
      DrainKeeps(provider, env, ScoreStep(provider, env, s));
    }
  }

  lemma ScoreCurrent(provider: Provider, env: Env, s: State, n: string)
    requires s.pending != []
    ensures Current(env, ScoreStep(provider, env, s).beliefs, n) == Current(env, s.beliefs, n)
  {
    var req := s.pending[0];
    var nodes := Answer(provider, ShapeOf(req.slice), req.target);
    forall ref ensures EvidenceOf(Write(s.beliefs, nodes), ref) == EvidenceOf(s.beliefs, ref) {
      WriteFrame(s.beliefs, nodes, ref);
    }
    DigestSame(SliceOf(env, n), s.beliefs, ScoreStep(provider, env, s).beliefs);
  }

  lemma ScoreUpToDate(provider: Provider, env: Env, s: State)
    requires s.pending != [] && UpToDate(env, s)
    ensures UpToDate(env, ScoreStep(provider, env, s))
  {
    var s' := ScoreStep(provider, env, s);
    forall n | n in Ids(env.graph.nodes) && n in s'.digests ensures Fresh(env, s', n) {
      assert Fresh(env, s, n);
      ScoreCurrent(provider, env, s, n);
    }
  }

  /** The score of an up-to-date request is the score of the target's slice. */
  lemma AppliedAnswer(provider: Provider, env: Env, s: State)
    requires s.pending != [] && UpToDate(env, s) && Inv(provider, s)
    requires var req := s.pending[0]; req.target in s.digests && s.digests[req.target] == req.digest
    requires s.pending[0].target in Ids(env.graph.nodes)
    ensures ShapeOf(s.pending[0].slice) == ShapeOf(SliceOf(env, s.pending[0].target))
  {
    var req := s.pending[0];
    assert req in s.pending && Fresh(env, s, req.target);
    OutlineOfDigest(SliceOf(env, req.target), s.beliefs);
  }

  /** A score never turns a right belief into a wrong one. */
  lemma ScoreRights(provider: Provider, env: Env, s: State, n: string)
    requires s.pending != [] && UpToDate(env, s) && Inv(provider, s)
    requires n in Ids(env.graph.nodes) && Right(provider, env, s.beliefs, n)
    ensures Right(provider, env, ScoreStep(provider, env, s).beliefs, n)
  {
    var req := s.pending[0];
    if req.target in s.digests && s.digests[req.target] == req.digest {
      if req.target == n {
        AppliedAnswer(provider, env, s);
        WriteHolds(provider, s.beliefs, ShapeOf(req.slice), n);
      } else {
        WriteElsewhere(provider, s.beliefs, ShapeOf(req.slice), req.target, ShapeOf(SliceOf(env, n)), n);
      }
    }
  }

  lemma ScoreWrong(provider: Provider, env: Env, s: State)
    requires s.pending != [] && UpToDate(env, s) && Inv(provider, s)
    ensures Wrong(provider, env, ScoreStep(provider, env, s).beliefs) <= Wrong(provider, env, s.beliefs)
  {
    forall n | n in Wrong(provider, env, ScoreStep(provider, env, s).beliefs)
      ensures n in Wrong(provider, env, s.beliefs)
    {
      if Right(provider, env, s.beliefs, n) {
        ScoreRights(provider, env, s, n);
      }
    }
  }

  /** When a score invalidates a node of the graph, it has just put right a
      belief that was wrong. */
  lemma InvalidationCorrects(provider: Provider, env: Env, s: State, n: string)
    requires s.pending != [] && UpToDate(env, s) && Inv(provider, s) && WellFormed(env.graph)
    requires n in s.digests && n !in ScoreStep(provider, env, s).digests
    ensures Wrong(provider, env, ScoreStep(provider, env, s).beliefs) < Wrong(provider, env, s.beliefs)
  {
    var req := s.pending[0];
    var t := req.target;
    assert n in Affected(env.graph, t, env.propagation);
    AffectedInside(env.graph, t, env.propagation);
    ScoreWrong(provider, env, s);
    AppliedAnswer(provider, env, s);
    WriteHolds(provider, s.beliefs, ShapeOf(req.slice), t);
    assert t in Wrong(provider, env, s.beliefs);
    assert t !in Wrong(provider, env, ScoreStep(provider, env, s).beliefs);
  }

  ghost predicate Complete(env: Env, s: State) {
    forall n :: n in Ids(env.graph.nodes) ==> n in s.digests
  }

  lemma {:induction false} DrainProgress(provider: Provider, env: Env, s: State)
    requires Inv(provider, s) && UpToDate(env, s) && WellFormed(env.graph)
    ensures UpToDate(env, DrainAll(provider, env, s))
    ensures Wrong(provider, env, DrainAll(provider, env, s).beliefs) <= Wrong(provider, env, s.beliefs)
    ensures Complete(env, s) && !Complete(env, DrainAll(provider, env, s)) ==>
            Wrong(provider, env, DrainAll(provider, env, s).beliefs) < Wrong(provider, env, s.beliefs)
    decreases |s.pending|
  {
    if s.pending != [] {
      var s' := ScoreStep(provider, env, s);
      ScoreKeeps(provider, env, s);
      ScoreUpToDate(provider, env, s);
      ScoreWrong(provider, env, s);
      DrainProgress(provider, env, s');
      if Complete(env, s) && !Complete(env, s') {
        var n :| n in Ids(env.graph.nodes) && n !in s'.digests;
        InvalidationCorrects(provider, env, s, n);
      }
    }
  }

  ghost function WrongCount(provider: Provider, env: Env, s: State): nat {
    |Wrong(provider, env, s.beliefs)|
  }

  /** One round: nothing stays pending, no belief becomes wrong, and if the next
      round will issue requests then some belief was put right. */
  lemma RoundProgress(provider: Provider, env: Env, s: State)
    requires Inv(provider, s) && WellFormed(env.graph)
    ensures Inv(provider, Round(provider, env, s)) && Round(provider, env, s).pending == []
    ensures WrongCount(provider, env, Round(provider, env, s)) <= WrongCount(provider, env, s)
    ensures Issues(env, Round(provider, env, s)) ==>
            WrongCount(provider, env, Round(provider, env, s)) < WrongCount(provider, env, s)
  {
    var ids := Ids(env.graph.nodes);
    var c := CheckAll(env, s, ids);
    ChecksKeep(provider, env, s, ids);
    forall n | n in ids ensures Fresh(env, c, n) && c.beliefs == s.beliefs {
      ChecksFresh(env, s, ids, n);
    }
    ChecksFresh(env, s, ids, "");
    DrainKeeps(provider, env, c);
    DrainProgress(provider, env, c);
    SubsetCount(Wrong(provider, env, Round(provider, env, s).beliefs), Wrong(provider, env, s.beliefs));
  }

  lemma {:induction false} ChecksSilent(env: Env, s: State, targets: seq<string>)
    requires forall n :: n in targets ==> Fresh(env, s, n)
    ensures CheckAll(env, s, targets) == s
    decreases |targets|
  {
    if targets != [] {
      assert targets[0] in targets;
      ChecksSilent(env, s, targets[1..]);
    }
  }

  /** Checking adds a request exactly when some target is not fresh. */
  lemma {:induction false} ChecksRequest(env: Env, s: State, targets: seq<string>)
    ensures |CheckAll(env, s, targets).pending| >= |s.pending|
    ensures |CheckAll(env, s, targets).pending| > |s.pending| <==> exists n :: n in targets && !Fresh(env, s, n)
    decreases |targets|
  {
    if targets != [] {
      assert targets[0] in targets;
      ChecksRequest(env, CheckStep(env, s, targets[0]), targets[1..]);
    }
  }

  /** A silent round changes nothing. */
  lemma SilentRound(provider: Provider, env: Env, s: State)
    requires s.pending == [] && !Issues(env, s)
    ensures Round(provider, env, s) == s
  {
    ChecksSilent(env, s, Ids(env.graph.nodes));
  }

  // ----- repeating a step whose activity has to be paid for -----

  ghost function Iterate<S>(f: S -> S, s: S, k: nat): S {
    if k == 0 then s else f(Iterate(f, s, k - 1))
  }

  /** `f` keeps `good`, leaves an `idle` state, does nothing to an idle state
      that is not `active`, and leaves an active one only at a lower `cost`. */
  ghost predicate Paying<S(!new)>(f: S -> S, good: S -> bool, idle: S -> bool, active: S -> bool, cost: S -> nat) {
    && (forall s :: good(s) ==> good(f(s)) && idle(f(s)) && (active(f(s)) ==> cost(f(s)) < cost(s)))
    && (forall s :: idle(s) && !active(s) ==> f(s) == s)
  }

  lemma {:induction false} IterateGood<S(!new)>(f: S -> S, good: S -> bool, idle: S -> bool, active: S -> bool,
                                                cost: S -> nat, s: S, k: nat)
    requires Paying(f, good, idle, active, cost) && good(s)
    ensures good(Iterate(f, s, k)) && (k > 0 ==> idle(Iterate(f, s, k)))
  {
    if k > 0 {
      IterateGood(f, good, idle, active, cost, s, k - 1);
    }
  }

  lemma {:induction false} ActivityCosts<S(!new)>(f: S -> S, good: S -> bool, idle: S -> bool, active: S -> bool,
                                                  cost: S -> nat, s: S, k: nat)
    requires Paying(f, good, idle, active, cost) && good(s) && k > 0
    requires active(Iterate(f, s, k))
    ensures cost(Iterate(f, s, k)) + k <= cost(s)
  {
    IterateGood(f, good, idle, active, cost, s, k - 1);
    if k > 1 {
      ActivityCosts(f, good, idle, active, cost, s, k - 1);
    }
  }

  lemma RoundsPay(provider: Provider, env: Env)
    requires WellFormed(env.graph)
    ensures Paying((t: State) => Round(provider, env, t), (t: State) => Inv(provider, t),
                   (t: State) => t.pending == [], (t: State) => Issues(env, t),
                   (t: State) => WrongCount(provider, env, t))
  {
    forall t | Inv(provider, t)
      ensures Inv(provider, Round(provider, env, t)) && Round(provider, env, t).pending == []
      ensures Issues(env, Round(provider, env, t)) ==>
              WrongCount(provider, env, Round(provider, env, t)) < WrongCount(provider, env, t)
    {
      RoundProgress(provider, env, t);
    }
    forall t: State | t.pending == [] && !Issues(env, t) ensures Round(provider, env, t) == t {
      SilentRound(provider, env, t);
    }
  }

  /** A round after the first issues requests only if every round before it
      put a belief right. */
  lemma IssuingCosts(provider: Provider, env: Env, s: State, k: nat)
    requires Inv(provider, s) && WellFormed(env.graph) && k > 0
    ensures Inv(provider, Rounds(provider, env, s, k)) && Rounds(provider, env, s, k).pending == []
    ensures Issues(env, Rounds(provider, env, s, k)) ==>
            WrongCount(provider, env, Rounds(provider, env, s, k)) + k <= WrongCount(provider, env, s)
  {
    var f := (t: State) => Round(provider, env, t);
    var good := (t: State) => Inv(provider, t);
    var idle := (t: State) => t.pending == [];
    var active := (t: State) => Issues(env, t);
    var cost := (t: State) => WrongCount(provider, env, t);
    RoundsPay(provider, env);
    IterateGood(f, good, idle, active, cost, s, k);
    if active(Iterate(f, s, k)) {
      ActivityCosts(f, good, idle, active, cost, s, k);
    }
  }

  /** From any state a run can reach, with the world fixed, only the first
      |nodes| + 1 rounds can issue requests.  After them every round is silent
      and each scored node holds the score of its own slice. */
  lemma RoundsSettle(provider: Provider, env: Env, s: State, k: nat)
    requires Inv(provider, s) && WellFormed(env.graph) && k > |env.graph.nodes|
    ensures !Issues(env, Rounds(provider, env, s, k))
    ensures Rounds(provider, env, s, k + 1) == Rounds(provider, env, s, k)
    ensures forall n :: n in Ids(env.graph.nodes) ==> Right(provider, env, Rounds(provider, env, s, k).beliefs, n)
  {
    var r := Rounds(provider, env, s, k);
    IssuingCosts(provider, env, s, k);
    if Issues(env, r) {
      var ids := Ids(env.graph.nodes);
      SubsetCount(Wrong(provider, env, s.beliefs), Elems(ids));
      ElemsCount(ids);
    }
    SilentRound(provider, env, r);
    forall n | n in Ids(env.graph.nodes) ensures Right(provider, env, r.beliefs, n) {
      assert Fresh(env, r, n) && Answered(provider, r, n);
      OutlineOfDigest(SliceOf(env, n), r.beliefs);
    }
  }
}
