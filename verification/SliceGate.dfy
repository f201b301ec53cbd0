/** The slice-digest gate and its worker as the objects that the source updates
in place (internal/engine/brain/belief_slice_gate.go:126-392 and
belief_graph_wire.go:76-110).  Each method is proved against the step function
of `GateModel` that it performs. */
module SliceGate {
  import opened Wrappers
  import opened Factors
  import opened Order
  import opened Lists
  import opened AttackGraph
  import opened GateModel
  import Slice

  /** The belief store: an absent node reads as an empty belief. */
  class Substrate {
    var beliefs: Beliefs

    constructor (initial: Beliefs)
      ensures beliefs == initial
    {
      beliefs := initial;
    }

    method SetBelief(ref: Ref, nb: NodeBelief)
      modifies this
      ensures beliefs == old(beliefs)[ref := nb]
    {
      beliefs := beliefs[ref := nb];
    }
  }

  /** belief_slice_gate.go:252-287 */
  method DownstreamAffected(g: Graph, changed: string, opts: Slice.Options) returns (affected: seq<string>)
    ensures affected == Affected(g, changed, opts)
  {
    var known := Reached(g.edges, changed);
    var depth := Slice.BackwardSearch(known, Slice.Flip(g.edges), changed, opts.maxDepth);
    assert depth.Keys == Slice.Candidates(Slice.Flip(g.edges), known, changed, opts.maxDepth);
    var ids := KeysOf(depth.Keys - {changed});
    SortStringsOfSet(ids, Listing(DownstreamOf(g, changed, opts.maxDepth)));
    affected := SortStrings(ids);
    if opts.nodeBudget > 0 && |affected| > opts.nodeBudget {
      affected := affected[..opts.nodeBudget];
    }
  }

  class Gate {
    const substrate: Substrate
    var digests: map<string, Digest>

    constructor (substrate: Substrate)
      ensures this.substrate == substrate && digests == map[]
    {
      this.substrate := substrate;
      digests := map[];
    }

    method SliceDigest(slice: Graph) returns (d: Digest)
      ensures d == DigestOf(slice, substrate.beliefs)
    {
      var nodes: seq<DigestNode> := [];
      while |nodes| < |slice.nodes|
        invariant |nodes| <= |slice.nodes| && nodes == DigestOf(slice, substrate.beliefs).nodes[..|nodes|]
      {
        var n := slice.nodes[|nodes|];
        nodes := nodes + [DigestNode(n.id, n.kind, EvidenceOf(substrate.beliefs, Ref(n.kind, n.id)))];
      }
      d := Digest(nodes, slice.edges);
    }

    method Check(env: Env, target: string) returns (req: Option<Request>)
      modifies this
      ensures req.None? <==>
              target in old(digests) && old(digests)[target] == Current(env, substrate.beliefs, target)
      ensures req.None? ==> digests == old(digests)
      ensures req.Some? ==> req.value == Request(target, SliceOf(env, target), Current(env, substrate.beliefs, target))
      ensures req.Some? ==> digests == old(digests)[target := req.value.digest]
    {
      var slice := Slice.ExtractBoundedSlice(env.graph, target, env.slicing, env.relevance);
      var digest := SliceDigest(slice);
      if target in digests && digests[target] == digest {
        return None;
      }
      digests := digests[target := digest];
      return Some(Request(target, slice, digest));
    }

    /** A score whose digest is no longer the recorded one is dropped. */
    method Apply(target: string, nodes: seq<ScoredNode>, digest: Digest) returns (applied: bool)
      modifies substrate
      ensures applied <==> target in digests && digests[target] == digest
      ensures substrate.beliefs == if applied then Write(old(substrate.beliefs), nodes) else old(substrate.beliefs)
    {
      if target !in digests || digests[target] != digest {
        return false;
      }
      var rest := nodes;
      while rest != []
        invariant Write(substrate.beliefs, rest) == Write(old(substrate.beliefs), nodes)
        decreases |rest|
      {
        substrate.SetBelief(rest[0].ref, NodeBelief(rest[0].content, EvidenceOf(substrate.beliefs, rest[0].ref)));
        rest := rest[1..];
      }
      return true;
    }

    method Invalidate(g: Graph, changed: string, opts: Slice.Options) returns (affected: seq<string>)
      modifies this
      ensures affected == Affected(g, changed, opts)
      ensures digests == old(digests) - Elems(affected)
    {
      affected := DownstreamAffected(g, changed, opts);
      var i := 0;
      while i < |affected|
        invariant 0 <= i <= |affected| && digests == old(digests) - Elems(affected[..i])
      {
        assert affected[..i + 1] == affected[..i] + [affected[i]];
        ElemsSnoc(affected[..i], affected[i]);
        digests := digests - {affected[i]};
        i := i + 1;
      }
      assert affected[..i] == affected;
    }
  }

  class Worker {
    const gate: Gate
    const provider: Provider
    var pending: seq<Request>

    constructor (gate: Gate, provider: Provider)
      ensures this.gate == gate && this.provider == provider && pending == []
    {
      this.gate := gate;
      this.provider := provider;
      pending := [];
    }

    ghost function Contents(): State
      reads this, gate, gate.substrate
    {
      State(gate.digests, gate.substrate.beliefs, pending)
    }

    method Tap(req: Request)
      modifies this
      ensures pending == old(pending) + [req]
    {
      pending := pending + [req];
    }

    method ChangesABelief(nodes: seq<ScoredNode>) returns (changed: bool)
      ensures changed <==> !Holds(gate.substrate.beliefs, nodes)
    {
      var i := 0;
      while i < |nodes|
        invariant 0 <= i <= |nodes|
        invariant forall j :: 0 <= j < i ==>
            nodes[j].ref in gate.substrate.beliefs && gate.substrate.beliefs[nodes[j].ref].content == nodes[j].content
      {
        var n := nodes[i];
        assert n in nodes;
        if n.ref !in gate.substrate.beliefs {
          return true;
        }
        if gate.substrate.beliefs[n.ref].content != n.content {
          return true;
        }
        i := i + 1;
      }
      return false;
    }

    /** The score of the request's own target. */
    method ScoreTarget(req: Request) returns (nodes: seq<ScoredNode>)
      ensures nodes == Answer(provider, ShapeOf(req.slice), req.target)
    {
      var shape := ShapeOf(req.slice);
      var result := provider(shape);
      nodes := [];
      if req.target !in result {
        return;
      }
      var rest := shape.nodes;
      while rest != []
        invariant nodes + Named(rest, req.target, result[req.target])
               == Named(shape.nodes, req.target, result[req.target])
      {
        if rest[0].id == req.target {
          Associate(nodes, [ScoredNode(Ref(rest[0].kind, req.target), result[req.target])],
                    Named(rest[1..], req.target, result[req.target]));
          nodes := nodes + [ScoredNode(Ref(rest[0].kind, req.target), result[req.target])];
        }
        rest := rest[1..];
      }
      assert nodes + [] == nodes;
    }

    /** One pass of the loop of Drain. */
    method ScoreOne(env: Env, req: Request, ghost rest: seq<Request>) returns (affected: seq<string>)
      modifies gate, gate.substrate
      ensures State(gate.digests, gate.substrate.beliefs, rest)
           == ScoreStep(provider, env, State(old(gate.digests), old(gate.substrate.beliefs), [req] + rest))
      ensures Elems(affected)
           == Invalidated(provider, env, State(old(gate.digests), old(gate.substrate.beliefs), [req] + rest))
    {
      var nodes := ScoreTarget(req);
      var changed := ChangesABelief(nodes);
      var applied := gate.Apply(req.target, nodes, req.digest);
      affected := [];
      if applied && changed {
        affected := gate.Invalidate(env.graph, req.target, env.propagation);
      }
      assert ([req] + rest)[1..] == rest;
    }

    method Drain(env: Env) returns (scored: nat, affected: seq<string>)
      modifies this, gate, gate.substrate
      ensures scored == |old(pending)|
      ensures Contents() == DrainAll(provider, env, old(Contents()))
      ensures affected == SortStrings(Listing(AllInvalidated(provider, env, old(Contents()))))
    {
      var reqs := pending;
      pending := [];
      var union: set<string> := {};
      var i := 0;
      while i < |reqs|
        invariant 0 <= i <= |reqs| && pending == []
        invariant DrainAll(provider, env, State(gate.digests, gate.substrate.beliefs, reqs[i..]))
               == DrainAll(provider, env, old(Contents()))
        invariant union + AllInvalidated(provider, env, State(gate.digests, gate.substrate.beliefs, reqs[i..]))
               == AllInvalidated(provider, env, old(Contents()))
      {
        assert reqs[i..] == [reqs[i]] + reqs[i + 1..];
        var ids := ScoreOne(env, reqs[i], reqs[i + 1..]);
        union := union + Elems(ids);
        i := i + 1;
      }
      var keys := KeysOf(union);
      SortStringsOfSet(keys, Listing(union));
      return |reqs|, SortStrings(keys);
    }
  }

  /** Check every node, tap what it asks for, then drain. */
  method SliceBeliefRound(worker: Worker, env: Env) returns (checked: nat, scored: nat)
    modifies worker, worker.gate, worker.gate.substrate
    ensures worker.Contents() == Round(worker.provider, env, old(worker.Contents()))
    ensures checked == |env.graph.nodes|
    ensures old(worker.pending) == [] ==> (scored > 0 <==> Issues(env, old(worker.Contents())))
  {
    ghost var before := worker.Contents();
    var ids := Ids(env.graph.nodes);
    checked := 0;
    while checked < |ids|
      invariant 0 <= checked <= |ids|
      invariant CheckAll(env, worker.Contents(), ids[checked..]) == CheckAll(env, before, ids)
    {
      CheckNode(worker, env, ids[checked]);
      checked := checked + 1;
    }
    ChecksRequest(env, before, ids);
    var n, _ := worker.Drain(env);
    scored := n;
  }

  method CheckNode(worker: Worker, env: Env, target: string)
    modifies worker, worker.gate
    ensures worker.Contents() == CheckStep(env, old(worker.Contents()), target)
  {
    var req := worker.gate.Check(env, target);
    if req.Some? {
      worker.Tap(req.value);
    }
  }
}
