/** The search tree as the planner runs it (internal/engine/brain/bamcp.go:374-385
and 568-678): `taken` and `outcome` are buffers that a simulation writes to.
Each method is proved against the function of `SearchTree` that it performs,
and leaves `taken` as it found it. */
module SearchLoop {
  import opened Wrappers
  import opened Factors
  import opened SearchTree

  class Tree {
    const r: Round
    const outcome: array<bool>
    const taken: array<bool>
    var root: Node

    constructor (r: Round)
      requires r.Valid()
      ensures this.r == r && Valid() && fresh(outcome) && fresh(taken)
      ensures root == Fresh(r.N()) && taken[..] == Free(r.N())
    {
      this.r := r;
      outcome := new bool[r.N()](i => false);
      taken := new bool[r.N()](i => false);
      root := Fresh(r.N());
      new;
      FreshShaped(r.N());
    }

    ghost predicate Valid()
      reads this
    {
      r.Valid() && outcome.Length == taken.Length == r.N() && outcome != taken && Shaped(root, r.N())
    }

    method IsUnlocked(i: nat) returns (b: bool)
      requires Valid() && i < r.N()
      ensures b == Unlocked(r, taken[..], i)
    {
      if r.enablers[i] == [] {
        return true;
      }
      var k := 0;
      assert forall j :: 0 <= j < |r.enablers[i]| ==> r.enablers[i][j] in r.enablers[i];
      while k < |r.enablers[i]|
        invariant 0 <= k <= |r.enablers[i]|
        invariant forall j :: 0 <= j < k ==> !taken[..][r.enablers[i][j]]
      {
        var e := r.enablers[i][k];
        assert e in r.enablers[i];
        if taken[e] {
          assert taken[..][e];
          return true;
        }
        k := k + 1;
      }
      return false;
    }

    method RewardOf(i: nat) returns (x: real)
      requires Valid() && i < r.N()
      ensures x == Reward(r, outcome[..], taken[..], i)
    {
      x := Times(r.weight, r.values[i]);
      var open := IsUnlocked(i);
      if outcome[i] && open {
        x := x + r.terminal;
      }
    }

    method Select(node: Node) returns (k: nat)
      requires Valid() && Shaped(node, r.N()) && Taken(taken[..]) < r.N()
      ensures k == SelectMove(r, node, taken[..])
    {
      k := 0;
      while k < r.N()
        invariant 0 <= k <= r.N() && FirstUntried(node, taken[..], 0) == FirstUntried(node, taken[..], k)
      {
        if !taken[k] && node.count[k] == 0 {
          return k;
        }
        k := k + 1;
      }
      var i := 0;
      while i < r.N()
        invariant 0 <= i <= r.N() && k == BestBefore(r, node, taken[..], i)
      {
        if !taken[i] && (k == r.N() || Score(r, node, i) > Score(r, node, k)) {
          k := i;
        }
        i := i + 1;
      }
    }

    /** Clear what a rollout marked. */
    method Unmark(marked: seq<nat>, ghost before: seq<bool>)
      requires Valid() && |before| == r.N() && FreshMoves(before, marked)
      requires forall j :: 0 <= j < r.N() ==> taken[j] == (before[j] || j in marked)
      modifies taken
      ensures taken[..] == before
    {
      var rest := marked;
      while rest != []
        invariant FreshMoves(before, rest)
        invariant forall j :: 0 <= j < r.N() ==> taken[j] == (before[j] || j in rest)
      {
        var m := rest[0];
        assert m in rest;
        NoDupTail(rest);
        assert forall j :: j in rest <==> j == m || j in rest[1..];
        taken[m] := false;
        rest := rest[1..];
      }
      assert forall j :: 0 <= j < r.N() ==> taken[..][j] == before[j];
    }

    method RolloutFrom(first: nat) returns (total: real)
      requires Valid()
      modifies taken
      ensures taken[..] == old(taken[..])
      ensures total == Rollout(r, outcome[..], old(taken[..]), first, 0).0
    {
      ghost var before := taken[..];
      ghost var wanted := Rollout(r, outcome[..], before, first, 0).0;
      total := 0.0;
      var discount := 1.0;
      var step: nat, marked: seq<nat> := first, [];
      var i: nat := 0;
      TimesUnit(wanted);
      while i < r.N() && step < r.depth
        invariant 0 <= i <= r.N() && FreshMoves(before, marked) && forall m :: m in marked ==> m < i
        invariant forall j :: 0 <= j < r.N() ==> taken[j] == (before[j] || j in marked)
        invariant outcome[..] == old(outcome[..])
        invariant total + Times(discount, Rollout(r, outcome[..], taken[..], step, i).0) == wanted
      {
        if !taken[i] {
          ghost var now := taken[..];
          var x := RewardOf(i);
          ghost var future := Rollout(r, outcome[..], now[i := true], step + 1, i + 1).0;
          Discounted(total, discount, x, r.discount, future);
          total := total + Times(discount, x);
          discount := Times(discount, r.discount);
          taken[i] := true;
          assert taken[..] == now[i := true];
          marked := marked + [i];
          step := step + 1;
        }
        i := i + 1;
      }
      TimesZero(discount);
      Unmark(marked, before);
    }

    method SimulateFrom(node: Node, step: nat) returns (after: Node, ret: real)
      requires Valid() && Shaped(node, r.N()) && Taken(taken[..]) == step
      modifies taken
      ensures taken[..] == old(taken[..])
      ensures (after, ret) == var (a, x, _) := Simulate(r, outcome[..], node, old(taken[..]), step); (a, x)
      decreases r.depth - step
    {
      if step >= r.depth {
        return node, 0.0;
      }
      ghost var before := taken[..];
      var move := Select(node);
      var reward := RewardOf(move);
      TakenMore(before, move);
      taken[move] := true;
      assert taken[..] == before[move := true];
      var child, future := node.children[move], 0.0;
      if node.count[move] == 0 {
        future := RolloutFrom(step + 1);
      } else {
        FreshShaped(r.N());
        var below := ChildOr(node, move, r.N());
        var grown, x := SimulateFrom(below, step + 1);
        child, future := Some(grown), x;
      }
      taken[move] := false;
      assert taken[..] == before;
      ret := reward + Times(r.discount, future);
      after := Record(node, move, child, ret);
    }

    /** One simulation in the sampled world. */
    method RunSimulation(sampled: seq<bool>)
      requires Valid() && |sampled| == r.N() && taken[..] == Free(r.N())
      modifies this, taken, outcome
      ensures Valid() && taken[..] == Free(r.N())
      ensures Ready(r, sampled, Free(r.N()), 0) && root == Simulate(r, sampled, old(root), Free(r.N()), 0).0
    {
      ghost var was := taken[..];
      forall i | 0 <= i < r.N() {
        outcome[i] := sampled[i];
      }
      assert taken[..] == was;
      assert outcome[..] == sampled;
      FreeTakesNothing(r.N());
      SimulateMoves(r, sampled, root, Free(r.N()), 0);
      var after, _ := SimulateFrom(root, 0);
      root := after;
    }
  }

  lemma Discounted(total: real, discount: real, x: real, gamma: real, future: real)
    ensures total + Times(discount, x + Times(gamma, future))
         == total + Times(discount, x) + Times(Times(discount, gamma), future)
  {
    TimesDistribute(x, Times(gamma, future), discount);
    TimesAssoc(discount, gamma, future);
  }

  /** One planning round: a simulation for each sampled world. */
  method Search(r: Round, worlds: seq<seq<bool>>) returns (root: Node)
    requires Samples(r, worlds)
    ensures root == Searched(r, worlds)
  {
    var tree := new Tree(r);
    var i := 0;
    while i < |worlds|
      invariant 0 <= i <= |worlds| && tree.Valid() && tree.r == r && fresh(tree)
      invariant fresh(tree.taken) && fresh(tree.outcome)
      invariant tree.taken[..] == Free(r.N()) && Samples(r, worlds[..i]) && tree.root == Searched(r, worlds[..i])
    {
      assert worlds[..i + 1][..i] == worlds[..i] && worlds[i] in worlds;
      tree.RunSimulation(worlds[i]);
      i := i + 1;
    }
    assert worlds[..i] == worlds;
    root := tree.root;
  }
}
