/** The UCT search tree of the planner (internal/engine/brain/bamcp.go:418-678).

A node of the tree is a value here, and one simulation maps the node it enters
to the node it leaves behind.  The UCB1 score is an arbitrary function of the
mean return, the visits of the node and the visits of the move. */
module SearchTree {
  import opened Wrappers
  import opened Factors

  datatype Node = Node(visits: nat, count: seq<nat>, total: seq<real>, children: seq<Option<Node>>)

  /** The round: one-step values, enablers, the horizon and the reward terms. */
  datatype Round = Round(
    values: seq<real>, enablers: seq<seq<nat>>, depth: nat, discount: real, terminal: real, weight: real,
    score: (real, nat, nat) -> real)
  {
    function N(): nat {
      |values|
    }

    /** What newBAMCPTree and the sanitized configuration establish. */
    ghost predicate Valid() {
      && depth <= N() && |enablers| == N()
      && (forall i, e :: 0 <= i < N() && e in enablers[i] ==> e < N())
      && 0.0 <= discount <= 1.0 && 0.0 <= terminal && 0.0 <= weight
    }
  }

  function Fresh(n: nat): Node {
    Node(0, seq(n, i => 0), seq(n, i => 0.0), NoChildren(n))
  }

  function NoChildren(n: nat): seq<Option<Node>> {
    seq(n, i => None)
  }

  ghost predicate Shaped(node: Node, n: nat)
    decreases node
  {
    && |node.count| == |node.total| == |node.children| == n
    && forall i :: 0 <= i < n && node.children[i].Some? ==> Shaped(node.children[i].value, n)
  }

  function Mean(node: Node, i: nat): real
    requires i < |node.count| == |node.total|
  {
    if node.count[i] == 0 then 0.0 else node.total[i] / node.count[i] as real
  }

  // ----- counting what is taken -----

  function Taken(taken: seq<bool>): nat {
    if taken == [] then 0 else (if taken[0] then 1 else 0) + Taken(taken[1..])
  }

  lemma {:induction false} TakenBound(taken: seq<bool>)
    ensures Taken(taken) <= |taken|
    ensures Taken(taken) == |taken| <==> forall i :: 0 <= i < |taken| ==> taken[i]
  {
    if taken != [] {
      TakenBound(taken[1..]);
      assert taken == [taken[0]] + taken[1..];
    }
  }

  lemma {:induction false} TakenMore(taken: seq<bool>, i: nat)
    requires i < |taken| && !taken[i]
    ensures Taken(taken[i := true]) == Taken(taken) + 1
  {
    if i == 0 {
      assert taken[0 := true][1..] == taken[1..];
    } else {
      assert taken[i := true][1..] == taken[1..][i - 1 := true];
      TakenMore(taken[1..], i - 1);
    }
  }

  // ----- rewards (bamcp.go:568-590) -----

  predicate Unlocked(r: Round, taken: seq<bool>, i: nat)
    requires i < |r.enablers|
  {
    r.enablers[i] == [] || exists e :: e in r.enablers[i] && e < |taken| && taken[e]
  }

  function Reward(r: Round, outcome: seq<bool>, taken: seq<bool>, i: nat): real
    requires i < |r.values| && i < |r.enablers| && i < |outcome|
  {
    Times(r.weight, r.values[i]) + if outcome[i] && Unlocked(r, taken, i) then r.terminal else 0.0
  }

  // ----- the tree policy (bamcp.go:633-651) -----

  /** The first candidate from `i` on that is free and untried, or `n`. */
  function FirstUntried(node: Node, taken: seq<bool>, i: nat): (k: nat)
    requires i <= |taken| == |node.count|
    ensures i <= k <= |taken|
    ensures k < |taken| ==> !taken[k] && node.count[k] == 0
    ensures forall j :: i <= j < k ==> taken[j] || node.count[j] > 0
    decreases |taken| - i
  {
    if i == |taken| || (!taken[i] && node.count[i] == 0) then i else FirstUntried(node, taken, i + 1)
  }

  function Score(r: Round, node: Node, i: nat): real
    requires i < |node.count| == |node.total|
  {
    r.score(Mean(node, i), node.visits, node.count[i])
  }

  /** The best-scored free candidate before `i`, the lower index on a tie, or
      `n` when none is free. */
  function BestBefore(r: Round, node: Node, taken: seq<bool>, i: nat): (k: nat)
    requires i <= |taken| == |node.count| == |node.total|
    ensures k <= |taken|
    ensures k == |taken| <==> forall j :: 0 <= j < i ==> taken[j]
    ensures k < |taken| ==> k < i && !taken[k]
    ensures k < |taken| ==> forall j :: 0 <= j < i && !taken[j] ==> Score(r, node, j) <= Score(r, node, k)
    ensures k < |taken| ==> forall j :: 0 <= j < k && !taken[j] ==> Score(r, node, j) < Score(r, node, k)
  {
    if i == 0 then |taken|
    else
      var best := BestBefore(r, node, taken, i - 1);
      if taken[i - 1] then best
      else if best == |taken| || Score(r, node, i - 1) > Score(r, node, best) then i - 1
      else best
  }

  /** An untried candidate first, then the highest score. */
  function SelectMove(r: Round, node: Node, taken: seq<bool>): (k: nat)
    requires |taken| == |node.count| == |node.total| && Taken(taken) < |taken|
    ensures k < |taken| && !taken[k]
  {
    TakenBound(taken);
    var first := FirstUntried(node, taken, 0);
    if first < |taken| then first else BestBefore(r, node, taken, |taken|)
  }

  // ----- the rollout policy (bamcp.go:656-678) -----

  /** From candidate `i` on, take what is free in order, up to the horizon: the
      discounted return and the moves. */
  function Rollout(r: Round, outcome: seq<bool>, taken: seq<bool>, step: nat, i: nat): (real, seq<nat>)
    requires |r.values| == |r.enablers| == |outcome| == |taken| && i <= |taken|
    decreases |taken| - i
  {
    if i == |taken| || step >= r.depth then (0.0, [])
    else if taken[i] then Rollout(r, outcome, taken, step, i + 1)
    else
      var (future, moves) := Rollout(r, outcome, taken[i := true], step + 1, i + 1);
      (Reward(r, outcome, taken, i) + Times(r.discount, future), [i] + moves)
  }

  // ----- one simulation (bamcp.go:598-623) -----

  function Record(node: Node, move: nat, child: Option<Node>, ret: real): Node
    requires move < |node.count| == |node.total| == |node.children|
  {
    Node(node.visits + 1, node.count[move := node.count[move] + 1], node.total[move := node.total[move] + ret],
         node.children[move := child])
  }

  function ChildOr(node: Node, move: nat, n: nat): Node
    requires move < |node.children|
  {
    if node.children[move].Some? then node.children[move].value else Fresh(n)
  }

  ghost predicate Ready(r: Round, outcome: seq<bool>, taken: seq<bool>, step: nat) {
    r.Valid() && |outcome| == |taken| == r.N() && Taken(taken) == step
  }

  ghost function Simulate(r: Round, outcome: seq<bool>, node: Node, taken: seq<bool>, step: nat): (Node, real, seq<nat>)
    requires Ready(r, outcome, taken, step) && Shaped(node, r.N())
    decreases r.depth - step
  {
    if step >= r.depth then (node, 0.0, [])
    else
      var move := SelectMove(r, node, taken);
      var reward := Reward(r, outcome, taken, move);
      TakenMore(taken, move);
      if node.count[move] == 0 then
        var (future, moves) := Rollout(r, outcome, taken[move := true], step + 1, 0);
        var ret := reward + Times(r.discount, future);
        (Record(node, move, node.children[move], ret), ret, [move] + moves)
      else
        var (child, future, moves) := Simulate(r, outcome, ChildOr(node, move, r.N()), taken[move := true], step + 1);
        var ret := reward + Times(r.discount, future);
        (Record(node, move, Some(child), ret), ret, [move] + moves)
  }

  // ----- trajectories -----

  /** Distinct candidates, none of them taken before. */
  ghost predicate FreshMoves(taken: seq<bool>, moves: seq<nat>) {
    NoDup(moves) && forall m :: m in moves ==> m < |taken| && !taken[m]
  }

  lemma FreshCons(taken: seq<bool>, move: nat, moves: seq<nat>)
    requires move < |taken| && !taken[move] && FreshMoves(taken[move := true], moves)
    ensures FreshMoves(taken, [move] + moves)
  {
    assert move !in moves;
  }

  /** A rollout takes exactly as many new candidates as the horizon leaves. */
  lemma {:induction false} RolloutMoves(r: Round, outcome: seq<bool>, taken: seq<bool>, step: nat, i: nat)
    requires Ready(r, outcome, taken, step) && i <= r.N()
    requires forall j :: 0 <= j < i ==> taken[j]
    ensures var moves := Rollout(r, outcome, taken, step, i).1;
            FreshMoves(taken, moves) && |moves| == if step >= r.depth then 0 else r.depth - step
    decreases r.N() - i
  {
    if i == r.N() {
      TakenBound(taken);
    } else if step < r.depth {
      if taken[i] {
        RolloutMoves(r, outcome, taken, step, i + 1);
      } else {
        TakenMore(taken, i);
        RolloutMoves(r, outcome, taken[i := true], step + 1, i + 1);
        FreshCons(taken, i, Rollout(r, outcome, taken[i := true], step + 1, i + 1).1);
      }
    }
  }

  lemma FreshShaped(n: nat)
    ensures Shaped(Fresh(n), n)
  {
  }

  /** A simulation takes exactly depth - step new candidates, each once. */
  lemma {:induction false} SimulateMoves(r: Round, outcome: seq<bool>, node: Node, taken: seq<bool>, step: nat)
    requires Ready(r, outcome, taken, step) && Shaped(node, r.N())
    ensures var (after, _, moves) := Simulate(r, outcome, node, taken, step);
            && Shaped(after, r.N()) && FreshMoves(taken, moves)
            && |moves| == if step >= r.depth then 0 else r.depth - step
    decreases r.depth - step
  {
    if step < r.depth {
      var move := SelectMove(r, node, taken);
      TakenMore(taken, move);
      var taken' := taken[move := true];
      if node.count[move] == 0 {
        RolloutMoves(r, outcome, taken', step + 1, 0);
        FreshCons(taken, move, Rollout(r, outcome, taken', step + 1, 0).1);
      } else {
        FreshShaped(r.N());
        SimulateMoves(r, outcome, ChildOr(node, move, r.N()), taken', step + 1);
        FreshCons(taken, move, Simulate(r, outcome, ChildOr(node, move, r.N()), taken', step + 1).2);
      }
    }
  }

  // ----- what every node keeps -----

  function Sum(s: seq<nat>): nat {
    if s == [] then 0 else s[0] + Sum(s[1..])
  }

  lemma {:induction false} SumMore(s: seq<nat>, i: nat)
    requires i < |s|
    ensures Sum(s[i := s[i] + 1]) == Sum(s) + 1
  {
    if i == 0 {
      assert s[0 := s[0] + 1][1..] == s[1..];
    } else {
      assert s[i := s[i] + 1][1..] == s[1..][i - 1 := s[1..][i - 1] + 1];
      SumMore(s[1..], i - 1);
    }
  }

  lemma {:induction false} SumZero(n: nat)
    ensures Sum(seq(n, i => 0)) == 0
  {
    if n > 0 {
      assert seq(n, i => 0)[1..] == seq(n - 1, i => 0);
      SumZero(n - 1);
    }
  }

  /** Visits are conserved: the visits of a node are the counts of its moves,
      and a move leads to a node from its second time on, which every later
      simulation of that move enters, up to the horizon. */
  ghost predicate Conserved(r: Round, node: Node, step: nat)
    requires Shaped(node, r.N())
    decreases node
  {
    && node.visits == Sum(node.count)
    && forall i :: 0 <= i < r.N() ==>
         && (node.children[i].Some? <==> node.count[i] >= 2)
         && (node.children[i].Some? ==>
               && node.children[i].value.visits == (if step + 1 < r.depth then node.count[i] - 1 else 0)
               && Conserved(r, node.children[i].value, step + 1))
  }

  lemma FreshConserved(r: Round, step: nat)
    ensures Shaped(Fresh(r.N()), r.N()) && Conserved(r, Fresh(r.N()), step)
  {
    SumZero(r.N());
  }

  lemma RecordConserved(r: Round, node: Node, step: nat, move: nat, child: Option<Node>, ret: real)
    requires Shaped(node, r.N()) && Conserved(r, node, step) && move < r.N()
    requires child.Some? ==> Shaped(child.value, r.N())
    requires child.Some? <==> node.count[move] >= 1
    requires child.Some? ==>
      child.value.visits == (if step + 1 < r.depth then node.count[move] else 0) && Conserved(r, child.value, step + 1)
    ensures Shaped(Record(node, move, child, ret), r.N())
    ensures Conserved(r, Record(node, move, child, ret), step)
  {
    SumMore(node.count, move);
  }

  /** A simulation keeps the books of every node. */
  lemma {:induction false} SimulateConserves(r: Round, outcome: seq<bool>, node: Node, taken: seq<bool>, step: nat)
    requires Ready(r, outcome, taken, step) && Shaped(node, r.N()) && Conserved(r, node, step)
    ensures var after := Simulate(r, outcome, node, taken, step).0;
            && Shaped(after, r.N()) && Conserved(r, after, step)
            && after.visits == node.visits + if step < r.depth then 1 else 0
    decreases r.depth - step
  {
    if step < r.depth {
      var move := SelectMove(r, node, taken);
      TakenMore(taken, move);
      var ret := Simulate(r, outcome, node, taken, step).1;
      if node.count[move] == 0 {
        RecordConserved(r, node, step, move, None, ret);
      } else {
        var before := ChildOr(node, move, r.N());
        ChildConserved(r, node, step, move);
        SimulateConserves(r, outcome, before, taken[move := true], step + 1);
        var child := Simulate(r, outcome, before, taken[move := true], step + 1).0;
        RecordConserved(r, node, step, move, Some(child), ret);
      }
    }
  }

  lemma ChildConserved(r: Round, node: Node, step: nat, move: nat)
    requires Shaped(node, r.N()) && Conserved(r, node, step) && move < r.N() && node.count[move] >= 1
    ensures var child := ChildOr(node, move, r.N());
            && Shaped(child, r.N()) && Conserved(r, child, step + 1)
            && child.visits == if step + 1 < r.depth then node.count[move] - 1 else 0
  {
    FreshConserved(r, step + 1);
  }

  // ----- the size of the tree -----

  function Size(node: Node): nat
    decreases node
  {
    1 + SizeAll(node.children)
  }

  function SizeOf(child: Option<Node>): nat
    decreases child
  {
    if child.None? then 0 else Size(child.value)
  }

  function SizeAll(children: seq<Option<Node>>): nat
    decreases children
  {
    if children == [] then 0 else SizeOf(children[0]) + SizeAll(children[1..])
  }

  lemma {:induction false} SizeUpdate(children: seq<Option<Node>>, i: nat, child: Option<Node>)
    requires i < |children|
    ensures SizeAll(children[i := child]) + SizeOf(children[i]) == SizeAll(children) + SizeOf(child)
  {
    if i == 0 {
      assert children[0 := child][1..] == children[1..];
    } else {
      assert children[i := child][1..] == children[1..][i - 1 := child];
      SizeUpdate(children[1..], i - 1, child);
    }
  }

  lemma {:induction false} FreshSize(n: nat)
    ensures Size(Fresh(n)) == 1
  {
    NoneSize(n);
  }

  lemma {:induction false} NoneSize(n: nat)
    ensures SizeAll(NoChildren(n)) == 0
  {
    if n > 0 {
      assert NoChildren(n)[1..] == NoChildren(n - 1);
      NoneSize(n - 1);
    }
  }

  /** A simulation adds at most one node and removes none. */
  lemma {:induction false} SimulateGrows(r: Round, outcome: seq<bool>, node: Node, taken: seq<bool>, step: nat)
    requires Ready(r, outcome, taken, step) && Shaped(node, r.N()) && Conserved(r, node, step)
    ensures Size(node) <= Size(Simulate(r, outcome, node, taken, step).0) <= Size(node) + 1
    ensures node.visits == 0 ==> Size(Simulate(r, outcome, node, taken, step).0) == Size(node)
    decreases r.depth - step
  {
    if step < r.depth {
      var move := SelectMove(r, node, taken);
      TakenMore(taken, move);
      var after := Simulate(r, outcome, node, taken, step).0;
      SizeUpdate(node.children, move, after.children[move]);
      if node.count[move] > 0 {
        var before := ChildOr(node, move, r.N());
        FreshConserved(r, step + 1);
        FreshSize(r.N());
        SimulateGrows(r, outcome, before, taken[move := true], step + 1);
        SumAtLeast(node.count, move);
      }
    }
  }

  lemma {:induction false} SumAtLeast(s: seq<nat>, i: nat)
    requires i < |s|
    ensures Sum(s) >= s[i]
  {
    if i > 0 {
      SumAtLeast(s[1..], i - 1);
    }
  }

  // ----- bounds on the returns -----

  function Power(x: real, k: nat): real {
    if k == 0 then 1.0 else Times(x, Power(x, k - 1))
  }

  /** The sum of discount^j for j below `k`. */
  function Geometric(x: real, k: nat): real {
    if k == 0 then 0.0 else Geometric(x, k - 1) + Power(x, k - 1)
  }

  lemma {:induction false} GeometricStep(x: real, k: nat)
    ensures Geometric(x, k + 1) == 1.0 + Times(x, Geometric(x, k))
  {
    if k == 0 {
      TimesZero(x);
    } else {
      GeometricStep(x, k - 1);
      TimesDistribute(Geometric(x, k - 1), Power(x, k - 1), x);
    }
  }

  /** The largest reward of one move when no value exceeds `v`. */
  function MaxReward(r: Round, v: real): real {
    Times(r.weight, v) + r.terminal
  }

  /** The largest return of `k` moves. */
  function Cap(r: Round, v: real, k: nat): real {
    Times(MaxReward(r, v), Geometric(r.discount, k))
  }

  ghost predicate ValuesWithin(r: Round, v: real) {
    forall i :: 0 <= i < r.N() ==> 0.0 <= r.values[i] <= v
  }

  lemma TimesMonotone(a: real, x: real, y: real)
    requires a >= 0.0 && x <= y
    ensures Times(a, x) <= Times(a, y)
  {
    TimesNonNegative(a, y - x);
    TimesDistribute(x, y - x, a);
    assert y == x + (y - x);
  }

  lemma RewardBounds(r: Round, v: real, outcome: seq<bool>, taken: seq<bool>, i: nat)
    requires r.Valid() && ValuesWithin(r, v) && i < r.N() && |outcome| == r.N()
    ensures 0.0 <= Reward(r, outcome, taken, i) <= MaxReward(r, v)
  {
    TimesNonNegative(r.weight, r.values[i]);
    TimesMonotone(r.weight, r.values[i], v);
  }

  /** One reward and a discounted rest stay below the cap of one more move. */
  lemma CapStep(r: Round, v: real, k: nat, reward: real, future: real)
    requires r.Valid() && 0.0 <= reward <= MaxReward(r, v) && 0.0 <= future <= Cap(r, v, k)
    ensures 0.0 <= reward + Times(r.discount, future) <= Cap(r, v, k + 1)
  {
    var m, g := MaxReward(r, v), Geometric(r.discount, k);
    TimesNonNegative(r.discount, future);
    TimesMonotone(r.discount, future, Cap(r, v, k));
    GeometricStep(r.discount, k);
    TimesDistribute(1.0, Times(r.discount, g), m);
    TimesUnit(m);
    TimesAssoc(m, r.discount, g);
    TimesComm(m, r.discount);
    TimesAssoc(r.discount, m, g);
  }

  function Left(r: Round, step: nat): nat {
    if step >= r.depth then 0 else r.depth - step
  }

  lemma {:induction false} RolloutBounds(r: Round, v: real, outcome: seq<bool>, taken: seq<bool>, step: nat, i: nat)
    requires Ready(r, outcome, taken, step) && ValuesWithin(r, v) && i <= r.N()
    requires forall j :: 0 <= j < i ==> taken[j]
    ensures 0.0 <= Rollout(r, outcome, taken, step, i).0 <= Cap(r, v, Left(r, step))
    decreases r.N() - i
  {
    if step >= r.depth {
      TimesZero(MaxReward(r, v));
    } else if i == r.N() {
      TakenBound(taken);
    } else if taken[i] {
      RolloutBounds(r, v, outcome, taken, step, i + 1);
    } else {
      TakenMore(taken, i);
      RolloutBounds(r, v, outcome, taken[i := true], step + 1, i + 1);
      RewardBounds(r, v, outcome, taken, i);
      CapStep(r, v, Left(r, step + 1), Reward(r, outcome, taken, i),
              Rollout(r, outcome, taken[i := true], step + 1, i + 1).0);
    }
  }

  /** The return of a simulation lies between 0 and
      (w * V + T) * sum of discount^k for k below the remaining depth. */
  lemma {:induction false} SimulateBounds(r: Round, v: real, outcome: seq<bool>, node: Node, taken: seq<bool>,
                                          step: nat)
    requires Ready(r, outcome, taken, step) && Shaped(node, r.N()) && ValuesWithin(r, v)
    ensures 0.0 <= Simulate(r, outcome, node, taken, step).1 <= Cap(r, v, Left(r, step))
    decreases r.depth - step
  {
    if step >= r.depth {
      TimesZero(MaxReward(r, v));
    } else {
      var move := SelectMove(r, node, taken);
      TakenMore(taken, move);
      RewardBounds(r, v, outcome, taken, move);
      var reward := Reward(r, outcome, taken, move);
      if node.count[move] == 0 {
        RolloutBounds(r, v, outcome, taken[move := true], step + 1, 0);
        CapStep(r, v, Left(r, step + 1), reward, Rollout(r, outcome, taken[move := true], step + 1, 0).0);
      } else {
        FreshShaped(r.N());
        var before := ChildOr(node, move, r.N());
        SimulateBounds(r, v, outcome, before, taken[move := true], step + 1);
        CapStep(r, v, Left(r, step + 1), reward, Simulate(r, outcome, before, taken[move := true], step + 1).1);
      }
    }
  }

  // ----- whole rounds (bamcp.go:374-385) -----

  function Free(n: nat): (taken: seq<bool>)
    ensures |taken| == n
  {
    seq(n, i => false)
  }

  lemma {:induction false} FreeTakesNothing(n: nat)
    ensures Taken(Free(n)) == 0
  {
    if n > 0 {
      assert Free(n)[1..] == Free(n - 1);
      FreeTakesNothing(n - 1);
    }
  }

  ghost predicate Samples(r: Round, outcomes: seq<seq<bool>>) {
    r.Valid() && forall o :: o in outcomes ==> |o| == r.N()
  }

  /** The tree after one simulation per sampled world. */
  ghost function Searched(r: Round, outcomes: seq<seq<bool>>): (root: Node)
    requires Samples(r, outcomes)
    ensures Shaped(root, r.N())
  {
    if outcomes == [] then
      FreshShaped(r.N());
      Fresh(r.N())
    else
      var k := |outcomes| - 1;
      assert outcomes[k] in outcomes;
      FreeTakesNothing(r.N());
      var before := Searched(r, outcomes[..k]);
      SimulateMoves(r, outcomes[k], before, Free(r.N()), 0);
      Simulate(r, outcomes[k], before, Free(r.N()), 0).0
  }

  /** Totals stay between nothing and the cap for every visit. */
  ghost predicate TotalsWithin(node: Node, cap: real)
    requires |node.count| == |node.total|
  {
    forall i :: 0 <= i < |node.count| ==> 0.0 <= node.total[i] <= Times(node.count[i] as real, cap)
  }

  /** The first `k` candidates have been tried. */
  ghost predicate Tried(node: Node, k: nat) {
    forall i :: 0 <= i < k && i < |node.count| ==> node.count[i] >= 1
  }

  lemma RecordTotals(node: Node, move: nat, child: Option<Node>, ret: real, cap: real)
    requires move < |node.count| == |node.total| == |node.children|
    requires TotalsWithin(node, cap) && 0.0 <= ret <= cap
    ensures TotalsWithin(Record(node, move, child, ret), cap)
  {
    TimesDistribute(node.count[move] as real, 1.0, cap);
    TimesUnit(cap);
    assert (node.count[move] + 1) as real == node.count[move] as real + 1.0;
  }

  lemma SimulateRecords(r: Round, outcome: seq<bool>, node: Node, taken: seq<bool>, step: nat)
    requires Ready(r, outcome, taken, step) && Shaped(node, r.N()) && step < r.depth
    ensures var (after, ret, _) := Simulate(r, outcome, node, taken, step);
            var move := SelectMove(r, node, taken);
            |after.children| == r.N() && after == Record(node, move, after.children[move], ret)
  {
  }

  lemma RecordTried(r: Round, node: Node, child: Option<Node>, ret: real, k: nat)
    requires Shaped(node, r.N()) && r.N() > 0 && Taken(Free(r.N())) == 0 && Tried(node, k)
    ensures Tried(Record(node, SelectMove(r, node, Free(r.N())), child, ret), k + 1)
  {
  }

  /** What one simulation does to the root. */
  lemma SimulateRoot(r: Round, v: real, outcome: seq<bool>, root: Node, k: nat)
    requires Shaped(root, r.N()) && ValuesWithin(r, v) && r.depth > 0 && Ready(r, outcome, Free(r.N()), 0)
    requires TotalsWithin(root, Cap(r, v, r.depth)) && Tried(root, k)
    ensures var after := Simulate(r, outcome, root, Free(r.N()), 0).0;
            |after.count| == |after.total| && TotalsWithin(after, Cap(r, v, r.depth)) && Tried(after, k + 1)
  {
    var taken := Free(r.N());
    SimulateRecords(r, outcome, root, taken, 0);
    SimulateBounds(r, v, outcome, root, taken, 0);
    var (after, ret, _) := Simulate(r, outcome, root, taken, 0);
    var move := SelectMove(r, root, taken);
    RecordTotals(root, move, after.children[move], ret, Cap(r, v, r.depth));
    RecordTried(r, root, after.children[move], ret, k);
  }

  lemma SearchedStep(r: Round, outcomes: seq<seq<bool>>)
    requires Samples(r, outcomes) && outcomes != []
    ensures var k := |outcomes| - 1;
            && Samples(r, outcomes[..k]) && Ready(r, outcomes[k], Free(r.N()), 0)
            && Searched(r, outcomes) == Simulate(r, outcomes[k], Searched(r, outcomes[..k]), Free(r.N()), 0).0
  {
    assert outcomes[|outcomes| - 1] in outcomes;
    FreeTakesNothing(r.N());
  }

  /** Over every run of simulations the books of every node balance, and the
      tree grows by at most one node a simulation. */
  lemma {:induction false} RunConserves(r: Round, outcomes: seq<seq<bool>>)
    requires Samples(r, outcomes) && r.depth > 0
    ensures Conserved(r, Searched(r, outcomes), 0) && Searched(r, outcomes).visits == |outcomes|
    ensures Size(Searched(r, outcomes)) <= 1 + |outcomes|
  {
    if outcomes == [] {
      FreshConserved(r, 0);
      FreshSize(r.N());
    } else {
      var k := |outcomes| - 1;
      SearchedStep(r, outcomes);
      RunConserves(r, outcomes[..k]);
      SimulateConserves(r, outcomes[k], Searched(r, outcomes[..k]), Free(r.N()), 0);
      SimulateGrows(r, outcomes[k], Searched(r, outcomes[..k]), Free(r.N()), 0);
    }
  }

  /** Candidates are tried in order, and the totals of the root respect the
      return bound. */
  lemma {:induction false} RunTotals(r: Round, v: real, outcomes: seq<seq<bool>>)
    requires Samples(r, outcomes) && ValuesWithin(r, v) && r.depth > 0
    ensures Tried(Searched(r, outcomes), |outcomes|)
    ensures TotalsWithin(Searched(r, outcomes), Cap(r, v, r.depth))
  {
    if outcomes == [] {
      TimesZero(Cap(r, v, r.depth));
    } else {
      var k := |outcomes| - 1;
      SearchedStep(r, outcomes);
      RunTotals(r, v, outcomes[..k]);
      SimulateRoot(r, v, outcomes[k], Searched(r, outcomes[..k]), k);
    }
  }

  lemma MeanWithin(node: Node, cap: real, i: nat)
    requires i < |node.count| == |node.total| && TotalsWithin(node, cap) && node.count[i] >= 1
    ensures 0.0 <= Mean(node, i) <= cap
  {
    Quotient(node.total[i], node.count[i] as real, cap);
  }

  lemma Quotient(t: real, c: real, cap: real)
    requires c >= 1.0 && 0.0 <= t <= Times(c, cap)
    ensures 0.0 <= t / c <= cap
  {
    assert t / c * c == t;
  }

  /** After at least one simulation per candidate, every candidate has been
      tried and its mean return lies within the bound. */
  lemma RankingWithin(r: Round, v: real, outcomes: seq<seq<bool>>, i: nat)
    requires Samples(r, outcomes) && ValuesWithin(r, v) && r.depth > 0 && |outcomes| >= r.N() && i < r.N()
    ensures Ranked(Searched(r, outcomes), Cap(r, v, r.depth), i)
  {
    RunTotals(r, v, outcomes);
    RankedWithin(Searched(r, outcomes), Cap(r, v, r.depth), |outcomes|, i);
  }

  ghost predicate Ranked(root: Node, cap: real, i: nat) {
    i < |root.count| == |root.total| && root.count[i] >= 1 && 0.0 <= Mean(root, i) <= cap
  }

  lemma RankedWithin(root: Node, cap: real, k: nat, i: nat)
    requires i < k && i < |root.count| == |root.total| && Tried(root, k) && TotalsWithin(root, cap)
    ensures Ranked(root, cap, i)
  {
    MeanWithin(root, cap, i);
  }
}
