/** The reconciler as the object that updates the member table in place
(internal/engine/bank/reconciler.go:246-399, 509-585, 614-647). */
module BankReconciler {
  import opened Wrappers
  import opened Factors
  import opened Order
  import opened Lists
  import opened Bank

  /** `live` falls apart into the drained and the kept, and no kept member would
      have interrupted less work than a drained one. */
  ghost predicate Divides(drained: seq<Member>, kept: seq<Member>, live: seq<Member>) {
    && multiset(drained) + multiset(kept) == multiset(live)
    && forall d, k :: d in drained && k in kept ==> !LessDrainable(k, d)
  }

  ghost predicate LeastDrained(drained: seq<Member>, live: seq<Member>) {
    exists kept :: Divides(drained, kept, live)
  }

  /** The listed members are active rows of the table. */
  ghost predicate Tabled(live: seq<Member>, rows: Rows) {
    forall m :: m in live ==> m.id in rows && rows[m.id] == m && Active(m)
  }

  /** A live member without jobs is gone or unchanged. */
  ghost predicate IdleUntouched(live: seq<Member>, rows: Rows) {
    forall m :: m in live && m.id in rows && m.jobs == 0 ==> rows[m.id] == m
  }

  /** Every other row is as it was. */
  ghost predicate Untouched(before: Rows, rows: Rows, ids: set<string>) {
    forall id :: id in before && id !in ids ==> id in rows && rows[id] == before[id]
  }

  /** The members that were idle long enough. */
  function IdleIds(limits: Limits, now: int, live: seq<Member>): set<string> {
    set m | m in live && IdleLongEnough(limits, now, m) :: m.id
  }

  function WithSuspended(rows: Rows, ids: set<string>): Rows {
    map id | id in rows :: if id in ids then rows[id].(state := Suspended) else rows[id]
  }

  function NewMember(b: Bank, id: string, now: int): Member {
    Member(id, if b.subscription then NeedsSignIn else Launching, 0, now, now, None, None)
  }

  /** The drained members without jobs leave at once, the others when done. */
  function WithDrained(rows: Rows, drained: seq<Member>): Rows {
    map id | id in rows && id !in JoblessIds(drained) ::
      if id in IdSet(drained) then rows[id].(state := Draining) else rows[id]
  }

  function JoblessIds(ms: seq<Member>): set<string> {
    set m | m in ms && m.jobs == 0 :: m.id
  }

  function Launched(b: Bank, ids: seq<string>, now: int): Rows {
    map id | id in ids :: NewMember(b, id, now)
  }

  function Smaller(a: nat, b: nat): nat {
    if a <= b then a else b
  }

  /** The first suspended go, then the drained. */
  function Shrunk(rows: Rows, suspended: seq<Member>, excess: nat, drained: seq<Member>): Rows {
    WithDrained(rows - IdSet(suspended[..Smaller(excess, |suspended|)]), drained)
  }

  /** The table after `count` members were brought down or up to the target. */
  function Adjusted(b: Bank, rows: Rows, suspended: seq<Member>, drained: seq<Member>, count: nat, target: nat,
                    now: int, unused: seq<string>): Rows
    requires target - count <= |unused|
  {
    if count > target then Shrunk(rows, suspended, count - target, drained)
    else rows + Launched(b, unused[..target - count], now)
  }

  /** `target` members are neither dead nor draining.  The drained are the live
      members that are no longer among them: nobody waits suspended if one was
      drained, and no kept one would have interrupted less work. */
  ghost predicate Settles(rows: Rows, live: seq<Member>, suspended: seq<Member>, drained: seq<Member>, target: int) {
    && |ActiveIds(rows)| == target
    && IdSet(drained) == IdSet(live) - ActiveIds(rows)
    && (drained != [] ==> IdSet(suspended) !! rows.Keys)
    && LeastDrained(drained, live)
  }

  function WithIdleRule(limits: Limits, now: int, rows: Rows, live: seq<Member>, queue: Option<int>): Rows {
    if queue.Some? && queue.value <= 0 then WithSuspended(rows, IdleIds(limits, now, live)) else rows
  }

  /** Jobs of the members in `ids` go back to the queue. */
  function Released(holders: map<string, string>, ids: set<string>): map<string, string> {
    map j | j in holders && holders[j] !in ids :: holders[j]
  }

  /** A suspended member sends no heartbeat, so it is not judged dead. */
  predicate Dies(limits: Limits, now: int, m: Member) {
    m.state != Suspended && IsDead(limits, now, m)
  }

  function DeadOf(limits: Limits, now: int, members: seq<Member>): seq<Member> {
    Filter(m => Dies(limits, now, m), members)
  }

  /** Every held job is held by a member that has a row, counts its jobs and is
      not suspended. */
  ghost predicate Attended(holders: map<string, string>, rows: Rows) {
    forall j :: j in holders ==>
      holders[j] in rows && rows[holders[j]].jobs > 0 && rows[holders[j]].state != Suspended
  }

  /** A member with jobs keeps its row, as it was or marked as draining. */
  ghost predicate BusyKept(before: Rows, rows: Rows, waiting: seq<Member>, drained: seq<Member>) {
    forall id :: id in before && before[id].jobs > 0 && id !in IdSet(waiting) ==>
      id in rows && rows[id] == if id in IdSet(drained) then before[id].(state := Draining) else before[id]
  }

  ghost predicate AllSuspended(rows: Rows, ids: set<string>) {
    forall id :: id in rows && id in ids ==> rows[id].state == Suspended
  }

  class Reconciler {
    const limits: Limits
    /** The table of members, by id. */
    var rows: Rows
    /** Which member holds a job, by job. */
    var holders: map<string, string>

    constructor (limits: Limits, rows: Rows, holders: map<string, string>)
      ensures this.limits == limits && this.rows == rows && this.holders == holders
    {
      this.limits, this.rows, this.holders := limits, rows, holders;
    }

    /** A state write fails when the row is gone. */
    method SetState(id: string, state: MemberState) returns (ok: bool)
      modifies this`rows
      ensures ok <==> id in old(rows)
      ensures rows == if ok then old(rows)[id := old(rows)[id].(state := state)] else old(rows)
    {
      ok := id in rows;
      if ok {
        rows := rows[id := rows[id].(state := state)];
      }
    }

    method RemoveMember(id: string)
      modifies this`rows
      ensures rows == old(rows) - {id}
    {
      rows := rows - {id};
    }

    /** The jobs of a dead member go back to the queue before its row goes. */
    method MarkDead(m: Member)
      modifies this
      ensures rows == old(rows) - {m.id} && holders == Released(old(holders), {m.id})
    {
      if m.state != Dead {
        var _ := SetState(m.id, Dead);
      }
      holders := map j | j in holders && holders[j] != m.id :: holders[j];
      RemoveMember(m.id);
    }

    /** Remove what is recycled, dead or drained, and sort out the rest. */
    method Classify(members: seq<Member>, now: int) returns (live: seq<Member>, suspended: seq<Member>)
      modifies this
      ensures live == LiveOf(limits, now, members) && suspended == WaitingOf(limits, now, members)
      ensures rows == old(rows) - IdSet(GoneOf(limits, now, members))
      ensures holders == Released(old(holders), IdSet(DeadOf(limits, now, members)))
    {
      live, suspended := [], [];
      var rest := members;
      ghost var gone: seq<Member> := [];
      ghost var dead: seq<Member> := [];
      while rest != []
        invariant live + LiveOf(limits, now, rest) == LiveOf(limits, now, members)
        invariant suspended + WaitingOf(limits, now, rest) == WaitingOf(limits, now, members)
        invariant gone + GoneOf(limits, now, rest) == GoneOf(limits, now, members)
        invariant rows == old(rows) - IdSet(gone)
        invariant dead + DeadOf(limits, now, rest) == DeadOf(limits, now, members)
        invariant holders == Released(old(holders), IdSet(dead))
      {
        var m := rest[0];
        FilterStep(x => Lives(limits, now, x), live, rest);
        FilterStep(x => Waits(limits, now, x), suspended, rest);
        FilterStep(x => Goes(limits, now, x), gone, rest);
        FilterStep(x => Dies(limits, now, x), dead, rest);
        ReleasedStep(old(holders), holders, dead, m);
        GoneStep(old(rows), rows, gone, m);
        if m.state == Suspended {
          if now - m.updated > limits.recycle {
            RemoveMember(m.id);
            gone := gone + [m];
          } else {
            suspended := suspended + [m];
          }
        } else if IsDead(limits, now, m) {
          MarkDead(m);
          gone := gone + [m];
          dead := dead + [m];
        } else if m.state == Draining {
          if m.jobs == 0 {
            RemoveMember(m.id);
            gone := gone + [m];
          }
        } else {
          live := live + [m];
        }
        rest := rest[1..];
      }
    }

    /** Recycle the first `n` suspended members. */
    method RecycleFirst(suspended: seq<Member>, n: nat)
      requires n <= |suspended|
      modifies this`rows
      ensures rows == old(rows) - IdSet(suspended[..n])
    {
      var i := 0;
      while i < n
        invariant 0 <= i <= n && rows == old(rows) - IdSet(suspended[..i])
      {
        assert suspended[..i + 1] == suspended[..i] + [suspended[i]];
        GoneStep(old(rows), rows, suspended[..i], suspended[i]);
        RemoveMember(suspended[i].id);
        i := i + 1;
      }
    }

    /** Drain the `n` members that interrupt the least work. */
    method Drain(live: seq<Member>, n: nat) returns (drained: seq<Member>, kept: seq<Member>)
      requires n <= |live| && NoDup(MemberIds(live))
      requires Tabled(live, rows)
      modifies this`rows
      ensures Divides(drained, kept, live) && |drained| == n
      ensures rows == WithDrained(old(rows), drained)
      ensures ActiveIds(rows) == old(ActiveIds(rows)) - IdSet(drained) && rows.Keys <= old(rows).Keys
      ensures Untouched(old(rows), rows, IdSet(drained))
      ensures forall d :: d in drained && d.jobs == 0 ==> d.id !in rows
    {
      var ordered := DrainOrder(live);
      drained, kept := ordered[..n], ordered[n..];
      assert ordered == drained + kept;
      SplitSorted(ordered, n);
      OrderedIds(live, ordered);
      assert MemberIds(drained) == MemberIds(ordered)[..n];
      assert forall m :: m in drained ==> m in ordered;
      DrainAll(drained);
      DrainedRows(old(rows), drained);
    }

    method DrainAll(drained: seq<Member>)
      requires NoDup(MemberIds(drained)) && Tabled(drained, rows)
      modifies this`rows
      ensures rows == WithDrained(old(rows), drained)
    {
      var i := 0;
      assert rows == WithDrained(rows, drained[..0]);
      while i < |drained|
        invariant 0 <= i <= |drained| && rows == WithDrained(old(rows), drained[..i])
      {
        DrainStep(old(rows), drained, i);
        DrainOne(drained[i]);
        i := i + 1;
      }
      assert drained[..i] == drained;
    }

    method DrainOne(m: Member)
      requires m.id in rows && rows[m.id] == m
      modifies this`rows
      ensures rows == if m.jobs == 0 then old(rows) - {m.id} else old(rows)[m.id := m.(state := Draining)]
    {
      var ok := SetState(m.id, Draining);
      if ok && m.jobs == 0 {
        RemoveMember(m.id);
      }
    }

    method Launch(b: Bank, ids: seq<string>, now: int)
      requires NoDup(ids) && Elems(ids) !! rows.Keys
      modifies this`rows
      ensures ActiveIds(rows) == old(ActiveIds(rows)) + Elems(ids) && rows.Keys == old(rows).Keys + Elems(ids)
      ensures forall id :: id in old(rows) ==> id in rows && rows[id] == old(rows)[id]
      ensures rows == old(rows) + Launched(b, ids, now)
    {
      var i := 0;
      while i < |ids|
        invariant 0 <= i <= |ids|
        invariant rows == old(rows) + Launched(b, ids[..i], now)
      {
        LaunchStep(b, old(rows), ids, i, now);
        rows := rows[ids[i] := NewMember(b, ids[i], now)];
        i := i + 1;
      }
      assert ids[..i] == ids;
      LaunchedRows(b, old(rows), ids, now);
    }

    /** With no job waiting, suspend each member that was idle long enough; the
        list is the one from before the drain. */
    method SuspendIdle(live: seq<Member>, now: int)
      requires forall m :: m in live && IdleLongEnough(limits, now, m) && m.id in rows ==> Active(rows[m.id])
      modifies this`rows
      ensures rows == WithSuspended(old(rows), IdleIds(limits, now, live))
      ensures ActiveIds(rows) == old(ActiveIds(rows))
    {
      var i := 0;
      assert rows == WithSuspended(rows, {});
      while i < |live|
        invariant 0 <= i <= |live| && rows == WithSuspended(old(rows), IdleIds(limits, now, live[..i]))
      {
        IdleStep(limits, now, live, i);
        if IdleLongEnough(limits, now, live[i]) {
          var _ := SetState(live[i].id, Suspended);
        }
        i := i + 1;
      }
      assert live[..i] == live;
      StaysActive(limits, now, live, old(rows));
    }

    /** Recycle first, then drain, until `excess` members are gone. */
    method Shrink(live: seq<Member>, suspended: seq<Member>, excess: nat)
      returns (drained: seq<Member>)
      requires excess <= |live| + |suspended|
      requires NoDup(MemberIds(live)) && NoDup(MemberIds(suspended)) && IdSet(live) !! IdSet(suspended)
      requires Tabled(live, rows)
      requires ActiveIds(rows) == IdSet(live) + IdSet(suspended)
      modifies this`rows
      ensures Settles(rows, live, suspended, drained, |live| + |suspended| - excess)
      ensures rows == Shrunk(old(rows), suspended, excess, drained)
      ensures IdleUntouched(live, rows)
    {
      if excess <= |suspended| {
        var left := Recycle(live, suspended, excess);
        drained := [];
        NoneDrained(rows);
        NothingDrained(live);
        AllLive(IdSet(live), IdSet(left), ActiveIds(rows));
      } else {
        var left := Recycle(live, suspended, |suspended|);
        drained := DrainRest(live, excess - |suspended|);
        AllRecycled(IdSet(live), IdSet(drained), ActiveIds(rows));
      }
    }

    /** Recycle the first `n` suspended members; no live one is touched. */
    method Recycle(ghost live: seq<Member>, suspended: seq<Member>, n: nat) returns (left: seq<Member>)
      requires n <= |suspended|
      requires NoDup(MemberIds(live)) && NoDup(MemberIds(suspended)) && IdSet(live) !! IdSet(suspended)
      requires Tabled(live, rows) && ActiveIds(rows) == IdSet(live) + IdSet(suspended)
      modifies this`rows
      ensures left == suspended[n..] && IdSet(live) !! IdSet(left)
      ensures rows == old(rows) - IdSet(suspended[..n])
      ensures ActiveIds(rows) == IdSet(live) + IdSet(left) && |ActiveIds(rows)| == |live| + |suspended| - n
      ensures Tabled(live, rows) && IdleUntouched(live, rows) && rows.Keys <= old(rows).Keys
      ensures n == |suspended| ==> IdSet(suspended) !! rows.Keys && IdSet(left) == {}
    {
      RecycleFirst(suspended, n);
      left := suspended[n..];
      RecycledCount(live, suspended, n, old(rows), rows);
      RecycledRows(live, suspended, n, old(rows), rows);
    }

    /** Nobody is suspended any more: the rest of the excess is drained. */
    method DrainRest(live: seq<Member>, n: nat) returns (drained: seq<Member>)
      requires n <= |live| && NoDup(MemberIds(live))
      requires Tabled(live, rows)
      requires ActiveIds(rows) == IdSet(live)
      modifies this`rows
      ensures rows == WithDrained(old(rows), drained)
      ensures |ActiveIds(rows)| == |live| - n && rows.Keys <= old(rows).Keys
      ensures ActiveIds(rows) == IdSet(live) - IdSet(drained) && IdSet(drained) <= IdSet(live)
      ensures LeastDrained(drained, live)
      ensures IdleUntouched(live, rows)
    {
      var kept;
      drained, kept := Drain(live, n);
      DrainedCount(live, drained, kept);
    }

    /** Launch `n` new members. */
    method Grow(b: Bank, ghost live: seq<Member>, ghost suspended: seq<Member>, n: nat, now: int, unused: seq<string>)
      requires Tabled(live, rows) && IdSet(live) <= ActiveIds(rows) && |ActiveIds(rows)| == |live| + |suspended|
      requires NoDup(unused) && Elems(unused) !! rows.Keys && n <= |unused|
      modifies this`rows
      ensures rows == old(rows) + Launched(b, unused[..n], now)
      ensures Settles(rows, live, suspended, [], |live| + |suspended| + n) && IdleUntouched(live, rows)
    {
      var ids := unused[..n];
      ElemsCount(ids);
      assert forall x :: x in ids ==> x in Elems(unused);
      Launch(b, ids, now);
      NothingDrained(live);
    }

    /** Bring the running members down or up to the target. */
    method Adjust(b: Bank, live: seq<Member>, suspended: seq<Member>, target: nat, now: int, unused: seq<string>)
      returns (drained: seq<Member>)
      requires NoDup(MemberIds(live)) && NoDup(MemberIds(suspended)) && IdSet(live) !! IdSet(suspended)
      requires Tabled(live, rows)
      requires ActiveIds(rows) == IdSet(live) + IdSet(suspended) && |ActiveIds(rows)| == |live| + |suspended|
      requires NoDup(unused) && Elems(unused) !! rows.Keys && |unused| >= target - |live| - |suspended|
      modifies this`rows
      ensures Settles(rows, live, suspended, drained, target) && IdleUntouched(live, rows)
      ensures rows == Adjusted(b, old(rows), suspended, drained, |live| + |suspended|, target, now, unused)
      ensures |live| + |suspended| <= target ==> drained == []
    {
      if |live| + |suspended| > target {
        drained := ShrinkTo(b, live, suspended, target, now, unused);
      } else {
        drained := [];
        Grow(b, live, suspended, target - |live| - |suspended|, now, unused);
        AdjustedUp(b, old(rows), suspended, drained, |live| + |suspended|, target, now, unused);
      }
    }

    method ShrinkTo(ghost b: Bank, live: seq<Member>, suspended: seq<Member>, target: nat, ghost now: int,
                    ghost unused: seq<string>)
      returns (drained: seq<Member>)
      requires |live| + |suspended| > target
      requires NoDup(MemberIds(live)) && NoDup(MemberIds(suspended)) && IdSet(live) !! IdSet(suspended)
      requires Tabled(live, rows) && ActiveIds(rows) == IdSet(live) + IdSet(suspended)
      modifies this`rows
      ensures Settles(rows, live, suspended, drained, target) && IdleUntouched(live, rows)
      ensures rows == Adjusted(b, old(rows), suspended, drained, |live| + |suspended|, target, now, unused)
    {
      drained := Shrink(live, suspended, |live| + |suspended| - target);
      AdjustedDown(b, old(rows), suspended, drained, |live| + |suspended|, target, now, unused);
    }

    /** The idle rule, when the queue answers and is empty. */
    method ApplyIdleRule(queue: Option<int>, live: seq<Member>, now: int)
      requires forall m :: m in live && IdleLongEnough(limits, now, m) && m.id in rows ==> Active(rows[m.id])
      modifies this`rows
      ensures rows == WithIdleRule(limits, now, old(rows), live, queue)
      ensures rows.Keys == old(rows.Keys) && ActiveIds(rows) == old(ActiveIds(rows))
    {
      if queue.Some? && queue.value <= 0 {
        SuspendIdle(live, now);
      }
    }

    /** The second and third pass and the idle rule, on the sorted-out members. */
    method Balance(b: Bank, live: seq<Member>, suspended: seq<Member>, target: nat, now: int, queue: Option<int>,
                   unused: seq<string>)
      returns (drained: seq<Member>)
      requires NoDup(MemberIds(live)) && NoDup(MemberIds(suspended)) && IdSet(live) !! IdSet(suspended)
      requires Tabled(live, rows) && Tabled(suspended, rows)
      requires ActiveIds(rows) == IdSet(live) + IdSet(suspended) && |ActiveIds(rows)| == |live| + |suspended|
      requires NoDup(unused) && Elems(unused) !! rows.Keys && |unused| >= target - |live| - |suspended|
      modifies this`rows
      ensures Settles(rows, live, suspended, drained, target)
      ensures var count := |live| + |suspended|;
              rows == WithIdleRule(limits, now, Adjusted(b, old(rows), suspended, drained, count, target, now, unused),
                                   live, queue)
      ensures BusyKept(old(rows), rows, suspended, drained)
      ensures |live| + |suspended| <= target ==> drained == [] && Tabled(suspended, rows)
    {
      drained := Adjust(b, live, suspended, target, now, unused);
      ghost var adjusted := rows;
      ApplyIdleRule(queue, live, now);
      SameSettled(adjusted, rows, live, suspended, drained, target);
      LeastIncluded(drained, live);
      KeptBusy(b, limits, now, old(rows), live, suspended, drained, target, unused, queue);
      if |live| + |suspended| <= target {
        KeptWaiting(b, limits, now, old(rows), live, suspended, target, unused, queue);
      }
    }

    /** One pass.  The listed members are the table; `unused` are new ids.  The
        queue is read twice: for the target, and for the idle rule. */
    method ReconcileBank(b: Bank, members: seq<Member>, now: int, queue: Option<int>, queueLater: Option<int>,
                         unused: seq<string>)
      returns (drained: seq<Member>, ghost running: nat)
      requires ListsRows(members, rows)
      requires NoDup(unused) && Elems(unused) !! rows.Keys && forall n: nat :: |unused| >= Target(b, queue, n) - n
      modifies this
      ensures running == |LiveOf(limits, now, members)| + |WaitingOf(limits, now, members)|
      ensures Settles(rows, LiveOf(limits, now, members), WaitingOf(limits, now, members), drained,
                      Target(b, queue, running))
      ensures var sorted := old(rows) - IdSet(GoneOf(limits, now, members));
              var waiting := WaitingOf(limits, now, members);
              var adjusted := Adjusted(b, sorted, waiting, drained, running, Target(b, queue, running), now, unused);
              && rows == WithIdleRule(limits, now, adjusted, LiveOf(limits, now, members), queueLater)
              && BusyKept(sorted, rows, waiting, drained)
      ensures queueLater.Some? && queueLater.value <= 0 ==>
        AllSuspended(rows, IdleIds(limits, now, LiveOf(limits, now, members)))
      ensures running <= Target(b, queue, running) ==> drained == [] && Tabled(WaitingOf(limits, now, members), rows)
      ensures holders == Released(old(holders), IdSet(DeadOf(limits, now, members)))
      ensures Attended(old(holders), old(rows)) ==> Attended(holders, rows)
    {
      var live, suspended := Classify(members, now);
      SortedOut(limits, now, members, old(rows), rows);
      WaitingTabled(limits, now, members, old(rows));
      var count := |live| + |suspended|;
      running := count;
      var target := Target(b, queue, count);
      assert |unused| >= Target(b, queue, count) - count;
      drained := Balance(b, live, suspended, target, now, queueLater, unused);
      if Attended(old(holders), old(rows)) {
        StaysAttended(limits, now, members, old(holders), old(rows), rows, drained);
      }
    }
  }

  lemma IdleStep(limits: Limits, now: int, live: seq<Member>, i: nat)
    requires i < |live|
    ensures IdleIds(limits, now, live[..i + 1])
         == IdleIds(limits, now, live[..i]) + (if IdleLongEnough(limits, now, live[i]) then {live[i].id} else {})
  {
    assert live[..i + 1] == live[..i] + [live[i]];
  }

  lemma StaysActive(limits: Limits, now: int, live: seq<Member>, rows: Rows)
    requires forall m :: m in live && IdleLongEnough(limits, now, m) && m.id in rows ==> Active(rows[m.id])
    ensures ActiveIds(WithSuspended(rows, IdleIds(limits, now, live))) == ActiveIds(rows)
  {
  }

  lemma ReleasedStep(before: map<string, string>, holders: map<string, string>, dead: seq<Member>, m: Member)
    requires holders == Released(before, IdSet(dead))
    ensures Released(holders, {m.id}) == Released(before, IdSet(dead + [m]))
  {
    assert IdSet(dead + [m]) == IdSet(dead) + {m.id};
  }

  // ----- the exact table -----

  lemma DrainStep(before: Rows, drained: seq<Member>, i: nat)
    requires NoDup(MemberIds(drained)) && Tabled(drained, before) && i < |drained|
    ensures var m, rows := drained[i], WithDrained(before, drained[..i]);
            && m.id in rows && rows[m.id] == m
            && WithDrained(before, drained[..i + 1])
            == if m.jobs == 0 then rows - {m.id} else rows[m.id := m.(state := Draining)]
  {
    var m := drained[i];
    assert drained[..i + 1] == drained[..i] + [m] && m in drained;
    DrainedIds(drained, i);
    JoblessStep(drained[..i], m);
    assert JoblessIds(drained[..i]) <= IdSet(drained[..i]);
  }

  lemma JoblessStep(ms: seq<Member>, m: Member)
    ensures JoblessIds(ms + [m]) == JoblessIds(ms) + if m.jobs == 0 then {m.id} else {}
  {
  }

  lemma AdjustedDown(b: Bank, rows: Rows, suspended: seq<Member>, drained: seq<Member>, count: nat, target: nat,
                     now: int, unused: seq<string>)
    requires count > target
    ensures Adjusted(b, rows, suspended, drained, count, target, now, unused)
         == Shrunk(rows, suspended, count - target, drained)
  {
  }

  lemma AdjustedUp(b: Bank, rows: Rows, suspended: seq<Member>, drained: seq<Member>, count: nat, target: nat,
                   now: int, unused: seq<string>)
    requires count <= target && target - count <= |unused|
    ensures Adjusted(b, rows, suspended, drained, count, target, now, unused)
         == rows + Launched(b, unused[..target - count], now)
  {
  }

  /** After a shrink the active rows are the live members but the drained, and
      the suspended ones that were not recycled. */
  lemma ShrunkActive(rows: Rows, live: seq<Member>, suspended: seq<Member>, excess: nat, drained: seq<Member>)
    requires NoDup(MemberIds(suspended)) && IdSet(live) !! IdSet(suspended) && Tabled(live, rows)
    requires ActiveIds(rows) == IdSet(live) + IdSet(suspended) && forall d :: d in drained ==> d in live
    ensures ActiveIds(Shrunk(rows, suspended, excess, drained))
         == IdSet(live) - IdSet(drained) + IdSet(suspended[Smaller(excess, |suspended|)..])
  {
    var n := Smaller(excess, |suspended|);
    var recycled := rows - IdSet(suspended[..n]);
    IdSplit(suspended, n);
    ActiveWithout(rows, IdSet(suspended[..n]));
    forall m | m in drained ensures m.id in recycled && recycled[m.id] == m && Active(m) {
      assert m.id in IdSet(live);
    }
    DrainedRows(recycled, drained);
    ShrunkSets(IdSet(live), IdSet(suspended[..n]), IdSet(suspended[n..]), IdSet(drained));
    assert IdSet(drained) <= IdSet(live);
  }

  lemma ShrunkSets(live: set<string>, gone: set<string>, left: set<string>, drained: set<string>)
    requires live !! gone && live !! left && gone !! left
    ensures drained <= live ==> (live + (gone + left)) - gone - drained == live - drained + left
  {
  }

  lemma NoneDrained(rows: Rows)
    ensures WithDrained(rows, []) == rows
  {
  }

  lemma DrainedRows(before: Rows, drained: seq<Member>)
    requires Tabled(drained, before)
    ensures var rows := WithDrained(before, drained);
            && ActiveIds(rows) == ActiveIds(before) - IdSet(drained) && rows.Keys <= before.Keys
            && Untouched(before, rows, IdSet(drained))
            && forall d :: d in drained && d.jobs == 0 ==> d.id !in rows
  {
    assert JoblessIds(drained) <= IdSet(drained);
    forall d | d in drained && d.jobs == 0 ensures d.id in JoblessIds(drained) { }
  }

  lemma LaunchStep(b: Bank, before: Rows, ids: seq<string>, i: nat, now: int)
    requires i < |ids|
    ensures (before + Launched(b, ids[..i], now))[ids[i] := NewMember(b, ids[i], now)]
         == before + Launched(b, ids[..i + 1], now)
  {
    assert ids[..i + 1] == ids[..i] + [ids[i]];
  }

  lemma LaunchedRows(b: Bank, before: Rows, ids: seq<string>, now: int)
    requires Elems(ids) !! before.Keys
    ensures var rows := before + Launched(b, ids, now);
            && ActiveIds(rows) == ActiveIds(before) + Elems(ids) && rows.Keys == before.Keys + Elems(ids)
            && forall id :: id in before ==> id in rows && rows[id] == before[id]
  {
    assert forall id :: id in ids <==> id in Elems(ids);
  }

  lemma LeastIncluded(drained: seq<Member>, live: seq<Member>)
    requires LeastDrained(drained, live)
    ensures forall d :: d in drained ==> d in live
  {
    var kept :| Divides(drained, kept, live);
    forall d | d in drained ensures d in live {
      assert d in multiset(drained) + multiset(kept);
    }
  }

  /** No busy member is lost on the way to the target. */
  lemma BusyAdjusted(b: Bank, rows: Rows, suspended: seq<Member>, drained: seq<Member>, count: nat, target: nat,
                     now: int, unused: seq<string>)
    requires target - count <= |unused| && Elems(unused) !! rows.Keys && Tabled(drained, rows)
    requires count <= target ==> drained == []
    ensures BusyKept(rows, Adjusted(b, rows, suspended, drained, count, target, now, unused), suspended, drained)
  {
    if count > target {
      var n := Smaller(count - target, |suspended|);
      assert forall m :: m in suspended[..n] ==> m in suspended;
      assert IdSet(suspended[..n]) <= IdSet(suspended);
    } else {
      assert forall id :: id in unused[..target - count] ==> id in Elems(unused);
    }
  }

  lemma BusyNotSuspended(before: Rows, rows: Rows, waiting: seq<Member>, drained: seq<Member>, ids: set<string>)
    requires BusyKept(before, rows, waiting, drained)
    requires forall id :: id in ids && id in before ==> before[id].jobs == 0
    ensures BusyKept(before, WithSuspended(rows, ids), waiting, drained)
  {
  }

  /** While members are launched, those that wait keep their rows. */
  lemma WaitingKept(b: Bank, rows: Rows, waiting: seq<Member>, count: nat, target: nat, now: int, unused: seq<string>,
                    ids: set<string>)
    requires count <= target && target - count <= |unused| && Elems(unused) !! rows.Keys
    requires Tabled(waiting, rows) && IdSet(waiting) !! ids
    ensures var adjusted := Adjusted(b, rows, waiting, [], count, target, now, unused);
            Tabled(waiting, adjusted) && Tabled(waiting, WithSuspended(adjusted, ids))
  {
    assert forall id :: id in unused[..target - count] ==> id in Elems(unused);
    assert forall m :: m in waiting ==> m.id in IdSet(waiting);
  }

  /** No job ends up with a member that has no row. */
  lemma StaysAttended(limits: Limits, now: int, members: seq<Member>, holders: map<string, string>, before: Rows,
                      rows: Rows, drained: seq<Member>)
    requires ListsRows(members, before) && Attended(holders, before)
    requires BusyKept(before - IdSet(GoneOf(limits, now, members)), rows, WaitingOf(limits, now, members), drained)
    ensures Attended(Released(holders, IdSet(DeadOf(limits, now, members))), rows)
  {
    var left := Released(holders, IdSet(DeadOf(limits, now, members)));
    forall j | j in left
      ensures left[j] in rows && rows[left[j]].jobs > 0 && rows[left[j]].state != Suspended
    {
      var m := before[left[j]];
      assert m in members && m.id == left[j];
      assert Dies(limits, now, m) ==> m in DeadOf(limits, now, members);
      RowOnly(members, before, m.id, GoneOf(limits, now, members));
      RowOnly(members, before, m.id, WaitingOf(limits, now, members));
    }
  }

  /** The idle rule changes no id and no count. */
  lemma SameSettled(adjusted: Rows, rows: Rows, live: seq<Member>, suspended: seq<Member>, drained: seq<Member>,
                    target: int)
    requires Settles(adjusted, live, suspended, drained, target)
    requires rows.Keys == adjusted.Keys && ActiveIds(rows) == ActiveIds(adjusted)
    ensures Settles(rows, live, suspended, drained, target)
  {
  }

  lemma KeptBusy(b: Bank, limits: Limits, now: int, rows: Rows, live: seq<Member>, suspended: seq<Member>,
                 drained: seq<Member>, target: nat, unused: seq<string>, queue: Option<int>)
    requires target - |live| - |suspended| <= |unused| && Elems(unused) !! rows.Keys && Tabled(live, rows)
    requires (forall d :: d in drained ==> d in live) && (|live| + |suspended| <= target ==> drained == [])
    ensures var adjusted := Adjusted(b, rows, suspended, drained, |live| + |suspended|, target, now, unused);
            BusyKept(rows, WithIdleRule(limits, now, adjusted, live, queue), suspended, drained)
  {
    BusyAdjusted(b, rows, suspended, drained, |live| + |suspended|, target, now, unused);
    JoblessIdle(limits, now, live, rows);
    BusyNotSuspended(rows, Adjusted(b, rows, suspended, drained, |live| + |suspended|, target, now, unused), suspended,
                     drained, IdleIds(limits, now, live));
  }

  lemma KeptWaiting(b: Bank, limits: Limits, now: int, rows: Rows, live: seq<Member>, suspended: seq<Member>,
                    target: nat, unused: seq<string>, queue: Option<int>)
    requires |live| + |suspended| <= target && target - |live| - |suspended| <= |unused|
    requires Elems(unused) !! rows.Keys && Tabled(suspended, rows) && IdSet(live) !! IdSet(suspended)
    ensures var adjusted := Adjusted(b, rows, suspended, [], |live| + |suspended|, target, now, unused);
            Tabled(suspended, WithIdleRule(limits, now, adjusted, live, queue))
  {
    assert IdleIds(limits, now, live) <= IdSet(live);
    WaitingKept(b, rows, suspended, |live| + |suspended|, target, now, unused, IdleIds(limits, now, live));
  }

  lemma JoblessIdle(limits: Limits, now: int, live: seq<Member>, rows: Rows)
    requires Tabled(live, rows)
    ensures forall id :: id in IdleIds(limits, now, live) && id in rows ==> rows[id].jobs == 0
  {
  }

  lemma WaitingTabled(limits: Limits, now: int, members: seq<Member>, before: Rows)
    requires ListsRows(members, before)
    ensures Tabled(WaitingOf(limits, now, members), before - IdSet(GoneOf(limits, now, members)))
  {
    forall m | m in WaitingOf(limits, now, members) ensures m.id !in IdSet(GoneOf(limits, now, members)) {
      RowOnly(members, before, m.id, GoneOf(limits, now, members));
    }
  }

  /** A listed part of the table names a row only by that row. */
  lemma RowOnly(members: seq<Member>, rows: Rows, id: string, part: seq<Member>)
    requires ListsRows(members, rows) && id in rows && forall m :: m in part ==> m in members
    ensures id in IdSet(part) ==> rows[id] in part
  {
  }

  lemma NothingDrained(live: seq<Member>)
    ensures LeastDrained([], live) && IdSet([]) == {}
  {
    assert Divides([], live, live);
  }

  lemma AllLive(live: set<string>, left: set<string>, active: set<string>)
    requires active == live + left
    ensures {} == live - active && active == live - {} + left
  {
  }

  lemma AllRecycled(live: set<string>, drained: set<string>, active: set<string>)
    requires drained <= live && active == live - drained
    ensures drained == live - active && active == live - drained + {}
  {
  }

  lemma ActiveWithout(rows: Rows, ids: set<string>)
    ensures ActiveIds(rows - ids) == ActiveIds(rows) - ids
  {
  }

  lemma IdSplit(ms: seq<Member>, n: nat)
    requires n <= |ms| && NoDup(MemberIds(ms))
    ensures IdSet(ms) == IdSet(ms[..n]) + IdSet(ms[n..]) && IdSet(ms[..n]) !! IdSet(ms[n..])
    ensures |IdSet(ms[n..])| == |ms| - n
  {
    assert ms == ms[..n] + ms[n..];
    var ids := MemberIds(ms);
    assert MemberIds(ms[n..]) == ids[n..];
    forall a, z | a in ms[..n] && z in ms[n..] ensures a.id != z.id {
      var i :| 0 <= i < n && ms[i] == a;
      var j :| n <= j < |ms| && ms[j] == z;
      assert ids[i] != ids[j];
    }
    IdCount(ms[n..]);
  }

  lemma RecycledCount(live: seq<Member>, suspended: seq<Member>, n: nat, before: Rows, rows: Rows)
    requires n <= |suspended| && NoDup(MemberIds(live)) && NoDup(MemberIds(suspended))
    requires IdSet(live) !! IdSet(suspended)
    requires ActiveIds(before) == IdSet(live) + IdSet(suspended) && rows == before - IdSet(suspended[..n])
    ensures ActiveIds(rows) == IdSet(live) + IdSet(suspended[n..]) && IdSet(live) !! IdSet(suspended[n..])
    ensures |ActiveIds(rows)| == |live| + |suspended| - n
  {
    ActiveWithout(before, IdSet(suspended[..n]));
    IdSplit(suspended, n);
    IdCount(live);
    PartCount(IdSet(live), IdSet(suspended), IdSet(suspended[..n]), IdSet(suspended[n..]));
  }

  lemma RecycledRows(live: seq<Member>, suspended: seq<Member>, n: nat, before: Rows, rows: Rows)
    requires n <= |suspended| && IdSet(live) !! IdSet(suspended) && Tabled(live, before)
    requires rows == before - IdSet(suspended[..n])
    ensures Tabled(live, rows) && IdleUntouched(live, rows) && rows.Keys <= before.Keys
    ensures n == |suspended| ==> IdSet(suspended) !! rows.Keys && IdSet(suspended[n..]) == {}
  {
    assert forall m :: m in suspended[..n] ==> m in suspended;
    assert forall m :: m in live ==> m.id in IdSet(live);
    assert n == |suspended| ==> suspended[..n] == suspended;
  }

  lemma PartCount(a: set<string>, all: set<string>, gone: set<string>, rest: set<string>)
    requires a !! all && all == gone + rest && gone !! rest
    ensures (a + all) - gone == a + rest && |a + rest| == |a| + |rest|
  {
  }

  lemma DrainedCount(live: seq<Member>, drained: seq<Member>, kept: seq<Member>)
    requires multiset(drained) + multiset(kept) == multiset(live) && NoDup(MemberIds(live))
    ensures IdSet(drained) <= IdSet(live)
    ensures |IdSet(live) - IdSet(drained)| == |live| - |drained|
    ensures forall m :: m in live && m.id in IdSet(drained) ==> m in drained
  {
    var all := drained + kept;
    assert multiset(all) == multiset(live);
    OrderedIds(live, all);
    assert MemberIds(drained) == MemberIds(all)[..|drained|];
    IdCount(live);
    IdCount(drained);
    assert forall m :: m in drained ==> m in all;
    forall m | m in live && m.id in IdSet(drained) ensures m in drained {
      var d :| d in drained && d.id == m.id;
      SameIdSame(live, m, d);
    }
  }

  lemma SameIdSame(ms: seq<Member>, a: Member, z: Member)
    requires NoDup(MemberIds(ms)) && a in ms && z in ms && a.id == z.id
    ensures a == z
  {
    var i :| 0 <= i < |ms| && ms[i] == a;
    var j :| 0 <= j < |ms| && ms[j] == z;
    assert MemberIds(ms)[i] == MemberIds(ms)[j];
  }

  /** The live and suspended lists after the first pass. */
  lemma SortedOut(limits: Limits, now: int, members: seq<Member>, before: Rows, rows: Rows)
    requires ListsRows(members, before) && rows == before - IdSet(GoneOf(limits, now, members))
    ensures var live, suspended := LiveOf(limits, now, members), WaitingOf(limits, now, members);
            && NoDup(MemberIds(live)) && NoDup(MemberIds(suspended)) && IdSet(live) !! IdSet(suspended)
            && ActiveIds(rows) == IdSet(live) + IdSet(suspended)
            && |ActiveIds(rows)| == |live| + |suspended|
            && Tabled(live, rows)
  {
    FirstPass(limits, now, members, before);
    FilterUnique(m => Lives(limits, now, m), members);
    FilterUnique(m => Waits(limits, now, m), members);
    var live, suspended := LiveOf(limits, now, members), WaitingOf(limits, now, members);
    IdCount(live);
    IdCount(suspended);
    forall m | m in live ensures m.id in rows && rows[m.id] == m && Active(m) {
      assert m.id in IdSet(live);
    }
  }

  lemma GoneStep(before: Rows, rows: Rows, gone: seq<Member>, m: Member)
    requires rows == before - IdSet(gone)
    ensures rows - {m.id} == before - IdSet(gone + [m])
  {
    assert IdSet(gone + [m]) == IdSet(gone) + {m.id};
  }

  lemma SplitSorted(ordered: seq<Member>, n: nat)
    requires n <= |ordered| && Sorted(LessDrainable, ordered)
    ensures forall d, k :: d in ordered[..n] && k in ordered[n..] ==> !LessDrainable(k, d)
  {
    forall d, k | d in ordered[..n] && k in ordered[n..] ensures !LessDrainable(k, d) {
      var i :| 0 <= i < n && ordered[i] == d;
      var j :| n <= j < |ordered| && ordered[j] == k;
    }
  }

  /** Sorting keeps the ids distinct and the members known. */
  lemma OrderedIds(live: seq<Member>, ordered: seq<Member>)
    requires multiset(live) == multiset(ordered) && NoDup(MemberIds(live))
    ensures NoDup(MemberIds(ordered)) && forall m :: m in ordered <==> m in live
  {
    forall m ensures m in ordered <==> m in live {
      InSame(live, ordered, m);
    }
    forall i, j | 0 <= i < j < |live| ensures live[i] != live[j] {
      assert MemberIds(live)[i] != MemberIds(live)[j];
    }
    NoDupPermuted(live, ordered);
    forall i, j | 0 <= i < j < |ordered| ensures ordered[i].id != ordered[j].id {
      assert ordered[i] in ordered && ordered[j] in ordered;
      var k :| 0 <= k < |live| && live[k] == ordered[i];
      var l :| 0 <= l < |live| && live[l] == ordered[j];
      assert k != l;
      assert MemberIds(live)[k] != MemberIds(live)[l];
    }
  }

  lemma DrainedIds(drained: seq<Member>, i: nat)
    requires NoDup(MemberIds(drained)) && i < |drained|
    ensures drained[i].id !in IdSet(drained[..i])
    ensures IdSet(drained[..i] + [drained[i]]) == IdSet(drained[..i]) + {drained[i].id}
  {
    forall m | m in drained[..i] ensures m.id != drained[i].id {
      var j :| 0 <= j < i && drained[j] == m;
      assert MemberIds(drained)[j] != MemberIds(drained)[i];
    }
  }
}
