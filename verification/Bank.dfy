/** The bank reconciler (internal/engine/bank/reconciler.go): mark the dead,
drain the excess, launch the missing, then apply the idle rule.

Times are numbers of one clock.  Launches, stops, removals and queue reads
succeed, and so does a state write to a row that exists; a state write to a
row that is gone fails. */
module Bank {
  import opened Wrappers
  import opened Factors
  import opened Order
  import opened Lists

  datatype MemberState = Launching | NeedsSignIn | Idle | Busy | Draining | Dead | Suspended
  datatype Member = Member(id: string, state: MemberState, jobs: nat, created: int, updated: int,
                           heartbeat: Option<int>, idleSince: Option<int>)
  datatype Bank = Bank(desired: nat, jobCap: int, ephemeral: bool, subscription: bool)
  datatype Limits = Limits(heartbeat: int, launch: int, idle: int, recycle: int)

  // ----- how many members to run (reconciler.go:414-442) -----

  function RoundUp(waiting: int, jobCap: int): int
    requires waiting >= 0
  {
    var cap := if jobCap < 1 then 1 else jobCap;
    (waiting + cap - 1) / cap
  }

  /** Enough members for the waiting jobs and no more, up to the limit. */
  function SpillMembers(waiting: int, jobCap: int, limit: int): (n: nat)
    ensures waiting <= 0 ==> n == 0
    ensures waiting > 0 ==> 1 <= n <= (if limit > 1 then limit else 1)
    ensures waiting > 0 && n < limit ==> n * (if jobCap < 1 then 1 else jobCap) >= waiting
    ensures n > 0 ==> (n - 1) * (if jobCap < 1 then 1 else jobCap) < waiting
  {
    if waiting <= 0 then 0
    else
      var cap := if jobCap < 1 then 1 else jobCap;
      var top := if limit > 1 then limit else 1;
      var n := RoundUp(waiting, jobCap);
      RoundUpExact(waiting, cap);
      if n > top then
        FewerCarryLess(top - 1, n - 1, cap);
        top
      else n
  }

  lemma RoundUpExact(waiting: int, cap: int)
    requires waiting > 0 && cap >= 1
    ensures var n := (waiting + cap - 1) / cap; n >= 1 && n * cap >= waiting && (n - 1) * cap < waiting
  {
    var n, rest := (waiting + cap - 1) / cap, (waiting + cap - 1) % cap;
    assert n * cap + rest == waiting + cap - 1 && 0 <= rest < cap;
    assert (n - 1) * cap == n * cap - cap;
    if n < 1 {
      FewerCarryLess(n, 0, cap);
    }
  }

  lemma {:induction false} FewerCarryLess(a: int, b: int, cap: int)
    requires a <= b && cap >= 1
    ensures a * cap <= b * cap
    decreases b - a
  {
    if a < b {
      FewerCarryLess(a, b - 1, cap);
      assert b * cap == (b - 1) * cap + cap;
    }
  }

  function TargetCount(b: Bank, waiting: int): nat {
    if !b.ephemeral || b.subscription then b.desired else b.desired + SpillMembers(waiting, b.jobCap, b.desired)
  }

  /** The count to reach with `running` members now: a queue that does not answer
      neither drains nor launches beyond the desired count. */
  function Target(b: Bank, queue: Option<int>, running: nat): nat {
    if !b.ephemeral || b.subscription then b.desired
    else if queue.Some? then TargetCount(b, queue.value)
    else if running > b.desired then running
    else b.desired
  }

  // ----- which members go first (reconciler.go:590-606) -----

  predicate LessDrainable(a: Member, b: Member) {
    if a.jobs != b.jobs then a.jobs < b.jobs else a.created < b.created
  }

  /** Element `j` moves left past everything it is less drainable than. */
  function SiftDown(s: seq<Member>, j: nat): (r: seq<Member>)
    requires j < |s|
    ensures |r| == |s| && r[j + 1..] == s[j + 1..]
    decreases j
  {
    if j > 0 && LessDrainable(s[j], s[j - 1]) then
      var t := s[j := s[j - 1]][j - 1 := s[j]];
      var r := SiftDown(t, j - 1);
      assert r[j + 1..] == r[j..][1..] && t[j + 1..] == t[j..][1..];
      assert t[j + 1..] == s[j + 1..];
      r
    else s
  }

  lemma SwapSame(s: seq<Member>, j: nat)
    requires 0 < j < |s|
    ensures multiset(s[j := s[j - 1]][j - 1 := s[j]]) == multiset(s)
    ensures multiset(s[j := s[j - 1]][j - 1 := s[j]][..j + 1]) == multiset(s[..j + 1])
  {
    var t := s[j := s[j - 1]][j - 1 := s[j]];
    assert s == s[..j - 1] + [s[j - 1], s[j]] + s[j + 1..];
    assert t == s[..j - 1] + [s[j], s[j - 1]] + s[j + 1..];
    assert s[..j + 1] == s[..j - 1] + [s[j - 1], s[j]] && t[..j + 1] == s[..j - 1] + [s[j], s[j - 1]];
  }

  lemma {:induction false} SiftSame(s: seq<Member>, j: nat)
    requires j < |s|
    ensures multiset(SiftDown(s, j)) == multiset(s)
    ensures multiset(SiftDown(s, j)[..j + 1]) == multiset(s[..j + 1])
    decreases j
  {
    if j > 0 && LessDrainable(s[j], s[j - 1]) {
      var t := s[j := s[j - 1]][j - 1 := s[j]];
      SwapSame(s, j);
      SiftSame(t, j - 1);
      var r := SiftDown(t, j - 1);
      assert r[j..] == t[j..] && r[j] == r[j..][0] && t[j] == t[j..][0];
      assert r[..j + 1] == r[..j] + [r[j]] && t[..j + 1] == t[..j] + [t[j]];
    }
  }

  lemma {:induction false} SiftSorts(s: seq<Member>, j: nat)
    requires j < |s| && Sorted(LessDrainable, s[..j])
    ensures Sorted(LessDrainable, SiftDown(s, j)[..j + 1])
    decreases j
  {
    if j > 0 && LessDrainable(s[j], s[j - 1]) {
      var t := s[j := s[j - 1]][j - 1 := s[j]];
      var r := SiftDown(t, j - 1);
      assert t[..j - 1] == s[..j][..j - 1];
      SiftSorts(t, j - 1);
      SiftSame(t, j - 1);
      assert r[j..] == t[j..] && r[j] == r[j..][0] && t[j] == t[j..][0];
      forall m | m in r[..j] ensures !LessDrainable(r[j], m) {
        InSame(r[..j], t[..j], m);
        var k :| 0 <= k < j && t[k] == m;
        assert k < j - 1 ==> m == s[..j][k] && s[..j][j - 1] == s[j - 1];
      }
      var top := r[..j + 1];
      forall p, q | 0 <= p < q < |top| ensures !LessDrainable(top[q], top[p]) {
        if q < j {
          assert r[..j][q] == r[q] && r[..j][p] == r[p];
        } else {
          assert r[p] in r[..j];
        }
      }
    } else {
      var top := s[..j + 1];
      forall p, q | 0 <= p < q < |top| ensures !LessDrainable(top[q], top[p]) {
        if q < j {
          assert s[..j][q] == s[q] && s[..j][p] == s[p];
        } else if p < j - 1 {
          assert s[..j][j - 1] == s[j - 1] && s[..j][p] == s[p];
        }
      }
    }
  }

  /** Fewest jobs first, then the oldest, by insertion in place. */
  method SortInPlace(a: array<Member>)
    modifies a
    ensures multiset(a[..]) == multiset(old(a[..])) && Sorted(LessDrainable, a[..])
  {
    var i := 1;
    while i < a.Length
      invariant 1 <= i && (i <= a.Length || a.Length == 0)
      invariant multiset(a[..]) == multiset(old(a[..]))
      invariant i <= a.Length ==> Sorted(LessDrainable, a[..i])
    {
      ghost var before := a[..];
      SiftSame(before, i);
      assert before[..i] == a[..i];
      SiftSorts(before, i);
      Sift(a, i);
      assert a[..][..i + 1] == a[..i + 1];
      i := i + 1;
    }
    assert a.Length > 0 ==> a[..i] == a[..];
  }

  method Sift(a: array<Member>, i: nat)
    requires i < a.Length
    modifies a
    ensures a[..] == SiftDown(old(a[..]), i)
  {
    var j := i;
    while j > 0 && LessDrainable(a[j], a[j - 1])
      invariant 0 <= j <= i && SiftDown(a[..], j) == SiftDown(old(a[..]), i)
    {
      ghost var before := a[..];
      a[j], a[j - 1] := a[j - 1], a[j];
      assert a[..] == before[j := before[j - 1]][j - 1 := before[j]];
      j := j - 1;
    }
  }

  method DrainOrder(live: seq<Member>) returns (ordered: seq<Member>)
    ensures multiset(ordered) == multiset(live) && |ordered| == |live| && Sorted(LessDrainable, ordered)
  {
    var a := new Member[|live|](i requires 0 <= i < |live| => live[i]);
    assert a[..] == live;
    SortInPlace(a);
    ordered := a[..];
  }

  // ----- what a pass makes of each member (reconciler.go:246-285) -----

  predicate IsDead(limits: Limits, now: int, m: Member) {
    || m.state == Dead
    || (if m.heartbeat.None? then now - m.created > limits.launch else now - m.heartbeat.value > limits.heartbeat)
  }

  predicate Waits(limits: Limits, now: int, m: Member) {
    m.state == Suspended && now - m.updated <= limits.recycle
  }

  predicate Lives(limits: Limits, now: int, m: Member) {
    m.state != Suspended && m.state != Draining && !IsDead(limits, now, m)
  }

  /** Removed at once: recycled, dead, or drained with no job left. */
  predicate Goes(limits: Limits, now: int, m: Member) {
    if m.state == Suspended then now - m.updated > limits.recycle
    else IsDead(limits, now, m) || (m.state == Draining && m.jobs == 0)
  }

  predicate IdleLongEnough(limits: Limits, now: int, m: Member) {
    m.state == Idle && m.jobs == 0 && m.idleSince.Some? && now - m.idleSince.value >= limits.idle
  }

  predicate Active(m: Member) {
    m.state != Dead && m.state != Draining
  }

  type Rows = map<string, Member>

  function ActiveIds(rows: Rows): set<string> {
    set id | id in rows && Active(rows[id])
  }

  function MemberIds(ms: seq<Member>): (ids: seq<string>)
    ensures |ids| == |ms| && forall i :: 0 <= i < |ids| ==> ids[i] == ms[i].id
  {
    seq(|ms|, i requires 0 <= i < |ms| => ms[i].id)
  }

  function IdSet(ms: seq<Member>): set<string> {
    set m | m in ms :: m.id
  }

  /** `members` lists the rows of the table, each once. */
  ghost predicate ListsRows(members: seq<Member>, rows: Rows) {
    && NoDup(MemberIds(members))
    && (forall m :: m in members ==> m.id in rows && rows[m.id] == m)
    && (forall id :: id in rows ==> rows[id] in members && rows[id].id == id)
  }

  function LiveOf(limits: Limits, now: int, members: seq<Member>): seq<Member> {
    Filter(m => Lives(limits, now, m), members)
  }

  function WaitingOf(limits: Limits, now: int, members: seq<Member>): seq<Member> {
    Filter(m => Waits(limits, now, m), members)
  }

  function GoneOf(limits: Limits, now: int, members: seq<Member>): seq<Member> {
    Filter(m => Goes(limits, now, m), members)
  }

  lemma {:induction false} FilterUnique(p: Member -> bool, ms: seq<Member>)
    requires NoDup(MemberIds(ms))
    ensures NoDup(MemberIds(Filter(p, ms)))
  {
    if ms != [] {
      var rest := ms[1..];
      assert MemberIds(ms) == [ms[0].id] + MemberIds(rest);
      NoDupTail(MemberIds(ms));
      FilterUnique(p, rest);
      var kept := Filter(p, rest);
      forall i | 0 <= i < |kept| ensures kept[i].id != ms[0].id {
        assert kept[i] in kept;
        var j :| 0 <= j < |rest| && rest[j] == kept[i];
        assert MemberIds(rest)[j] == kept[i].id;
      }
    }
  }

  lemma IdCount(ms: seq<Member>)
    requires NoDup(MemberIds(ms))
    ensures |IdSet(ms)| == |ms|
  {
    ElemsCount(MemberIds(ms));
    IdSetIs(ms);
  }

  lemma IdSetIs(ms: seq<Member>)
    ensures IdSet(ms) == Elems(MemberIds(ms))
  {
    forall m | m in ms ensures m.id in Elems(MemberIds(ms)) {
      var i :| 0 <= i < |ms| && ms[i] == m;
      assert MemberIds(ms)[i] == m.id;
    }
    forall id | id in MemberIds(ms) ensures id in IdSet(ms) {
      var i :| 0 <= i < |ms| && MemberIds(ms)[i] == id;
      assert ms[i] in ms;
    }
  }

  /** After the first pass the active rows are the live and the suspended. */
  lemma FirstPass(limits: Limits, now: int, members: seq<Member>, rows: Rows)
    requires ListsRows(members, rows)
    ensures ActiveIds(rows - IdSet(GoneOf(limits, now, members)))
         == IdSet(LiveOf(limits, now, members)) + IdSet(WaitingOf(limits, now, members))
    ensures IdSet(LiveOf(limits, now, members)) !! IdSet(WaitingOf(limits, now, members))
  {
    var gone, live, waiting := GoneOf(limits, now, members), LiveOf(limits, now, members),
        WaitingOf(limits, now, members);
    forall id | id in rows ensures id in IdSet(gone) <==> Goes(limits, now, rows[id]) {
      forall m | m in gone && m.id == id ensures m == rows[id] { }
    }
    forall id | id in rows
      ensures id in IdSet(live) <==> Lives(limits, now, rows[id])
      ensures id in IdSet(waiting) <==> Waits(limits, now, rows[id])
    {
      forall m | m in members && m.id == id ensures m == rows[id] { }
    }
    assert forall m :: m in live || m in waiting ==> m.id in rows;
  }
}
