/** The engine and its store as the objects that the source updates in place
(internal/engine/brain/engine.go:224-376, 413-476 and
internal/infra/datapool/timelinestore.go).  Each method is proved against the
function of `EventLog` that it performs; `faults` says how the n-th call of
`Apply` fares, so a proof for every `faults` covers every pattern of errors. */
module EngineLoop {
  import opened Wrappers
  import opened EventLog

  const MAX_SWEEPS: nat := 1024

  // ----- a tick -----

  /** Take turns in order until one leaves a state that does not serve.  A turn
      says how many events it applied, and `k` counts the calls so far. */
  function Each<S, F>(turn: (S, F, nat) -> (S, nat), serving: S -> bool, s: S, fs: seq<F>, k: nat): (S, nat)
    decreases |fs|
  {
    if fs == [] || !serving(s) then (s, 0)
    else
      var (t, n) := turn(s, fs[0], k);
      var (u, m) := Each(turn, serving, t, fs[1..], k + n);
      (u, n + m)
  }

  /** Sweep until a sweep applies nothing, at most `left` times; only the first
      finds queued events. */
  function Repeat<S, E>(sweep: (S, seq<E>, nat) -> (S, nat), serving: S -> bool, s: S, evs: seq<E>, k: nat, left: nat)
    : (S, nat)
    decreases left
  {
    if left == 0 || !serving(s) then (s, 0)
    else
      var (t, n) := sweep(s, evs, k);
      if n == 0 then (t, 0)
      else var (u, m) := Repeat(sweep, serving, t, [], k + n, left - 1); (u, n + m)
  }

  lemma RepeatStep<S, E>(sweep: (S, seq<E>, nat) -> (S, nat), serving: S -> bool, s: S, evs: seq<E>, k: nat, left: nat,
                         t: S, n: nat, queued: seq<E>, calls: nat)
    requires left > 0 && serving(s) && (t, n) == sweep(s, evs, k)
    requires serving(t) ==> queued == [] && calls == k + n
    ensures Repeat(sweep, serving, s, evs, k, left)
         == if n == 0 then (t, 0)
            else var (u, m) := Repeat(sweep, serving, t, queued, calls, left - 1); (u, m + n)
  {
  }

  /** One system on the World as it finds it. */
  function SystemTurn<W, E(==)>(brain: Brain<W, E>, faults: nat -> Faults)
    : (System<W, E>, W -> seq<E>, nat) -> (System<W, E>, nat)
  {
    (t: System<W, E>, f: W -> seq<E>, i: nat) =>
      if Serving(t) then ApplyAll(brain, t, f(t.engine.value.world), faults, i) else (t, 0)
  }

  function IsServing<W, E>(): System<W, E> -> bool {
    (t: System<W, E>) => Serving(t)
  }

  function RunEach<W, E(==)>(brain: Brain<W, E>, s: System<W, E>, systems: seq<W -> seq<E>>, faults: nat -> Faults,
                             k: nat): (System<W, E>, nat)
  {
    Each(SystemTurn(brain, faults), IsServing(), s, systems, k)
  }

  /** The queued events, then each turn. */
  function Then<S, F, E>(apply: (S, seq<E>, nat) -> (S, nat), turn: (S, F, nat) -> (S, nat), serving: S -> bool, s: S,
                         evs: seq<E>, fs: seq<F>, k: nat): (S, nat)
  {
    var (t, n) := apply(s, evs, k);
    var (u, m) := Each(turn, serving, t, fs, k + n);
    (u, n + m)
  }

  function ApplyTurn<W, E(==)>(brain: Brain<W, E>, faults: nat -> Faults)
    : (System<W, E>, seq<E>, nat) -> (System<W, E>, nat)
  {
    (t: System<W, E>, evs: seq<E>, i: nat) => ApplyAll(brain, t, evs, faults, i)
  }

  /** The queued events, then the systems. */
  function Swept<W, E(==)>(brain: Brain<W, E>, s: System<W, E>, evs: seq<E>, systems: seq<W -> seq<E>>,
                           faults: nat -> Faults, k: nat): (System<W, E>, nat)
  {
    Then(ApplyTurn(brain, faults), SystemTurn(brain, faults), IsServing(), s, evs, systems, k)
  }

  function SweepTurn<W, E(==)>(brain: Brain<W, E>, systems: seq<W -> seq<E>>, faults: nat -> Faults)
    : (System<W, E>, seq<E>, nat) -> (System<W, E>, nat)
  {
    (t: System<W, E>, evs: seq<E>, i: nat) => Swept(brain, t, evs, systems, faults, i)
  }

  function Ticked<W, E(==)>(brain: Brain<W, E>, s: System<W, E>, evs: seq<E>, systems: seq<W -> seq<E>>,
                            faults: nat -> Faults, k: nat): (System<W, E>, nat)
  {
    Repeat(SweepTurn(brain, systems, faults), IsServing(), s, evs, k, MAX_SWEEPS)
  }

  // ----- what a tick does to the log -----

  /** From `s` to `t` the log grew by the `n` events that were applied, and by one
      more at most if the engine stopped. */
  ghost predicate Grew<S, E>(serving: S -> bool, good: S -> bool, log: S -> seq<E>, s: S, t: S, n: nat) {
    good(s) ==>
      && good(t) && log(s) <= log(t)
      && (serving(t) ==> |log(t)| == |log(s)| + n)
      && |log(t)| <= |log(s)| + n + 1
  }

  ghost predicate Growing<S(!new), F(!new), E>(turn: (S, F, nat) -> (S, nat), serving: S -> bool, good: S -> bool,
                                               log: S -> seq<E>)
  {
    forall s, f, k: nat :: serving(s) ==> var (t, n) := turn(s, f, k); Grew(serving, good, log, s, t, n)
  }

  lemma {:induction false} EachGrew<S(!new), F(!new), E>(
    turn: (S, F, nat) -> (S, nat), serving: S -> bool, good: S -> bool, log: S -> seq<E>, s: S, fs: seq<F>, k: nat)
    requires Growing(turn, serving, good, log)
    ensures var (t, n) := Each(turn, serving, s, fs, k); Grew(serving, good, log, s, t, n)
    decreases |fs|
  {
    if fs != [] && serving(s) {
      var (t, n) := turn(s, fs[0], k);
      EachGrew(turn, serving, good, log, t, fs[1..], k + n);
    }
  }

  lemma {:induction false} RepeatGrew<S(!new), E(!new)>(
    sweep: (S, seq<E>, nat) -> (S, nat), serving: S -> bool, good: S -> bool, log: S -> seq<E>, s: S, evs: seq<E>,
    k: nat, left: nat)
    requires Growing(sweep, serving, good, log)
    ensures var (t, n) := Repeat(sweep, serving, s, evs, k, left); Grew(serving, good, log, s, t, n)
    decreases left
  {
    if left > 0 && serving(s) {
      var (t, n) := sweep(s, evs, k);
      if n > 0 {
        RepeatGrew(sweep, serving, good, log, t, [], k + n, left - 1);
      }
    }
  }

  /** Turns that apply nothing and leave the engine serving were all idle. */
  lemma {:induction false} EachIdle<S(!new), F(!new)>(turn: (S, F, nat) -> (S, nat), serving: S -> bool, s: S,
                                                      fs: seq<F>, k: nat, idle: (S, F) -> bool)
    requires serving(s)
    requires forall r, f, i: nat :: serving(r) ==>
               var (t, n) := turn(r, f, i); serving(t) && n == 0 ==> t == r && idle(r, f)
    ensures var (t, n) := Each(turn, serving, s, fs, k);
            serving(t) && n == 0 ==> t == s && forall f :: f in fs ==> idle(s, f)
    decreases |fs|
  {
    if fs != [] {
      var (t, n) := turn(s, fs[0], k);
      if serving(t) {
        EachIdle(turn, serving, t, fs[1..], k + n, idle);
      }
    }
  }

  lemma SeriesGrew<S(!new), E(!new)>(step: (S, E, nat) -> S, serving: S -> bool, good: S -> bool, log: S -> seq<E>,
                                     s: S, evs: seq<E>, k: nat)
    requires Logging(step, serving, good, log) && serving(s)
    ensures var (t, n) := Series(step, serving, s, evs, k); Grew(serving, good, log, s, t, n)
  {
    if good(s) {
      SeriesLogged(step, serving, good, log, s, evs, k);
    }
  }

  /** The engine's log grew by `n` events. */
  ghost predicate LogGrew<W(!new), E(!new)>(brain: Brain<W, E>, s: System<W, E>, t: System<W, E>, n: nat) {
    Grew(IsServing(), (r: System<W, E>) => Inv(brain, r), (r: System<W, E>) => LoadHistory(r.store), s, t, n)
  }

  lemma ApplyAllGrew<W(!new), E(!new)>(brain: Brain<W, E>, s: System<W, E>, evs: seq<E>, faults: nat -> Faults, k: nat)
    requires Serving(s)
    ensures var (t, n) := ApplyAll(brain, s, evs, faults, k); LogGrew(brain, s, t, n)
  {
    ApplyLogs(brain, faults);
    SeriesGrew((t: System<W, E>, ev: E, i: nat) => if Serving(t) then Apply(brain, t, ev, faults(i)) else t,
               (t: System<W, E>) => Serving(t), (t: System<W, E>) => Inv(brain, t),
               (t: System<W, E>) => LoadHistory(t.store), s, evs, k);
  }

  lemma SystemsGrow<W(!new), E(!new)>(brain: Brain<W, E>, faults: nat -> Faults)
    ensures Growing(SystemTurn(brain, faults), IsServing(), (r: System<W, E>) => Inv(brain, r),
                    (r: System<W, E>) => LoadHistory(r.store))
    ensures Growing(ApplyTurn(brain, faults), IsServing(), (r: System<W, E>) => Inv(brain, r),
                    (r: System<W, E>) => LoadHistory(r.store))
  {
    var good, log := (r: System<W, E>) => Inv(brain, r), (r: System<W, E>) => LoadHistory(r.store);
    forall r: System<W, E>, f: W -> seq<E>, i: nat | Serving(r)
      ensures var (t, n) := SystemTurn(brain, faults)(r, f, i); Grew(IsServing(), good, log, r, t, n)
    {
      ApplyAllGrew(brain, r, f(r.engine.value.world), faults, i);
    }
    forall r: System<W, E>, evs: seq<E>, i: nat | Serving(r)
      ensures var (t, n) := ApplyTurn(brain, faults)(r, evs, i); Grew(IsServing(), good, log, r, t, n)
    {
      ApplyAllGrew(brain, r, evs, faults, i);
    }
  }

  lemma RunEachGrew<W(!new), E(!new)>(brain: Brain<W, E>, s: System<W, E>, systems: seq<W -> seq<E>>,
                                      faults: nat -> Faults, k: nat)
    ensures var (t, n) := RunEach(brain, s, systems, faults, k); LogGrew(brain, s, t, n)
  {
    SystemsGrow(brain, faults);
    EachGrew(SystemTurn(brain, faults), IsServing(), (r: System<W, E>) => Inv(brain, r),
             (r: System<W, E>) => LoadHistory(r.store), s, systems, k);
  }

  lemma RunEachIdle<W(!new), E(!new)>(brain: Brain<W, E>, s: System<W, E>, systems: seq<W -> seq<E>>,
                                      faults: nat -> Faults, k: nat)
    requires Serving(s)
    ensures var (t, n) := RunEach(brain, s, systems, faults, k);
            Serving(t) && n == 0 ==> t == s && forall f :: f in systems ==> f(s.engine.value.world) == []
  {
    var idle := (r: System<W, E>, f: W -> seq<E>) => Serving(r) && f(r.engine.value.world) == [];
    forall r: System<W, E>, f: W -> seq<E>, i: nat | Serving(r)
      ensures var (t, n) := SystemTurn(brain, faults)(r, f, i); Serving(t) && n == 0 ==> t == r && idle(r, f)
    {
      ApplyAllStep(brain, r, f(r.engine.value.world), faults, i);
    }
    EachIdle(SystemTurn(brain, faults), IsServing(), s, systems, k, idle);
  }

  lemma SweptIdle<W(!new), E(!new)>(brain: Brain<W, E>, s: System<W, E>, evs: seq<E>, systems: seq<W -> seq<E>>,
                                    faults: nat -> Faults, k: nat)
    ensures var (t, n) := Swept(brain, s, evs, systems, faults, k);
            Serving(t) && n == 0 ==> forall f :: f in systems ==> f(t.engine.value.world) == []
  {
    var (t, n) := ApplyTurn(brain, faults)(s, evs, k);
    if Serving(t) {
      RunEachIdle(brain, t, systems, faults, k + n);
    }
  }

  lemma ThenGrew<S(!new), F(!new), E(!new)>(
    apply: (S, seq<E>, nat) -> (S, nat), turn: (S, F, nat) -> (S, nat), serving: S -> bool, good: S -> bool,
    log: S -> seq<E>, s: S, evs: seq<E>, fs: seq<F>, k: nat)
    requires Growing(apply, serving, good, log) && Growing(turn, serving, good, log) && serving(s)
    ensures var (t, n) := Then(apply, turn, serving, s, evs, fs, k); Grew(serving, good, log, s, t, n)
  {
    var (t, n) := apply(s, evs, k);
    EachGrew(turn, serving, good, log, t, fs, k + n);
  }

  lemma TickedGrew<W(!new), E(!new)>(brain: Brain<W, E>, s: System<W, E>, evs: seq<E>, systems: seq<W -> seq<E>>,
                                     faults: nat -> Faults, k: nat)
    ensures var (t, n) := Ticked(brain, s, evs, systems, faults, k); LogGrew(brain, s, t, n)
  {
    var good, log := (r: System<W, E>) => Inv(brain, r), (r: System<W, E>) => LoadHistory(r.store);
    SystemsGrow(brain, faults);
    forall r: System<W, E>, es: seq<E>, i: nat | Serving(r)
      ensures var (t, n) := SweepTurn(brain, systems, faults)(r, es, i); Grew(IsServing(), good, log, r, t, n)
    {
      ThenGrew(ApplyTurn(brain, faults), SystemTurn(brain, faults), IsServing(), good, log, r, es, systems, i);
    }
    RepeatGrew(SweepTurn(brain, systems, faults), IsServing(), good, log, s, evs, k, MAX_SWEEPS);
  }

  /** The function values that the loops below are proved against stand for what
      they should. */
  ghost predicate TurnIs<W(!new), E>(turn: (System<W, E>, W -> seq<E>, nat) -> (System<W, E>, nat), brain: Brain<W, E>,
                                     faults: nat -> Faults, t: System<W, E>, f: W -> seq<E>, i: nat)
  {
    Serving(t) ==> turn(t, f, i) == ApplyAll(brain, t, f(t.engine.value.world), faults, i)
  }

  ghost predicate ApplyIs<W(!new), E>(apply: (System<W, E>, seq<E>, nat) -> (System<W, E>, nat), brain: Brain<W, E>,
                                      faults: nat -> Faults, t: System<W, E>, evs: seq<E>, i: nat)
  {
    apply(t, evs, i) == ApplyAll(brain, t, evs, faults, i)
  }

  ghost predicate SweepIs<W(!new), E>(sweep: (System<W, E>, seq<E>, nat) -> (System<W, E>, nat), brain: Brain<W, E>,
                                      systems: seq<W -> seq<E>>, faults: nat -> Faults, t: System<W, E>, evs: seq<E>,
                                      i: nat)
  {
    sweep(t, evs, i) == Swept(brain, t, evs, systems, faults, i)
  }

  class TimelineStore<W, E(==)> {
    var stream: seq<Entry<E>>
    var archive: seq<Entry<E>>
    var lastId: nat
    var lastKey: nat
    var lastSeq: nat
    var snapshot: Option<Snapshot<W>>

    constructor ()
      ensures Contents() == Store([], [], 0, 0, 0, None)
    {
      stream, archive, lastId, lastKey, lastSeq, snapshot := [], [], 0, 0, 0, None;
    }

    function Contents(): Store<W, E>
      reads this
    {
      Store(stream, archive, lastId, lastKey, lastSeq, snapshot)
    }

    method Append(key: nat, ev: E, fault: Fault) returns (ok: bool, seqId: nat)
      modifies this
      ensures ok <==> fault.Delivered?
      ensures Contents() == if fault.Refused? then old(Contents()) else AppendOnce(old(Contents()), key, ev)
      ensures ok ==> seqId == lastSeq
    {
      if fault.Refused? {
        return false, 0;
      }
      if key != lastKey {
        lastId := lastId + 1;
        stream := stream + [Entry(lastId, ev)];
        lastKey, lastSeq := key, lastId;
      }
      return fault.Delivered?, lastSeq;
    }

    method WriteSnapshot(snap: Snapshot<W>, fault: Fault) returns (ok: bool)
      modifies this
      ensures ok <==> fault.Delivered?
      ensures Contents() == if fault.Refused? then old(Contents()) else old(Contents()).(snapshot := Some(snap))
    {
      if !fault.Refused? {
        snapshot := Some(snap);
      }
      return fault.Delivered?;
    }

    method CopyToHistory(entries: seq<Entry<E>>)
      modifies this
      ensures Contents() == old(Contents()).(archive := Archive(old(archive), entries))
    {
      var rest := entries;
      while rest != []
        invariant Archive(archive, rest) == Archive(old(archive), entries)
        invariant Contents() == old(Contents()).(archive := archive)
        decreases |rest|
      {
        if !exists a :: a in archive && a.id == rest[0].id {
          archive := archive + [rest[0]];
        }
        rest := rest[1..];
      }
    }

    method Trim(handle: nat, fault: TrimFault) returns (ok: bool)
      modifies this
      ensures ok <==> fault.Trimmed?
      ensures Contents() == TrimTo(old(Contents()), handle, fault)
    {
      var covered := UpTo(stream, handle);
      if fault.CopyStops? {
        CopyToHistory(if fault.copied <= |covered| then covered[..fault.copied] else covered);
        return false;
      }
      CopyToHistory(covered);
      if fault.NotTrimmed? {
        return false;
      }
      stream := After(stream, handle);
      return fault.Trimmed?;
    }
  }

  class EngineObject<W(!new), E(==,!new)> {
    const brain: Brain<W, E>
    const store: TimelineStore<W, E>
    const faults: nat -> Faults
    const systems: seq<W -> seq<E>>
    /** The events that fail the work a crash left running. */
    const resume: W -> seq<E>
    var calls: nat
    var world: W
    var timeline: seq<E>
    var running: bool
    var count: int
    var lastAppended: nat
    var lastSnapshot: nat
    var nextKey: nat
    var intake: seq<E>

    constructor (brain: Brain<W, E>, store: TimelineStore<W, E>, faults: nat -> Faults, systems: seq<W -> seq<E>>,
                 resume: W -> seq<E>, nextKey: nat)
      ensures this.brain == brain && this.store == store && this.faults == faults && this.systems == systems
      ensures this.resume == resume
      ensures Live() == Engine(brain.initial, [], true, 0, 0, 0) && this.nextKey == nextKey && intake == []
    {
      this.brain, this.store, this.faults, this.systems, this.resume := brain, store, faults, systems, resume;
      calls, world, timeline, running := 0, brain.initial, [], true;
      count, lastAppended, lastSnapshot, intake := 0, 0, 0, [];
      this.nextKey := nextKey;
    }

    ghost function Live(): Engine<W, E>
      reads this
    {
      Engine(world, timeline, running, count, lastAppended, lastSnapshot)
    }

    ghost function Contents(): System<W, E>
      reads this, store
    {
      System(store.Contents(), Some(Live()), nextKey)
    }

    ghost function History(): seq<E>
      reads store
    {
      LoadHistory(store.Contents())
    }

    /** engine.go:224-246 */
    method AppendDurably(ev: E, attempts: seq<Fault>) returns (ok: bool, seqId: nat)
      modifies store
      ensures (store.Contents(), ok) == AppendDurable(old(store.Contents()), nextKey, ev, attempts, 0)
      ensures ok ==> seqId == store.lastSeq
    {
      var attempt := 0;
      while attempt < APPEND_ATTEMPTS
        invariant 0 <= attempt <= APPEND_ATTEMPTS
        invariant AppendDurable(store.Contents(), nextKey, ev, attempts, attempt)
               == AppendDurable(old(store.Contents()), nextKey, ev, attempts, 0)
      {
        var done, id := store.Append(nextKey, ev, FaultAt(attempts, attempt));
        if done {
          return true, id;
        }
        attempt := attempt + 1;
      }
      return false, 0;
    }

    /** engine.go:306-325 */
    method SnapshotAndTrim(f: Faults)
      modifies this`lastSnapshot, this`timeline, store
      ensures (store.Contents(), Live()) == MaybeSnapshot(old(store.Contents()), old(Live()), f)
    {
      var ok := store.WriteSnapshot(Snapshot(lastAppended, world), f.snapshot);
      if !ok {
        return;
      }
      lastSnapshot := lastAppended;
      var trimmed := store.Trim(lastAppended, f.trim);
      if trimmed {
        timeline := [];
      }
    }

    /** engine.go:259-279: what apply does once the event is in the log. */
    method FoldEvent(ev: E, id: nat, f: Faults)
      modifies this`lastAppended, this`count, this`timeline, this`world, this`lastSnapshot, store
      ensures (store.Contents(), Live())
           == var folded := Folded(brain, old(Live()), ev, id);
              if SnapshotDue(brain, old(Live())) then MaybeSnapshot(old(store.Contents()), folded, f)
              else (old(store.Contents()), folded)
    {
      lastAppended := id;
      var snapshotDue := false;
      if brain.cadence > 0 {
        count := count + 1;
        if count >= brain.cadence {
          count := 0;
          snapshotDue := true;
        }
      }
      timeline := timeline + [ev];
      world := brain.reduce(world, ev);
      if snapshotDue {
        SnapshotAndTrim(f);
      }
    }

    method ApplyEvent(ev: E) returns (ok: bool)
      requires running
      modifies this, store
      ensures Contents() == Apply(brain, old(Contents()), ev, faults(old(calls)))
      ensures intake == old(intake) && calls == old(calls) + 1 && ok == running
    {
      var f := faults(calls);
      calls := calls + 1;
      var done, id := AppendDurably(ev, f.attempts);
      nextKey := nextKey + 1;
      if !done {
        running := false;
        return false;
      }
      FoldEvent(ev, id, f);
      return true;
    }

    /** engine.go:327-340 */
    method DrainIntake() returns (n: nat)
      requires running
      modifies this, store
      ensures (Contents(), n) == ApplyAll(brain, old(Contents()), old(intake), faults, old(calls))
      ensures running ==> intake == [] && calls == old(calls) + n
    {
      n := 0;
      while intake != []
        invariant running && calls == old(calls) + n
        invariant ApplyAll(brain, old(Contents()), old(intake), faults, old(calls))
               == var (t, m) := ApplyAll(brain, Contents(), intake, faults, calls); (t, m + n)
        decreases |intake|
      {
        ApplyAllStep(brain, Contents(), intake, faults, calls);
        var ev := intake[0];
        intake := intake[1..];
        var ok := ApplyEvent(ev);
        if !ok {
          return n;
        }
        n := n + 1;
      }
      ApplyAllStep(brain, Contents(), intake, faults, calls);
      return n;
    }

    method ApplySeries(evs: seq<E>) returns (n: nat)
      requires running
      modifies this, store
      ensures (Contents(), n) == ApplyAll(brain, old(Contents()), evs, faults, old(calls))
      ensures intake == old(intake) && (running ==> calls == old(calls) + n)
    {
      n := 0;
      var rest := evs;
      while rest != []
        invariant running && intake == old(intake) && calls == old(calls) + n
        invariant ApplyAll(brain, old(Contents()), evs, faults, old(calls))
               == var (t, m) := ApplyAll(brain, Contents(), rest, faults, calls); (t, m + n)
        decreases |rest|
      {
        ApplyAllStep(brain, Contents(), rest, faults, calls);
        var ok := ApplyEvent(rest[0]);
        if !ok {
          return n;
        }
        rest := rest[1..];
        n := n + 1;
      }
      ApplyAllStep(brain, Contents(), rest, faults, calls);
      return n;
    }

    /** No system has anything to do. */
    ghost predicate Silent()
      reads this
    {
      forall f :: f in systems ==> f(world) == []
    }

    method RunSystem(f: W -> seq<E>, ghost turn: (System<W, E>, W -> seq<E>, nat) -> (System<W, E>, nat))
      returns (n: nat)
      requires running && forall t, f, i: nat :: TurnIs(turn, brain, faults, t, f, i)
      modifies this, store
      ensures (Contents(), n) == turn(old(Contents()), f, old(calls))
      ensures intake == old(intake) && (running ==> calls == old(calls) + n)
    {
      assert TurnIs(turn, brain, faults, Contents(), f, calls);
      n := ApplySeries(f(world));
    }

    method RunAll(ghost turn: (System<W, E>, W -> seq<E>, nat) -> (System<W, E>, nat)) returns (n: nat)
      requires running && forall t, f, i: nat :: TurnIs(turn, brain, faults, t, f, i)
      modifies this, store
      ensures (Contents(), n) == Each(turn, IsServing(), old(Contents()), systems, old(calls))
      ensures intake == old(intake) && (running ==> calls == old(calls) + n)
    {
      n := 0;
      var rest := systems;
      while rest != []
        invariant intake == old(intake) && (running ==> calls == old(calls) + n)
        invariant Each(turn, IsServing(), old(Contents()), systems, old(calls))
               == var (t, m) := Each(turn, IsServing(), Contents(), rest, calls); (t, m + n)
        decreases |rest|
      {
        if !running {
          return n;
        }
        var m := RunSystem(rest[0], turn);
        rest := rest[1..];
        n := n + m;
      }
    }

    /** engine.go:342-356 */
    method RunSystems() returns (n: nat)
      requires running
      modifies this, store
      ensures (Contents(), n) == RunEach(brain, old(Contents()), systems, faults, old(calls))
      ensures LogGrew(brain, old(Contents()), Contents(), n)
      ensures intake == old(intake) && (running ==> calls == old(calls) + n)
      ensures running && n == 0 ==> Contents() == old(Contents()) && Silent()
    {
      RunEachGrew(brain, Contents(), systems, faults, calls);
      RunEachIdle(brain, Contents(), systems, faults, calls);
      n := RunAll(SystemTurn(brain, faults));
    }

    method DrainAs(ghost apply: (System<W, E>, seq<E>, nat) -> (System<W, E>, nat)) returns (n: nat)
      requires running && forall t, evs, i: nat :: ApplyIs(apply, brain, faults, t, evs, i)
      modifies this, store
      ensures (Contents(), n) == apply(old(Contents()), old(intake), old(calls))
      ensures running ==> intake == [] && calls == old(calls) + n
    {
      assert ApplyIs(apply, brain, faults, Contents(), intake, calls);
      n := DrainIntake();
    }

    method SweepBy(ghost apply: (System<W, E>, seq<E>, nat) -> (System<W, E>, nat),
                   ghost turn: (System<W, E>, W -> seq<E>, nat) -> (System<W, E>, nat))
      returns (n: nat)
      requires running && forall t, evs, i: nat :: ApplyIs(apply, brain, faults, t, evs, i)
      requires forall t, f, i: nat :: TurnIs(turn, brain, faults, t, f, i)
      modifies this, store
      ensures (Contents(), n)
           == Then(apply, turn, IsServing(), old(Contents()), old(intake), systems, old(calls))
      ensures running ==> intake == [] && calls == old(calls) + n
    {
      n := DrainAs(apply);
      if running {
        var m := RunAll(turn);
        n := n + m;
      }
    }

    /** One sweep: the queued events, then the systems. */
    method Sweep() returns (n: nat)
      requires running
      modifies this, store
      ensures (Contents(), n) == Swept(brain, old(Contents()), old(intake), systems, faults, old(calls))
      ensures running ==> intake == [] && calls == old(calls) + n
      ensures running && n == 0 ==> Silent()
    {
      SweptIdle(brain, Contents(), intake, systems, faults, calls);
      n := SweepBy(ApplyTurn(brain, faults), SystemTurn(brain, faults));
    }

    method SweepAs(ghost sweep: (System<W, E>, seq<E>, nat) -> (System<W, E>, nat)) returns (n: nat)
      requires running && forall t, evs, i: nat :: SweepIs(sweep, brain, systems, faults, t, evs, i)
      modifies this, store
      ensures (Contents(), n) == sweep(old(Contents()), old(intake), old(calls))
      ensures running ==> intake == [] && calls == old(calls) + n
      ensures running && n == 0 ==> Silent()
    {
      assert SweepIs(sweep, brain, systems, faults, Contents(), intake, calls);
      n := Sweep();
    }

    method SweepUpTo(cap: nat, ghost sweep: (System<W, E>, seq<E>, nat) -> (System<W, E>, nat))
      returns (applied: nat, sweeps: nat)
      requires forall t, evs, i: nat :: SweepIs(sweep, brain, systems, faults, t, evs, i)
      modifies this, store
      ensures (Contents(), applied) == Repeat(sweep, IsServing(), old(Contents()), old(intake), old(calls), cap)
      ensures sweeps <= cap
      ensures running && sweeps < cap ==> intake == [] && Silent()
    {
      applied, sweeps := 0, 0;
      while sweeps < cap
        invariant sweeps <= cap
        invariant Repeat(sweep, IsServing(), old(Contents()), old(intake), old(calls), cap)
               == var (t, m) := Repeat(sweep, IsServing(), Contents(), intake, calls, cap - sweeps);
                  (t, m + applied)
      {
        if !running {
          return;
        }
        ghost var s, evs, k := Contents(), intake, calls;
        var n := SweepAs(sweep);
        RepeatStep(sweep, IsServing(), s, evs, k, cap - sweeps, Contents(), n, intake, calls);
        applied := applied + n;
        if n == 0 {
          return;
        }
        sweeps := sweeps + 1;
      }
    }

    /** engine.go:361-376.  Unless the engine stopped or the cap was reached, the
        tick ends with nothing queued and nothing for a system to do. */
    method Tick() returns (applied: nat, sweeps: nat)
      modifies this, store
      ensures (Contents(), applied) == Ticked(brain, old(Contents()), old(intake), systems, faults, old(calls))
      ensures LogGrew(brain, old(Contents()), Contents(), applied) && sweeps <= MAX_SWEEPS
      ensures running && sweeps < MAX_SWEEPS ==> intake == [] && Silent()
    {
      TickedGrew(brain, Contents(), intake, systems, faults, calls);
      applied, sweeps := SweepUpTo(MAX_SWEEPS, SweepTurn(brain, systems, faults));
    }

    /** engine.go:413-476: a restart from the durable log.  Unless the tenant is
        new, the failures of interrupted work wait in the intake. */
    method Hydrate()
      requires Live() == Engine(brain.initial, [], true, 0, 0, 0)
      modifies this
      ensures Live() == Hydrated(brain, store.Contents()) && nextKey == old(nextKey)
      ensures intake == old(intake) + if IsNew(store.Contents()) then [] else resume(world)
    {
      var afterSeq := 0;
      var restored := brain.initial;
      if store.snapshot.Some? {
        restored, afterSeq := store.snapshot.value.world, store.snapshot.value.at;
      }
      var evs := LoadForReplay(store.Contents(), afterSeq);
      if afterSeq == 0 && evs == [] && store.snapshot.None? {
        return;
      }
      world, lastSnapshot, timeline := restored, afterSeq, [];
      while |timeline| < |evs|
        invariant timeline <= evs && Fold(brain.reduce, world, evs[|timeline|..]) == Fold(brain.reduce, restored, evs)
        invariant Live() == Engine(world, timeline, true, 0, 0, afterSeq)
        invariant nextKey == old(nextKey) && intake == old(intake)
      {
        var ev := evs[|timeline|];
        assert evs[|timeline|..][1..] == evs[|timeline| + 1..];
        timeline := timeline + [ev];
        world := brain.reduce(world, ev);
      }
      intake := intake + resume(world);
    }

    /** No snapshot and no event to replay. */
    static predicate IsNew(contents: Store<W, E>) {
      contents.snapshot.None? && LoadForReplay(contents, 0) == []
    }

    /** engine.go:679-691, for all missions */
    method HistoryFrameAt(n: int) returns (frame: W, at: int, total: int)
      ensures (frame, at, total) == FrameAt(brain, store.Contents(), n)
    {
      var evs := LoadHistory(store.Contents());
      total := |evs|;
      at := if n < 0 then 0 else if n > total then total else n;
      frame := brain.initial;
      var i := 0;
      while i < at
        invariant 0 <= i <= at && Fold(brain.reduce, frame, evs[i..at]) == Fold(brain.reduce, brain.initial, evs[..at])
      {
        assert evs[i..at][1..] == evs[i + 1..at];
        frame := brain.reduce(frame, evs[i]);
        i := i + 1;
      }
    }
  }
}
