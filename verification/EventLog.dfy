/** The log-first engine as a state machine (internal/engine/brain/engine.go,
brain.go:538-544, internal/infra/datapool/timelinestore.go).

The store keeps a live stream, a history table that a trim fills before it
removes anything, the key of the last append, and one snapshot.  Stream ids are
the positions 1, 2, ... of the events; 0 stands for "no id".  Idempotency keys
are positive numbers that the engine never uses twice.  Restoring a snapshot
gives back the World that was saved.  Every call to the store may fail, before
or after it took effect. */
module EventLog {
  import opened Wrappers

  datatype Entry<E> = Entry(id: nat, ev: E)
  datatype Snapshot<W> = Snapshot(at: nat, world: W)

  datatype Store<W, E> = Store(stream: seq<Entry<E>>, archive: seq<Entry<E>>, lastId: nat, lastKey: nat, lastSeq: nat,
                               snapshot: Option<Snapshot<W>>)

  /** How a write ends: it is done, it is refused with no effect, or it takes
      effect and the reply is lost. */
  datatype Fault = Delivered | Refused | ReplyLost

  /** A trim copies first and removes after: the copy may stop part-way. */
  datatype TrimFault = Trimmed | CopyStops(copied: nat) | NotTrimmed | TrimReplyLost

  datatype Faults = Faults(attempts: seq<Fault>, snapshot: Fault, trim: TrimFault)

  const APPEND_ATTEMPTS: nat := 3

  // ----- folding (brain.go:538-544) -----

  function Fold<W, E>(reduce: (W, E) -> W, w: W, evs: seq<E>): W
    decreases |evs|
  {
    if evs == [] then w else Fold(reduce, reduce(w, evs[0]), evs[1..])
  }

  lemma {:induction false} FoldAppend<W, E>(reduce: (W, E) -> W, w: W, evs: seq<E>, more: seq<E>)
    ensures Fold(reduce, w, evs + more) == Fold(reduce, Fold(reduce, w, evs), more)
    decreases |evs|
  {
    if evs == [] {
      assert evs + more == more;
    } else {
      assert (evs + more)[1..] == evs[1..] + more;
      FoldAppend(reduce, reduce(w, evs[0]), evs[1..], more);
    }
  }

  lemma FoldSnoc<W, E>(reduce: (W, E) -> W, w: W, evs: seq<E>, ev: E)
    ensures Fold(reduce, w, evs + [ev]) == reduce(Fold(reduce, w, evs), ev)
  {
    FoldAppend(reduce, w, evs, [ev]);
    assert Fold(reduce, Fold(reduce, w, evs), [ev]) == Fold(reduce, reduce(Fold(reduce, w, evs), ev), [ev][1..]);
  }

  // ----- the store (timelinestore.go) -----

  function Events<E>(entries: seq<Entry<E>>): (evs: seq<E>)
    ensures |evs| == |entries| && forall i :: 0 <= i < |evs| ==> evs[i] == entries[i].ev
  {
    seq(|entries|, i requires 0 <= i < |entries| => entries[i].ev)
  }

  function After<E>(entries: seq<Entry<E>>, id: nat): seq<Entry<E>> {
    if entries == [] then []
    else if entries[0].id > id then entries
    else After(entries[1..], id)
  }

  /** The entries up to and including `id`, which come first. */
  function UpTo<E>(entries: seq<Entry<E>>, id: nat): seq<Entry<E>> {
    if entries == [] || entries[0].id > id then []
    else [entries[0]] + UpTo(entries[1..], id)
  }

  function AppendOnce<W, E>(store: Store<W, E>, key: nat, ev: E): Store<W, E> {
    if key == store.lastKey then store
    else store.(stream := store.stream + [Entry(store.lastId + 1, ev)], lastId := store.lastId + 1, lastKey := key,
                lastSeq := store.lastId + 1)
  }

  function LoadForReplay<W, E>(store: Store<W, E>, afterSeq: nat): seq<E> {
    Events(After(store.stream, afterSeq))
  }

  function LastArchived<E>(archive: seq<Entry<E>>): nat {
    if archive == [] then 0 else archive[|archive| - 1].id
  }

  /** The history table, then the stream entries after the last of it. */
  function LoadHistory<W, E>(store: Store<W, E>): seq<E> {
    Events(store.archive) + Events(After(store.stream, LastArchived(store.archive)))
  }

  /** Copy entries into the history table; a row that is there stays. */
  function Archive<E(==)>(archive: seq<Entry<E>>, entries: seq<Entry<E>>): seq<Entry<E>>
    decreases |entries|
  {
    if entries == [] then archive
    else
      var known := exists a :: a in archive && a.id == entries[0].id;
      Archive(if known then archive else archive + [entries[0]], entries[1..])
  }

  function TrimTo<W, E(==)>(store: Store<W, E>, handle: nat, fault: TrimFault): Store<W, E> {
    var covered := UpTo(store.stream, handle);
    match fault
    case CopyStops(n) => store.(archive := Archive(store.archive, if n <= |covered| then covered[..n] else covered))
    case NotTrimmed => store.(archive := Archive(store.archive, covered))
    case _ => store.(archive := Archive(store.archive, covered), stream := After(store.stream, handle))
  }

  // ----- what the store keeps -----

  /** How many events have left the live stream. */
  function Base<W, E>(store: Store<W, E>): int {
    store.lastId - |store.stream|
  }

  /** Events as entries with consecutive ids, the first being `base + 1`. */
  function Numbered<E>(h: seq<E>, base: nat): (entries: seq<Entry<E>>)
    ensures |entries| == |h|
    ensures forall i :: 0 <= i < |h| ==> entries[i] == Entry(base + i + 1, h[i])
  {
    seq(|h|, i requires 0 <= i < |h| => Entry(base + i + 1, h[i]))
  }

  /** The store holds exactly the history `h`: a prefix of it in the table, a
      suffix in the stream, and nothing missing between the two. */
  ghost predicate Keeps<W, E>(store: Store<W, E>, h: seq<E>) {
    && store.lastId == |h|
    && 0 <= Base(store) <= |store.archive| <= |h|
    && store.archive == Numbered(h[..|store.archive|], 0)
    && store.stream == Numbered(h[Base(store)..], Base(store))
  }

  lemma NumberedCons<E>(h: seq<E>, base: nat)
    requires h != []
    ensures Numbered(h, base) == [Entry(base + 1, h[0])] + Numbered(h[1..], base + 1)
  {
  }

  lemma EventsNumbered<E>(h: seq<E>, base: nat)
    ensures Events(Numbered(h, base)) == h
  {
  }

  lemma {:induction false} AfterNumbered<E>(h: seq<E>, base: nat, id: nat)
    requires base <= id <= base + |h|
    ensures After(Numbered(h, base), id) == Numbered(h[id - base..], id)
    ensures UpTo(Numbered(h, base), id) == Numbered(h[..id - base], base)
    decreases |h|
  {
    if id == base {
      assert h[0..] == h;
    } else {
      NumberedCons(h, base);
      var entries := Numbered(h, base);
      assert entries[1..] == Numbered(h[1..], base + 1);
      AfterNumbered(h[1..], base + 1, id);
      assert h[1..][id - base - 1..] == h[id - base..];
      NumberedCons(h[..id - base], base);
      assert h[..id - base][1..] == h[1..][..id - base - 1];
    }
  }

  /** Reading back gives the history. */
  lemma LoadsHistory<W, E>(store: Store<W, E>, h: seq<E>)
    requires Keeps(store, h)
    ensures LoadHistory(store) == h
  {
    var a, b := |store.archive|, Base(store);
    AfterNumbered(h[b..], b, a);
    assert h[b..][a - b..] == h[a..];
    EventsNumbered(h[..a], 0);
    EventsNumbered(h[a..], a);
  }

  /** Any tail that is still live reads back as that tail. */
  lemma LoadsTail<W, E>(store: Store<W, E>, h: seq<E>, at: nat)
    requires Keeps(store, h) && Base(store) <= at <= |h|
    ensures LoadForReplay(store, at) == h[at..]
  {
    var b := Base(store);
    AfterNumbered(h[b..], b, at);
    assert h[b..][at - b..] == h[at..];
    EventsNumbered(h[at..], at);
  }

  /** A new key appends one event; the key of the last append changes nothing. */
  lemma AppendOnceKeeps<W, E>(store: Store<W, E>, h: seq<E>, key: nat, ev: E)
    requires Keeps(store, h) && key != store.lastKey
    ensures Keeps(AppendOnce(store, key, ev), h + [ev]) && Base(AppendOnce(store, key, ev)) == Base(store)
    ensures AppendOnce(AppendOnce(store, key, ev), key, ev) == AppendOnce(store, key, ev)
  {
    var a, b := |store.archive|, Base(store);
    assert (h + [ev])[..a] == h[..a];
    assert (h + [ev])[b..] == h[b..] + [ev];
  }

  lemma {:induction false} ArchiveNumbered<E>(h: seq<E>, a: nat, b: nat, c: nat)
    requires b <= a <= |h| && b <= c <= |h|
    ensures Archive(Numbered(h[..a], 0), Numbered(h[b..c], b)) == Numbered(h[..if a <= c then c else a], 0)
    decreases c - b
  {
    var archive := Numbered(h[..a], 0);
    if b < c {
      NumberedCons(h[b..c], b);
      var entries := Numbered(h[b..c], b);
      assert h[b..c][1..] == h[b + 1..c];
      assert entries[1..] == Numbered(h[b + 1..c], b + 1);
      if b < a {
        assert archive[b] in archive && archive[b].id == entries[0].id;
        ArchiveNumbered(h, a, b + 1, c);
      } else {
        assert archive + [entries[0]] == Numbered(h[..a + 1], 0);
        ArchiveNumbered(h, a + 1, b + 1, c);
      }
    }
  }

  /** Copying the first `n` live entries keeps the history. */
  lemma CopyKeeps<W, E>(store: Store<W, E>, h: seq<E>, n: nat)
    requires Keeps(store, h) && n <= |store.stream|
    ensures Keeps(store.(archive := Archive(store.archive, store.stream[..n])), h)
    ensures |Archive(store.archive, store.stream[..n])| >= Base(store) + n
  {
    var a, b := |store.archive|, Base(store);
    assert store.stream[..n] == Numbered(h[b..b + n], b);
    ArchiveNumbered(h, a, b, b + n);
  }

  /** Removing entries that were copied keeps the history. */
  lemma RemoveKeeps<W, E>(store: Store<W, E>, h: seq<E>, handle: nat)
    requires Keeps(store, h) && Base(store) <= handle <= |store.archive|
    ensures Keeps(store.(stream := After(store.stream, handle)), h)
    ensures |After(store.stream, handle)| == |h| - handle
  {
    var b := Base(store);
    AfterNumbered(h[b..], b, handle);
    assert h[b..][handle - b..] == h[handle..];
  }

  /** A trim never loses or repeats an event, wherever it stops. */
  lemma TrimKeeps<W, E>(store: Store<W, E>, h: seq<E>, handle: nat, fault: TrimFault)
    requires Keeps(store, h) && Base(store) <= handle <= |h|
    ensures Keeps(TrimTo(store, handle, fault), h)
    ensures Base(TrimTo(store, handle, fault)) <= handle
  {
    var b := Base(store);
    AfterNumbered(h[b..], b, handle);
    var covered := UpTo(store.stream, handle);
    assert covered == store.stream[..handle - b];
    var n := if fault.CopyStops? && fault.copied <= |covered| then fault.copied else |covered|;
    assert covered[..n] == store.stream[..n] && covered[..|covered|] == covered;
    CopyKeeps(store, h, n);
    if fault.Trimmed? || fault.TrimReplyLost? {
      RemoveKeeps(store.(archive := Archive(store.archive, covered)), h, handle);
    }
  }

  // ----- the engine (engine.go:224-325, 413-476) -----

  /** The reducer, the World of a new tenant and the snapshot cadence. */
  datatype Brain<!W, !E> = Brain(reduce: (W, E) -> W, initial: W, cadence: int)

  datatype Engine<W, E> = Engine(world: W, timeline: seq<E>, running: bool, count: int, lastAppended: nat,
                                 lastSnapshot: nat)

  /** A store, and the engine that serves from it, if there is one. */
  datatype System<W, E> = System(store: Store<W, E>, engine: Option<Engine<W, E>>, nextKey: nat)

  function FaultAt(attempts: seq<Fault>, i: nat): Fault {
    if i < |attempts| then attempts[i] else Delivered
  }

  /** Try again with the same key until a reply arrives or the tries run out. */
  function AppendDurable<W, E>(store: Store<W, E>, key: nat, ev: E, attempts: seq<Fault>, i: nat): (Store<W, E>, bool)
    decreases APPEND_ATTEMPTS - i
  {
    if i >= APPEND_ATTEMPTS then (store, false)
    else match FaultAt(attempts, i)
      case Delivered => (AppendOnce(store, key, ev), true)
      case Refused => AppendDurable(store, key, ev, attempts, i + 1)
      case ReplyLost => AppendDurable(AppendOnce(store, key, ev), key, ev, attempts, i + 1)
  }

  function MaybeSnapshot<W, E(==)>(store: Store<W, E>, engine: Engine<W, E>, faults: Faults)
    : (Store<W, E>, Engine<W, E>)
  {
    var saved := store.(snapshot := Some(Snapshot(engine.lastAppended, engine.world)));
    match faults.snapshot
    case Refused => (store, engine)
    case ReplyLost => (saved, engine)
    case Delivered =>
      (TrimTo(saved, engine.lastAppended, faults.trim),
       engine.(lastSnapshot := engine.lastAppended, timeline := if faults.trim.Trimmed? then [] else engine.timeline))
  }

  /** The engine after `ev` is in the log: fold it, and count it towards the
      next snapshot. */
  function Folded<W, E>(brain: Brain<W, E>, engine: Engine<W, E>, ev: E, seqId: nat): Engine<W, E> {
    engine.(world := brain.reduce(engine.world, ev), timeline := engine.timeline + [ev], lastAppended := seqId,
            count := if brain.cadence > 0
                     then (if engine.count + 1 >= brain.cadence then 0 else engine.count + 1)
                     else engine.count)
  }

  predicate SnapshotDue<W, E>(brain: Brain<W, E>, engine: Engine<W, E>) {
    brain.cadence > 0 && engine.count + 1 >= brain.cadence
  }

  /** Append, then fold; stop when the append fails. */
  function Apply<W, E(==)>(brain: Brain<W, E>, s: System<W, E>, ev: E, faults: Faults): System<W, E>
    requires s.engine.Some? && s.engine.value.running
  {
    var (store, ok) := AppendDurable(s.store, s.nextKey, ev, faults.attempts, 0);
    var engine := s.engine.value;
    if !ok then System(store, Some(engine.(running := false)), s.nextKey + 1)
    else
      var folded := Folded(brain, engine, ev, store.lastSeq);
      if SnapshotDue(brain, engine) then
        var (trimmed, after) := MaybeSnapshot(store, folded, faults);
        System(trimmed, Some(after), s.nextKey + 1)
      else System(store, Some(folded), s.nextKey + 1)
  }

  /** Restore the snapshot and fold the tail after it. */
  function Hydrated<W, E>(brain: Brain<W, E>, store: Store<W, E>): Engine<W, E> {
    var at := if store.snapshot.Some? then store.snapshot.value.at else 0;
    var world := if store.snapshot.Some? then store.snapshot.value.world else brain.initial;
    var tail := LoadForReplay(store, at);
    Engine(Fold(brain.reduce, world, tail), tail, true, 0, 0, at)
  }

  /** The World as of the first `n` events, with `n` clamped to the history. */
  function FrameAt<W, E>(brain: Brain<W, E>, store: Store<W, E>, n: int): (W, int, int) {
    var evs := LoadHistory(store);
    var at := if n < 0 then 0 else if n > |evs| then |evs| else n;
    (Fold(brain.reduce, brain.initial, evs[..at]), at, |evs|)
  }

  // ----- the invariant of every run -----

  /** The engine has folded exactly `h`, and its Timeline is a tail of `h`. */
  ghost predicate Mirrors<W, E>(brain: Brain<W, E>, engine: Engine<W, E>, h: seq<E>) {
    && engine.world == Fold(brain.reduce, brain.initial, h)
    && |engine.timeline| <= |h| && engine.timeline == h[|h| - |engine.timeline|..]
  }

  ghost predicate EngineOk<W, E>(brain: Brain<W, E>, engine: Engine<W, E>, h: seq<E>) {
    Mirrors(brain, engine, h) || (!engine.running && h != [] && Mirrors(brain, engine, h[..|h| - 1]))
  }

  /** A snapshot is a fold of a prefix, and what it does not cover is live. */
  ghost predicate SnapshotOk<W, E>(brain: Brain<W, E>, store: Store<W, E>, h: seq<E>) {
    if store.snapshot.None? then Base(store) <= 0
    else
      && Base(store) <= store.snapshot.value.at <= |h|
      && store.snapshot.value.world == Fold(brain.reduce, brain.initial, h[..store.snapshot.value.at])
  }

  ghost predicate Holds<W, E>(brain: Brain<W, E>, s: System<W, E>, h: seq<E>) {
    && Keeps(s.store, h) && SnapshotOk(brain, s.store, h) && s.store.lastKey < s.nextKey
    && (s.engine.Some? ==> EngineOk(brain, s.engine.value, h))
  }

  ghost predicate Inv<W, E>(brain: Brain<W, E>, s: System<W, E>) {
    Holds(brain, s, LoadHistory(s.store))
  }

  /** The append of one event is not on the log yet, or is its last event. */
  ghost predicate Pending<W, E>(store: Store<W, E>, before: Store<W, E>, h: seq<E>, key: nat, ev: E) {
    store == before || (store == AppendOnce(before, key, ev) && Keeps(store, h + [ev]))
  }

  lemma {:induction false} AppendDurableOnce<W, E>(store: Store<W, E>, before: Store<W, E>, h: seq<E>, key: nat, ev: E,
                                                   attempts: seq<Fault>, i: nat)
    requires Keeps(before, h) && before.lastKey != key && Pending(store, before, h, key, ev)
    ensures var (store', ok) := AppendDurable(store, key, ev, attempts, i);
            && Pending(store', before, h, key, ev)
            && (ok ==> store' == AppendOnce(before, key, ev))
    decreases APPEND_ATTEMPTS - i
  {
    AppendOnceKeeps(before, h, key, ev);
    if i < APPEND_ATTEMPTS {
      match FaultAt(attempts, i) {
        case Delivered =>
        case Refused => AppendDurableOnce(store, before, h, key, ev, attempts, i + 1);
        case ReplyLost => AppendDurableOnce(AppendOnce(store, key, ev), before, h, key, ev, attempts, i + 1);
      }
    }
  }

  lemma FoldedMirrors<W, E>(brain: Brain<W, E>, engine: Engine<W, E>, h: seq<E>, ev: E, seqId: nat)
    requires Mirrors(brain, engine, h)
    ensures Mirrors(brain, Folded(brain, engine, ev, seqId), h + [ev])
  {
    FoldSnoc(brain.reduce, brain.initial, h, ev);
  }

  lemma SnapshotStays<W, E>(brain: Brain<W, E>, store: Store<W, E>, h: seq<E>, key: nat, ev: E)
    requires Keeps(store, h) && SnapshotOk(brain, store, h) && key != store.lastKey
    ensures SnapshotOk(brain, AppendOnce(store, key, ev), h + [ev])
  {
    AppendOnceKeeps(store, h, key, ev);
    if store.snapshot.Some? {
      assert (h + [ev])[..store.snapshot.value.at] == h[..store.snapshot.value.at];
    }
  }

  /** Saving and trimming change neither the history nor the World. */
  lemma SnapshotKeeps<W, E>(brain: Brain<W, E>, store: Store<W, E>, engine: Engine<W, E>, h: seq<E>, faults: Faults)
    requires Keeps(store, h) && SnapshotOk(brain, store, h) && Mirrors(brain, engine, h)
    requires engine.lastAppended == |h|
    ensures var (store', engine') := MaybeSnapshot(store, engine, faults);
            && Keeps(store', h) && SnapshotOk(brain, store', h) && Mirrors(brain, engine', h)
            && store'.lastKey == store.lastKey && engine'.world == engine.world && engine'.running == engine.running
  {
    var saved := store.(snapshot := Some(Snapshot(engine.lastAppended, engine.world)));
    assert h[..|h|] == h;
    assert Keeps(saved, h);
    TrimKeeps(saved, h, |h|, faults.trim);
  }

  /** One event: it is appended at most once; when the engine goes on, exactly
      once and folded; when it stops, the World is unchanged. */
  lemma ApplyKeeps<W, E>(brain: Brain<W, E>, s: System<W, E>, h: seq<E>, ev: E, faults: Faults)
    requires Holds(brain, s, h) && s.engine.Some? && s.engine.value.running
    ensures var s' := Apply(brain, s, ev, faults);
            && s'.engine.Some?
            && (if s'.engine.value.running
                then Holds(brain, s', h + [ev]) && s'.engine.value.world == brain.reduce(s.engine.value.world, ev)
                else (Holds(brain, s', h) || Holds(brain, s', h + [ev]))
                     && s'.engine.value.world == s.engine.value.world)
  {
    var key := s.nextKey;
    var engine := s.engine.value;
    var (store, ok) := AppendDurable(s.store, key, ev, faults.attempts, 0);
    AppendDurableOnce(s.store, s.store, h, key, ev, faults.attempts, 0);
    AppendOnceKeeps(s.store, h, key, ev);
    SnapshotStays(brain, s.store, h, key, ev);
    if ok {
      var folded := Folded(brain, engine, ev, store.lastSeq);
      FoldedMirrors(brain, engine, h, ev, store.lastSeq);
      if SnapshotDue(brain, engine) {
        SnapshotKeeps(brain, store, folded, h + [ev], faults);
      }
    } else {
      assert (h + [ev])[..|h|] == h;
    }
  }

  /** A restart rebuilds the fold of the whole history. */
  lemma HydrateExact<W, E>(brain: Brain<W, E>, store: Store<W, E>, h: seq<E>)
    requires Keeps(store, h) && SnapshotOk(brain, store, h)
    ensures Mirrors(brain, Hydrated(brain, store), h)
  {
    var at := if store.snapshot.Some? then store.snapshot.value.at else 0;
    LoadsTail(store, h, at);
    FoldAppend(brain.reduce, brain.initial, h[..at], h[at..]);
    assert h[..at] + h[at..] == h;
  }

  predicate Serving<W, E>(s: System<W, E>) {
    s.engine.Some? && s.engine.value.running
  }

  /** Take steps in order until one leaves a state that does not serve.  The
      number counts the steps before that. */
  function Series<S, E>(step: (S, E, nat) -> S, serving: S -> bool, s: S, evs: seq<E>, k: nat): (S, nat)
    decreases |evs|
  {
    if evs == [] || !serving(s) then (s, 0)
    else
      var s' := step(s, evs[0], k);
      if !serving(s') then (s', 0)
      else
        var (t, n) := Series(step, serving, s', evs[1..], k + 1);
        (t, n + 1)
  }

  /** Apply events in order until one fails; `faults(k)` is how the k-th call
      of Apply fares. */
  function ApplyAll<W, E(==)>(brain: Brain<W, E>, s: System<W, E>, evs: seq<E>, faults: nat -> Faults, k: nat)
    : (System<W, E>, nat)
  {
    Series((t: System<W, E>, ev: E, i: nat) => if Serving(t) then Apply(brain, t, ev, faults(i)) else t,
           (t: System<W, E>) => Serving(t), s, evs, k)
  }

  lemma ApplyAllStep<W, E>(brain: Brain<W, E>, s: System<W, E>, evs: seq<E>, faults: nat -> Faults, k: nat)
    requires Serving(s)
    ensures evs == [] ==> ApplyAll(brain, s, evs, faults, k) == (s, 0)
    ensures evs != [] ==>
            ApplyAll(brain, s, evs, faults, k)
            == var s' := Apply(brain, s, evs[0], faults(k));
               if !Serving(s') then (s', 0)
               else var (t, n) := ApplyAll(brain, s', evs[1..], faults, k + 1); (t, n + 1)
    ensures var (t, n) := ApplyAll(brain, s, evs, faults, k); Serving(t) && n == 0 ==> evs == [] && t == s
  {
  }

  // ----- runs -----

  datatype Action<E> =
    | Submit(ev: E, faults: Faults)
    | Crash
    | Restart(loads: bool)

  function Step<W, E(==)>(brain: Brain<W, E>, s: System<W, E>, a: Action<E>): System<W, E> {
    match a
    case Submit(ev, faults) =>
      if s.engine.Some? && s.engine.value.running then Apply(brain, s, ev, faults) else s
    case Crash => s.(engine := None)
    case Restart(loads) => if s.engine.None? && loads then s.(engine := Some(Hydrated(brain, s.store))) else s
  }

  function Run<W, E(==)>(brain: Brain<W, E>, s: System<W, E>, actions: seq<Action<E>>): System<W, E>
    decreases |actions|
  {
    if actions == [] then s else Run(brain, Step(brain, s, actions[0]), actions[1..])
  }

  function NewTenant<W, E>(brain: Brain<W, E>): System<W, E> {
    System(Store([], [], 0, 0, 0, None), None, 1)
  }

  /** The same, with the history read back from the store. */
  lemma ApplyHistory<W, E>(brain: Brain<W, E>, s: System<W, E>, ev: E, faults: Faults)
    requires Inv(brain, s) && s.engine.Some? && s.engine.value.running
    ensures Inv(brain, Apply(brain, s, ev, faults)) && Apply(brain, s, ev, faults).engine.Some?
    ensures var h, h' := LoadHistory(s.store), LoadHistory(Apply(brain, s, ev, faults).store);
            if Apply(brain, s, ev, faults).engine.value.running then h' == h + [ev] else h' == h || h' == h + [ev]
  {
    var h := LoadHistory(s.store);
    ApplyKeeps(brain, s, h, ev, faults);
    var s' := Apply(brain, s, ev, faults);
    if Holds(brain, s', h + [ev]) {
      LoadsHistory(s'.store, h + [ev]);
    } else {
      LoadsHistory(s'.store, h);
    }
  }

  /** The log went from `h` to `h'` by the first `n` of `evs`: all of them while
      the engine serves; an engine that stopped may have left one more. */
  ghost predicate Logged<E>(h: seq<E>, h': seq<E>, evs: seq<E>, n: nat, serving: bool) {
    && n <= |evs|
    && (if serving then n == |evs| && h' == h + evs
        else n < |evs| && (h' == h + evs[..n] || h' == h + evs[..n + 1]))
  }

  lemma LoggedCons<E>(h: seq<E>, h': seq<E>, evs: seq<E>, n: nat, serving: bool)
    requires evs != [] && Logged(h + [evs[0]], h', evs[1..], n, serving)
    ensures Logged(h, h', evs, n + 1, serving)
  {
    assert h + [evs[0]] + evs[1..] == h + evs;
    assert h + [evs[0]] + evs[1..][..n] == h + evs[..n + 1];
    if !serving {
      assert h + [evs[0]] + evs[1..][..n + 1] == h + evs[..n + 2];
    }
  }

  lemma LoggedNone<E>(h: seq<E>, h': seq<E>, evs: seq<E>)
    requires evs != [] && (h' == h || h' == h + [evs[0]])
    ensures Logged(h, h', evs, 0, false)
  {
    assert evs[..0] == [] && evs[..1] == [evs[0]];
    assert h + [] == h;
  }

  /** Each step keeps `good` and logs its event, certainly so if it serves. */
  ghost predicate Logging<S(!new), E(!new)>(step: (S, E, nat) -> S, serving: S -> bool, good: S -> bool,
                                            log: S -> seq<E>)
  {
    forall s, ev, k: nat :: good(s) && serving(s) ==>
      var t := step(s, ev, k);
      && good(t)
      && (log(t) == log(s) + [ev] || (!serving(t) && log(t) == log(s)))
  }

  lemma {:induction false} SeriesLogged<S(!new), E(!new)>(step: (S, E, nat) -> S, serving: S -> bool, good: S -> bool,
                                                          log: S -> seq<E>, s: S, evs: seq<E>, k: nat)
    requires Logging(step, serving, good, log) && good(s) && serving(s)
    ensures var (t, n) := Series(step, serving, s, evs, k);
            good(t) && Logged(log(s), log(t), evs, n, serving(t))
    decreases |evs|
  {
    if evs == [] {
      assert log(s) + evs == log(s);
    } else {
      var s' := step(s, evs[0], k);
      if serving(s') {
        SeriesLogged(step, serving, good, log, s', evs[1..], k + 1);
        var (t, n) := Series(step, serving, s', evs[1..], k + 1);
        LoggedCons(log(s), log(t), evs, n, serving(t));
      } else {
        LoggedNone(log(s), log(s'), evs);
      }
    }
  }

  lemma ApplyLogs<W(!new), E(!new)>(brain: Brain<W, E>, faults: nat -> Faults)
    ensures Logging((t: System<W, E>, ev: E, i: nat) => if Serving(t) then Apply(brain, t, ev, faults(i)) else t,
                    (t: System<W, E>) => Serving(t), (t: System<W, E>) => Inv(brain, t),
                    (t: System<W, E>) => LoadHistory(t.store))
  {
    forall t: System<W, E>, ev, i: nat | Inv(brain, t) && Serving(t)
      ensures Inv(brain, Apply(brain, t, ev, faults(i)))
      ensures LoadHistory(Apply(brain, t, ev, faults(i)).store) == LoadHistory(t.store) + [ev]
           || (!Serving(Apply(brain, t, ev, faults(i)))
               && LoadHistory(Apply(brain, t, ev, faults(i)).store) == LoadHistory(t.store))
    {
      ApplyHistory(brain, t, ev, faults(i));
    }
  }

  /** The folded events are on the log in order. */
  lemma ApplyAllHistory<W(!new), E(!new)>(brain: Brain<W, E>, s: System<W, E>, evs: seq<E>,
                                          faults: nat -> Faults, k: nat)
    requires Inv(brain, s) && Serving(s)
    ensures var (t, n) := ApplyAll(brain, s, evs, faults, k);
            Inv(brain, t) && Logged(LoadHistory(s.store), LoadHistory(t.store), evs, n, Serving(t))
  {
    ApplyLogs(brain, faults);
    SeriesLogged((t: System<W, E>, ev: E, i: nat) => if Serving(t) then Apply(brain, t, ev, faults(i)) else t,
                 (t: System<W, E>) => Serving(t), (t: System<W, E>) => Inv(brain, t),
                 (t: System<W, E>) => LoadHistory(t.store), s, evs, k);
  }

  lemma StepKeeps<W, E>(brain: Brain<W, E>, s: System<W, E>, a: Action<E>)
    requires Inv(brain, s)
    ensures Inv(brain, Step(brain, s, a))
    ensures LoadHistory(s.store) <= LoadHistory(Step(brain, s, a).store)
  {
    match a {
      case Submit(ev, faults) =>
        if s.engine.Some? && s.engine.value.running {
          ApplyHistory(brain, s, ev, faults);
        }
      case Crash =>
      case Restart(loads) => HydrateExact(brain, s.store, LoadHistory(s.store));
    }
  }

  /** For every interleaving of events, faults, crashes and restarts: a running
      engine's World is the fold of the durable history, and a stopped one's
      log is at most one event ahead. */
  lemma {:induction false} RunKeeps<W, E>(brain: Brain<W, E>, s: System<W, E>, actions: seq<Action<E>>)
    requires Inv(brain, s)
    ensures Inv(brain, Run(brain, s, actions))
    decreases |actions|
  {
    if actions != [] {
      StepKeeps(brain, s, actions[0]);
      RunKeeps(brain, Step(brain, s, actions[0]), actions[1..]);
    }
  }

  lemma WorldIsFold<W, E>(brain: Brain<W, E>, actions: seq<Action<E>>)
    ensures var s := Run(brain, NewTenant(brain), actions);
            var h := LoadHistory(s.store);
            && (s.engine.Some? && s.engine.value.running
                ==> s.engine.value.world == Fold(brain.reduce, brain.initial, h))
            && (s.engine.Some? ==>
                  s.engine.value.world == Fold(brain.reduce, brain.initial, h)
                  || (h != [] && s.engine.value.world == Fold(brain.reduce, brain.initial, h[..|h| - 1])))
            && Hydrated(brain, s.store).world == Fold(brain.reduce, brain.initial, h)
  {
    var tenant := NewTenant(brain);
    assert Keeps(tenant.store, []);
    LoadsHistory(tenant.store, []);
    RunKeeps(brain, tenant, actions);
    var s := Run(brain, tenant, actions);
    HydrateExact(brain, s.store, LoadHistory(s.store));
  }

  /** The history only grows. */
  lemma {:induction false} HistoryGrows<W, E>(brain: Brain<W, E>, s: System<W, E>, actions: seq<Action<E>>)
    requires Inv(brain, s)
    ensures LoadHistory(s.store) <= LoadHistory(Run(brain, s, actions).store)
    decreases |actions|
  {
    if actions != [] {
      StepKeeps(brain, s, actions[0]);
      HistoryGrows(brain, Step(brain, s, actions[0]), actions[1..]);
    }
  }

  /** A frame is the World that the run had after that many events: the frame
      at a length that the history once had never changes again, and the last
      frame is the live World. */
  lemma FramesAreStable<W, E>(brain: Brain<W, E>, s: System<W, E>, actions: seq<Action<E>>, n: nat)
    requires Inv(brain, s) && n <= |LoadHistory(s.store)|
    ensures FrameAt(brain, Run(brain, s, actions).store, n).0 == FrameAt(brain, s.store, n).0
    ensures n == |LoadHistory(s.store)| && s.engine.Some? && s.engine.value.running ==>
            FrameAt(brain, s.store, n).0 == s.engine.value.world
  {
    HistoryGrows(brain, s, actions);
    var h, h' := LoadHistory(s.store), LoadHistory(Run(brain, s, actions).store);
    assert h'[..n] == h[..n];
    assert h[..|h|] == h;
  }
}
