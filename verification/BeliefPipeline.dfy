/** The per-host belief protocol (internal/engine/brain/belief.go:140-175,
258-267, 325-360): a system asks for a score when the evidence of a host
differs from the recorded digest, a worker buffers and scores requests off the
tick, and the results come back through the intake queue.

A digest is the evidence it fingerprints.  Scoring is pure, this pipeline is
the only writer of beliefs, and the model covers one process lifetime. */
module BeliefPipeline {
  import opened Wrappers
  import opened Factors
  import opened Order

  datatype Host<E, B> = Host(evidence: E, digest: Option<E>, belief: B)
  datatype Request<E> = Request(host: nat, evidence: E)
  datatype Scored<E, B> = Scored(host: nat, belief: B, digest: E)

  /** The hosts, and where requests and results can be: buffered by the tap,
      in flight in the worker, or queued at the engine. */
  datatype State<E, B> = State(
    hosts: map<nat, Host<E, B>>, buffered: seq<Request<E>>, flying: seq<Request<E>>, intake: seq<Scored<E, B>>)

  // ----- the steps -----

  /** The reducer of a score: a result for other evidence is stale. */
  function ApplyScored<E(==), B>(hosts: map<nat, Host<E, B>>, s: Scored<E, B>): map<nat, Host<E, B>> {
    if s.host in hosts && hosts[s.host].digest == Some(s.digest) then
      hosts[s.host := hosts[s.host].(belief := s.belief)]
    else hosts
  }

  /** A host whose score was not asked for with its present evidence. */
  predicate Stale<E(==), B>(h: Host<E, B>) {
    h.digest != Some(h.evidence)
  }

  datatype Action<E, B> =
    | Observe(host: nat, evidence: E, initial: B)  // new evidence, or a new host
    | Ask(host: nat)                               // BeliefSystem, the reducer and the tap
    | Fetch(i: nat)                                // Drain takes a buffered request
    | Submit(i: nat)                               // a score is submitted, in any order
    | Apply(i: nat)                                // the engine folds a result

  predicate Enabled<E(==), B>(s: State<E, B>, a: Action<E, B>) {
    match a
    case Observe(_, _, _) => true
    case Ask(h) => h in s.hosts && Stale(s.hosts[h])
    case Fetch(i) => i < |s.buffered|
    case Submit(i) => i < |s.flying|
    case Apply(i) => i < |s.intake|
  }

  function Step<E(==), B>(score: E -> B, s: State<E, B>, a: Action<E, B>): State<E, B>
    requires Enabled(s, a)
  {
    match a
    case Observe(h, evidence, initial) =>
      s.(hosts := s.hosts[h := if h in s.hosts then s.hosts[h].(evidence := evidence)
                               else Host(evidence, None, initial)])
    case Ask(h) =>
      var host := s.hosts[h];
      s.(hosts := s.hosts[h := host.(digest := Some(host.evidence))],
         buffered := s.buffered + [Request(h, host.evidence)])
    case Fetch(i) => s.(buffered := RemoveAt(s.buffered, i), flying := s.flying + [s.buffered[i]])
    case Submit(i) =>
      var r := s.flying[i];
      s.(flying := RemoveAt(s.flying, i), intake := s.intake + [Scored(r.host, score(r.evidence), r.evidence)])
    case Apply(i) => s.(hosts := ApplyScored(s.hosts, s.intake[i]), intake := RemoveAt(s.intake, i))
  }

  // ----- the invariant -----

  /** A score of `evidence` is on its way to the host. */
  ghost predicate Underway<E, B>(score: E -> B, s: State<E, B>, h: nat, evidence: E) {
    || Request(h, evidence) in s.buffered
    || Request(h, evidence) in s.flying
    || Scored(h, score(evidence), evidence) in s.intake
  }

  ghost predicate Accounted<E, B>(score: E -> B, s: State<E, B>, h: nat) {
    h in s.hosts && s.hosts[h].digest.Some? ==>
      var evidence := s.hosts[h].digest.value;
      s.hosts[h].belief == score(evidence) || Underway(score, s, h, evidence)
  }

  ghost predicate Inv<E, B>(score: E -> B, s: State<E, B>) {
    && (forall r :: r in s.intake ==> r.belief == score(r.digest))
    && (forall h :: Accounted(score, s, h))
  }

  lemma Remains<T>(s: seq<T>, i: nat, x: T)
    requires i < |s| && x in s
    ensures x == s[i] || x in RemoveAt(s, i)
  {
    var j :| 0 <= j < |s| && s[j] == x;
    if j != i {
      assert RemoveAt(s, i)[if j < i then j else j - 1] == x;
    }
  }

  lemma AppliedHolds<E, B>(score: E -> B, s: State<E, B>, i: nat, h: nat)
    requires Inv(score, s) && i < |s.intake|
    ensures Accounted(score, Step(score, s, Apply(i)), h)
  {
    var r := s.intake[i];
    assert r in s.intake && Accounted(score, s, h);
    if h in s.hosts && s.hosts[h].digest.Some? {
      var wanted := Scored(h, score(s.hosts[h].digest.value), s.hosts[h].digest.value);
      if wanted in s.intake {
        Remains(s.intake, i, wanted);
      }
    }
  }

  lemma StepKeepsHost<E, B>(score: E -> B, s: State<E, B>, a: Action<E, B>, h: nat)
    requires Inv(score, s) && Enabled(s, a)
    ensures Accounted(score, Step(score, s, a), h)
  {
    assert Accounted(score, s, h);
    var s' := Step(score, s, a);
    match a {
      case Observe(_, _, _) =>
      case Ask(k) =>
        assert s'.buffered[|s.buffered|] == Request(k, s.hosts[k].evidence);
        assert forall r :: r in s.buffered ==> r in s'.buffered;
      case Fetch(i) =>
        assert s'.flying[|s.flying|] == s.buffered[i];
        forall r | r in s.buffered ensures r in s'.buffered || r in s'.flying { Remains(s.buffered, i, r); }
        assert forall r :: r in s.flying ==> r in s'.flying;
      case Submit(i) =>
        var r := s.flying[i];
        assert s'.intake[|s.intake|] == Scored(r.host, score(r.evidence), r.evidence);
        forall q | q in s.flying ensures q == r || q in s'.flying { Remains(s.flying, i, q); }
        assert forall q :: q in s.intake ==> q in s'.intake;
      case Apply(i) => AppliedHolds(score, s, i, h);
    }
  }

  lemma StepKeeps<E(!new), B(!new)>(score: E -> B, s: State<E, B>, a: Action<E, B>)
    requires Inv(score, s) && Enabled(s, a)
    ensures Inv(score, Step(score, s, a))
  {
    forall h ensures Accounted(score, Step(score, s, a), h) {
      StepKeepsHost(score, s, a, h);
    }
    var s' := Step(score, s, a);
    forall r | r in s'.intake ensures r.belief == score(r.digest) {
      if a.Apply? {
        var j :| 0 <= j < |s'.intake| && s'.intake[j] == r;
        assert r == s.intake[if j < a.i then j else j + 1];
      }
    }
  }

  ghost predicate Possible<E, B>(score: E -> B, s: State<E, B>, actions: seq<Action<E, B>>)
    decreases |actions|
  {
    actions == [] || (Enabled(s, actions[0]) && Possible(score, Step(score, s, actions[0]), actions[1..]))
  }

  function Run<E(==), B>(score: E -> B, s: State<E, B>, actions: seq<Action<E, B>>): State<E, B>
    requires Possible(score, s, actions)
    decreases |actions|
  {
    if actions == [] then s else Run(score, Step(score, s, actions[0]), actions[1..])
  }

  /** For every interleaving: a recorded digest is answered or underway. */
  lemma {:induction false} RunKeeps<E(!new), B(!new)>(score: E -> B, s: State<E, B>, actions: seq<Action<E, B>>)
    requires Inv(score, s) && Possible(score, s, actions)
    ensures Inv(score, Run(score, s, actions))
    decreases |actions|
  {
    if actions != [] {
      StepKeeps(score, s, actions[0]);
      RunKeeps(score, Step(score, s, actions[0]), actions[1..]);
    }
  }

  // ----- rest -----

  /** All queues are empty and BeliefSystem has nothing to ask. */
  ghost predicate Quiet<E, B>(s: State<E, B>) {
    s.buffered == [] && s.flying == [] && s.intake == [] && forall h :: h in s.hosts ==> !Stale(s.hosts[h])
  }

  /** At rest each belief is the score of the current evidence. */
  lemma QuietIsRight<E(!new), B(!new)>(score: E -> B, s: State<E, B>, actions: seq<Action<E, B>>)
    requires Inv(score, s) && Possible(score, s, actions) && Quiet(Run(score, s, actions))
    ensures var t := Run(score, s, actions);
            forall h :: h in t.hosts ==> t.hosts[h].belief == score(t.hosts[h].evidence)
  {
    RunKeeps(score, s, actions);
    var t := Run(score, s, actions);
    forall h | h in t.hosts ensures t.hosts[h].belief == score(t.hosts[h].evidence) {
      assert Accounted(score, t, h);
    }
  }

  ghost function StaleHosts<E, B>(s: State<E, B>): set<nat> {
    set h | h in s.hosts && Stale(s.hosts[h])
  }

  /** The steps that are left without new evidence. */
  ghost function Work<E, B>(s: State<E, B>): nat {
    4 * |StaleHosts(s)| + 3 * |s.buffered| + 2 * |s.flying| + |s.intake|
  }

  /** Each step of the pipeline uses up work, so without new evidence it comes
      to rest, and it can stop only at rest. */
  lemma StepWorks<E(!new), B(!new)>(score: E -> B, s: State<E, B>, a: Action<E, B>)
    requires Enabled(s, a) && !a.Observe?
    ensures Work(Step(score, s, a)) == Work(s) - 1
  {
    var s' := Step(score, s, a);
    match a {
      case Ask(h) =>
        assert StaleHosts(s') == StaleHosts(s) - {h};
        assert h in StaleHosts(s);
      case Fetch(_) => assert StaleHosts(s') == StaleHosts(s);
      case Submit(_) => assert StaleHosts(s') == StaleHosts(s);
      case Apply(_) =>
        assert StaleHosts(s') == StaleHosts(s);
    }
  }

  lemma RestIffNoWork<E(!new), B(!new)>(s: State<E, B>)
    ensures Quiet(s) <==> Work(s) == 0
    ensures !Quiet(s) ==> exists a: Action<E, B> :: Enabled(s, a) && !a.Observe?
  {
    if s.buffered != [] {
      var a: Action<E, B> := Fetch(0);
      assert Enabled(s, a);
    } else if s.flying != [] {
      var a: Action<E, B> := Submit(0);
      assert Enabled(s, a);
    } else if s.intake != [] {
      var a: Action<E, B> := Apply(0);
      assert Enabled(s, a);
    } else if StaleHosts(s) != {} {
      var h :| h in StaleHosts(s);
      var a: Action<E, B> := Ask(h);
      assert Enabled(s, a);
    }
    assert forall h :: h in s.hosts ==> (h in StaleHosts(s) <==> Stale(s.hosts[h]));
  }

  /** A run without new evidence has at most that many steps. */
  lemma {:induction false} RunsEnd<E(!new), B(!new)>(score: E -> B, s: State<E, B>, actions: seq<Action<E, B>>)
    requires Possible(score, s, actions) && forall a :: a in actions ==> !a.Observe?
    ensures |actions| <= Work(s) && Work(Run(score, s, actions)) == Work(s) - |actions|
    decreases |actions|
  {
    if actions != [] {
      assert actions[0] in actions;
      StepWorks(score, s, actions[0]);
      RunsEnd(score, Step(score, s, actions[0]), actions[1..]);
    }
  }

  lemma {:induction false} RunSnoc<E(!new), B(!new)>(score: E -> B, s: State<E, B>, actions: seq<Action<E, B>>,
                                                     a: Action<E, B>)
    requires Possible(score, s, actions) && Enabled(Run(score, s, actions), a)
    ensures Possible(score, s, actions + [a])
    ensures Run(score, s, actions + [a]) == Step(score, Run(score, s, actions), a)
    decreases |actions|
  {
    if actions == [] {
      assert actions + [a] == [a] && [a][1..] == [];
    } else {
      assert (actions + [a])[1..] == actions[1..] + [a];
      RunSnoc(score, Step(score, s, actions[0]), actions[1..], a);
    }
  }

  // ----- the objects that do it -----

  /** The requests of one pass over the listed hosts, in order. */
  function Asks<E(==), B>(hosts: map<nat, Host<E, B>>, ids: seq<nat>): seq<Action<E, B>> {
    if ids == [] then []
    else if ids[0] in hosts && Stale(hosts[ids[0]]) then
      [Ask(ids[0])] + Asks(hosts[ids[0] := hosts[ids[0]].(digest := Some(hosts[ids[0]].evidence))], ids[1..])
    else Asks(hosts, ids[1..])
  }

  function Scores<E, B>(score: E -> B, requests: seq<Request<E>>): seq<Scored<E, B>> {
    if requests == [] then []
    else
      [Scored(requests[0].host, score(requests[0].evidence), requests[0].evidence)] + Scores(score, requests[1..])
  }

  /** Fetching the first request and submitting its score. */
  lemma ScoreFirst<E(!new), B(!new)>(score: E -> B, s: State<E, B>, actions: seq<Action<E, B>>, t: State<E, B>)
    requires Possible(score, s, actions) && Run(score, s, actions) == t && t.buffered != [] && t.flying == []
    ensures var more := actions + [Fetch(0)] + [Submit(0)];
            var r := t.buffered[0];
            && Possible(score, s, more)
            && Run(score, s, more)
            == t.(buffered := t.buffered[1..], intake := t.intake + [Scored(r.host, score(r.evidence), r.evidence)])
  {
    RunSnoc(score, s, actions, Fetch(0));
    assert RemoveAt(t.buffered, 0) == t.buffered[1..] && RemoveAt([t.buffered[0]], 0) == [];
    RunSnoc(score, s, actions + [Fetch(0)], Submit(0));
  }

  /** The World's hosts, the engine's intake and the worker's buffer.  Each
      method is a run of the steps above. */
  class Pipeline<E(==, !new), B(!new)> {
    const score: E -> B
    var hosts: map<nat, Host<E, B>>
    var pending: seq<Request<E>>
    var intake: seq<Scored<E, B>>

    constructor (score: E -> B)
      ensures this.score == score && Contents() == State(map[], [], [], []) && Inv(score, Contents())
    {
      this.score, hosts, pending, intake := score, map[], [], [];
    }

    ghost function Contents(): State<E, B>
      reads this
    {
      State(hosts, pending, [], intake)
    }

    /** BeliefSystem over the listed hosts, each request folded and tapped. */
    method RequestScores(ids: seq<nat>) returns (ghost actions: seq<Action<E, B>>)
      modifies this
      ensures Possible(score, old(Contents()), actions) && Contents() == Run(score, old(Contents()), actions)
      ensures actions == Asks(old(hosts), ids) && forall a :: a in actions ==> a.Ask?
      ensures forall h :: h in ids && h in hosts ==> !Stale(hosts[h])
    {
      actions := [];
      var i := 0;
      while i < |ids|
        invariant 0 <= i <= |ids|
        invariant Possible(score, old(Contents()), actions) && Contents() == Run(score, old(Contents()), actions)
        invariant actions + Asks(hosts, ids[i..]) == Asks(old(hosts), ids) && forall a :: a in actions ==> a.Ask?
        invariant forall j :: 0 <= j < i && ids[j] in hosts ==> !Stale(hosts[ids[j]])
      {
        assert ids[i..][1..] == ids[i + 1..];
        var h := ids[i];
        if h in hosts && Stale(hosts[h]) {
          RunSnoc(score, old(Contents()), actions, Ask(h));
          actions := actions + [Ask(h)];
          var evidence := hosts[h].evidence;
          hosts := hosts[h := hosts[h].(digest := Some(evidence))];
          pending := pending + [Request(h, evidence)];
        }
        i := i + 1;
      }
    }

    /** Score every buffered request and submit the results. */
    method Drain() returns (scored: nat, ghost actions: seq<Action<E, B>>)
      modifies this`pending, this`intake
      ensures scored == |old(pending)| && pending == []
      ensures intake == old(intake) + Scores(score, old(pending))
      ensures Possible(score, old(Contents()), actions) && Contents() == Run(score, old(Contents()), actions)
      ensures forall a :: a in actions ==> a.Fetch? || a.Submit?
    {
      scored, actions := 0, [];
      while pending != []
        invariant Possible(score, old(Contents()), actions) && Contents() == Run(score, old(Contents()), actions)
        invariant scored + |pending| == |old(pending)|
        invariant intake + Scores(score, pending) == old(intake) + Scores(score, old(pending))
        invariant forall a :: a in actions ==> a.Fetch? || a.Submit?
        decreases |pending|
      {
        var r := pending[0];
        ScoreFirst(score, old(Contents()), actions, Contents());
        Associate(intake, [Scored(r.host, score(r.evidence), r.evidence)], Scores(score, pending[1..]));
        actions := actions + [Fetch(0)] + [Submit(0)];
        pending := pending[1..];
        intake := intake + [Scored(r.host, score(r.evidence), r.evidence)];
        scored := scored + 1;
      }
    }

    /** Fold every queued result, in order. */
    method FoldResults() returns (ghost actions: seq<Action<E, B>>)
      modifies this
      ensures intake == []
      ensures Possible(score, old(Contents()), actions) && Contents() == Run(score, old(Contents()), actions)
      ensures |actions| == |old(intake)| && forall a :: a in actions ==> a == Apply(0)
    {
      actions := [];
      while intake != []
        invariant Possible(score, old(Contents()), actions) && Contents() == Run(score, old(Contents()), actions)
        invariant |actions| + |intake| == |old(intake)| && forall a :: a in actions ==> a == Apply(0)
        decreases |intake|
      {
        var s := intake[0];
        RunSnoc(score, old(Contents()), actions, Apply(0));
        actions := actions + [Apply(0)];
        assert RemoveAt(intake, 0) == intake[1..];
        intake := intake[1..];
        if s.host in hosts && hosts[s.host].digest == Some(s.digest) {
          hosts := hosts[s.host := hosts[s.host].(belief := s.belief)];
        }
      }
    }
  }
}
