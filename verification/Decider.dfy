/** The decision loop of goal missions (internal/engine/brain/decider.go:171-301,
328-437): a gate asks for one decision at a time, a worker buffers requests and
answers them off the tick, and keeps back a mission whose plan is in flight.

The model covers one run of each mission and one process lifetime; only the
gate asks.  What the language model decides is the list of other events that an
answer submits before its DecisionCompleted. */
module Decider {
  import opened Factors

  datatype Mission = Mission(running: bool, goal: string, inFlight: bool, cursor: int)
  datatype Decision = Decision(mission: string, ordinal: nat, cursor: int, pending: bool)
  datatype Event = Completed(mission: string) | Other(payload: string)

  /** `hand` and `deferred` belong to a Drain in progress, with the missions
      that were `planning` when it began.  `asked` and `answered` count. */
  datatype State = State(
    missions: map<string, Mission>, terminal: map<string, int>, decisions: seq<Decision>, buffered: seq<string>,
    hand: seq<string>, deferred: seq<string>, planning: set<string>, intake: seq<Event>,
    asked: multiset<string>, answered: multiset<string>)

  // ----- reducers (decider.go:171-234) -----

  function CountOf(decisions: seq<Decision>, m: string): nat {
    if decisions == [] then 0 else (if decisions[0].mission == m then 1 else 0) + CountOf(decisions[1..], m)
  }

  function Open(decisions: seq<Decision>, m: string): nat {
    if decisions == [] then 0
    else (if decisions[0].mission == m && decisions[0].pending then 1 else 0) + Open(decisions[1..], m)
  }

  /** Complete the first open decision of the mission. */
  function CloseFirst(decisions: seq<Decision>, m: string): seq<Decision> {
    if decisions == [] then []
    else if decisions[0].mission == m && decisions[0].pending then [decisions[0].(pending := false)] + decisions[1..]
    else [decisions[0]] + CloseFirst(decisions[1..], m)
  }

  function Requested(missions: map<string, Mission>, m: string, cursor: int): map<string, Mission> {
    if m in missions then missions[m := missions[m].(inFlight := true, cursor := cursor)] else missions
  }

  function Cleared(missions: map<string, Mission>, m: string): map<string, Mission> {
    if m in missions then missions[m := missions[m].(inFlight := false)] else missions
  }

  // ----- the gate (decider.go:288-301) -----

  function TerminalOf(terminal: map<string, int>, m: string): int {
    if m in terminal then terminal[m] else 0
  }

  predicate Wants(s: State, m: string) {
    && m in s.missions && s.missions[m].running && s.missions[m].goal != "" && !s.missions[m].inFlight
    && (s.missions[m].cursor == -1 || TerminalOf(s.terminal, m) != s.missions[m].cursor)
  }

  // ----- the steps -----

  datatype Action =
    | Gate(mission: string)                                             // a request is folded and tapped
    | Change(mission: string, running: bool, goal: string, done: int)   // anything else about a mission
    | Begin(planning: set<string>)                                      // Drain takes the buffer
    | Next(others: seq<string>)                                         // Drain keeps back or answers one request
    | End                                                               // Drain puts back what it kept
    | FoldNext                                                          // the engine folds an event

  function Payloads(others: seq<string>): seq<Event> {
    seq(|others|, i requires 0 <= i < |others| => Other(others[i]))
  }

  function Step(s: State, a: Action): State {
    match a
    case Gate(m) =>
      if Wants(s, m) then
        s.(missions := Requested(s.missions, m, TerminalOf(s.terminal, m)),
           decisions := s.decisions + [Decision(m, CountOf(s.decisions, m) + 1, TerminalOf(s.terminal, m), true)],
           buffered := s.buffered + [m], asked := s.asked + multiset{m})
      else s
    case Change(m, running, goal, done) =>
      var was := if m in s.missions then s.missions[m] else Mission(running, goal, false, -1);
      s.(missions := s.missions[m := was.(running := running, goal := goal)], terminal := s.terminal[m := done])
    case Begin(planning) =>
      if s.hand == [] && s.deferred == [] then s.(hand := s.buffered, buffered := [], planning := planning) else s
    case Next(others) =>
      if s.hand == [] then s
      else if s.hand[0] in s.planning then s.(deferred := s.deferred + [s.hand[0]], hand := s.hand[1..])
      else
        s.(intake := s.intake + Payloads(others) + [Completed(s.hand[0])], hand := s.hand[1..],
           answered := s.answered + multiset{s.hand[0]})
    case End => if s.hand == [] then s.(buffered := s.deferred + s.buffered, deferred := []) else s
    case FoldNext =>
      if s.intake == [] then s
      else
        var e := s.intake[0];
        var rest := s.(intake := s.intake[1..]);
        if e.Completed? then
          rest.(missions := Cleared(s.missions, e.mission), decisions := CloseFirst(s.decisions, e.mission))
        else rest
  }

  // ----- the invariant -----

  function Completions(intake: seq<Event>, m: string): nat {
    if intake == [] then 0 else (if intake[0] == Completed(m) then 1 else 0) + Completions(intake[1..], m)
  }

  /** Requests not answered yet, wherever they wait. */
  function Unanswered(s: State): multiset<string> {
    multiset(s.buffered) + multiset(s.hand) + multiset(s.deferred)
  }

  predicate InFlight(s: State, m: string) {
    m in s.missions && s.missions[m].inFlight
  }

  /** A mission is in flight exactly while one request of it waits or its answer
      is on the way to the fold, and exactly then it has one open decision. */
  ghost predicate InStep(s: State, m: string) {
    && Unanswered(s)[m] + Completions(s.intake, m) == (if InFlight(s, m) then 1 else 0)
    && Open(s.decisions, m) == (if InFlight(s, m) then 1 else 0)
  }

  /** The decisions of a mission are numbered 1, 2, ... in order. */
  ghost predicate Numbered(decisions: seq<Decision>) {
    forall i :: 0 <= i < |decisions| ==> decisions[i].ordinal == CountOf(decisions[..i], decisions[i].mission) + 1
  }

  ghost predicate Inv(s: State) {
    && (forall m :: InStep(s, m))
    && s.asked == Unanswered(s) + s.answered
    && Numbered(s.decisions)
  }

  lemma {:induction false} OpenSnoc(decisions: seq<Decision>, d: Decision, m: string)
    ensures Open(decisions + [d], m) == Open(decisions, m) + (if d.mission == m && d.pending then 1 else 0)
  {
    if decisions == [] {
      assert decisions + [d] == [d] && [d][1..] == [];
    } else {
      assert (decisions + [d])[1..] == decisions[1..] + [d];
      OpenSnoc(decisions[1..], d, m);
    }
  }

  lemma {:induction false} OpenClosed(decisions: seq<Decision>, k: string, m: string)
    ensures Open(CloseFirst(decisions, k), m)
         == if k == m && Open(decisions, m) > 0 then Open(decisions, m) - 1 else Open(decisions, m)
  {
    if decisions != [] {
      OpenClosed(decisions[1..], k, m);
      if decisions[0].mission == k && decisions[0].pending {
        assert ([decisions[0].(pending := false)] + decisions[1..])[1..] == decisions[1..];
      } else {
        assert ([decisions[0]] + CloseFirst(decisions[1..], k))[1..] == CloseFirst(decisions[1..], k);
      }
    }
  }

  lemma {:induction false} CompletionsAppend(es: seq<Event>, fs: seq<Event>, m: string)
    ensures Completions(es + fs, m) == Completions(es, m) + Completions(fs, m)
  {
    if es == [] {
      assert es + fs == fs;
    } else {
      assert (es + fs)[1..] == es[1..] + fs;
      CompletionsAppend(es[1..], fs, m);
    }
  }

  lemma {:induction false} NoneCompleted(others: seq<string>, m: string)
    ensures Completions(Payloads(others), m) == 0
  {
    if others != [] {
      assert Payloads(others)[1..] == Payloads(others[1..]);
      NoneCompleted(others[1..], m);
    }
  }

  lemma {:induction false} CountSnoc(decisions: seq<Decision>, d: Decision, m: string)
    ensures CountOf(decisions + [d], m) == CountOf(decisions, m) + (if d.mission == m then 1 else 0)
  {
    if decisions == [] {
      assert decisions + [d] == [d] && [d][1..] == [];
    } else {
      assert (decisions + [d])[1..] == decisions[1..] + [d];
      CountSnoc(decisions[1..], d, m);
    }
  }

  lemma NumberedSnoc(decisions: seq<Decision>, d: Decision)
    requires Numbered(decisions) && d.ordinal == CountOf(decisions, d.mission) + 1
    ensures Numbered(decisions + [d])
  {
    var more := decisions + [d];
    forall i | 0 <= i < |more| ensures more[i].ordinal == CountOf(more[..i], more[i].mission) + 1 {
      assert more[..i] == if i < |decisions| then decisions[..i] else decisions;
    }
  }

  /** Closing changes no name and no number. */
  lemma {:induction false} CloseKeeps(decisions: seq<Decision>, m: string)
    ensures |CloseFirst(decisions, m)| == |decisions|
    ensures forall i :: 0 <= i < |decisions| ==>
        CloseFirst(decisions, m)[i].mission == decisions[i].mission
        && CloseFirst(decisions, m)[i].ordinal == decisions[i].ordinal
  {
    if decisions != [] && !(decisions[0].mission == m && decisions[0].pending) {
      CloseKeeps(decisions[1..], m);
    }
  }

  lemma {:induction false} CountSame(ds: seq<Decision>, es: seq<Decision>, m: string)
    requires |ds| == |es| && forall i :: 0 <= i < |ds| ==> ds[i].mission == es[i].mission
    ensures CountOf(ds, m) == CountOf(es, m)
  {
    if ds != [] {
      CountSame(ds[1..], es[1..], m);
    }
  }

  lemma NumberedClosed(decisions: seq<Decision>, m: string)
    requires Numbered(decisions)
    ensures Numbered(CloseFirst(decisions, m))
  {
    CloseKeeps(decisions, m);
    var after := CloseFirst(decisions, m);
    forall i | 0 <= i < |after| ensures after[i].ordinal == CountOf(after[..i], after[i].mission) + 1 {
      CountSame(after[..i], decisions[..i], after[i].mission);
    }
  }

  lemma HandSplit(hand: seq<string>)
    requires hand != []
    ensures multiset(hand) == multiset{hand[0]} + multiset(hand[1..])
  {
    assert hand == [hand[0]] + hand[1..];
  }

  /** What a step does to the requests that wait. */
  function Gained(s: State, a: Action): multiset<string> {
    if a.Gate? && Wants(s, a.mission) then multiset{a.mission} else multiset{}
  }

  function Settled(s: State, a: Action): multiset<string> {
    if a.Next? && s.hand != [] && s.hand[0] !in s.planning then multiset{s.hand[0]} else multiset{}
  }

  lemma BufferedOne(s: State, m: string)
    ensures Unanswered(s.(buffered := s.buffered + [m])) == Unanswered(s) + multiset{m}
  {
    assert multiset(s.buffered + [m]) == multiset(s.buffered) + multiset{m};
  }

  lemma Taken(s: State)
    requires s.hand == []
    ensures Unanswered(s.(hand := s.buffered, buffered := [])) == Unanswered(s)
  {
  }

  lemma PutBack(s: State)
    ensures Unanswered(s.(buffered := s.deferred + s.buffered, deferred := [])) == Unanswered(s)
  {
    assert multiset(s.deferred + s.buffered) == multiset(s.deferred) + multiset(s.buffered);
  }

  lemma KeptBack(s: State)
    requires s.hand != []
    ensures Unanswered(s.(deferred := s.deferred + [s.hand[0]], hand := s.hand[1..])) == Unanswered(s)
    ensures Unanswered(s.(hand := s.hand[1..])) + multiset{s.hand[0]} == Unanswered(s)
  {
    HandSplit(s.hand);
    assert multiset(s.deferred + [s.hand[0]]) == multiset(s.deferred) + multiset{s.hand[0]};
  }

  lemma UnansweredStep(s: State, a: Action)
    ensures Unanswered(Step(s, a)) + Settled(s, a) == Unanswered(s) + Gained(s, a)
  {
    match a {
      case Gate(k) => BufferedOne(s, k);
      case Begin(_) => if s.hand == [] { Taken(s); }
      case Next(_) => if s.hand != [] { KeptBack(s); }
      case End => PutBack(s);
      case _ =>
    }
  }

  lemma Balance(asked: multiset<string>, waiting: multiset<string>, answered: multiset<string>, after: multiset<string>,
                gained: multiset<string>, settled: multiset<string>)
    requires asked == waiting + answered && after + settled == waiting + gained
    ensures asked + gained == after + (answered + settled)
  {
    assert asked + gained == (waiting + gained) + answered;
    assert after + (answered + settled) == (after + settled) + answered;
  }

  lemma CompletionsStep(s: State, a: Action, m: string)
    ensures Completions(Step(s, a).intake, m)
         == Completions(s.intake, m) + Settled(s, a)[m]
            - if a.FoldNext? && s.intake != [] && s.intake[0] == Completed(m) then 1 else 0
  {
    if a.Next? && s.hand != [] && s.hand[0] !in s.planning {
      CompletionsAppend(s.intake + Payloads(a.others), [Completed(s.hand[0])], m);
      CompletionsAppend(s.intake, Payloads(a.others), m);
      NoneCompleted(a.others, m);
      assert [Completed(s.hand[0])][1..] == [];
    }
  }

  lemma OpenStep(s: State, a: Action, m: string)
    ensures Open(Step(s, a).decisions, m)
         == if a.FoldNext? && s.intake != [] && s.intake[0] == Completed(m) && Open(s.decisions, m) > 0
            then Open(s.decisions, m) - 1
            else Open(s.decisions, m) + Gained(s, a)[m]
  {
    if a.Gate? && Wants(s, a.mission) {
      OpenSnoc(s.decisions,
               Decision(a.mission, CountOf(s.decisions, a.mission) + 1, TerminalOf(s.terminal, a.mission), true), m);
    } else if a.FoldNext? && s.intake != [] && s.intake[0].Completed? {
      OpenClosed(s.decisions, s.intake[0].mission, m);
    }
  }

  lemma InFlightStep(s: State, a: Action, m: string)
    ensures InFlight(Step(s, a), m)
       <==> if a.Gate? && Wants(s, a.mission) && a.mission == m then true
            else if a.FoldNext? && s.intake != [] && s.intake[0] == Completed(m) then false
            else InFlight(s, m)
  {
  }

  lemma StepInStep(s: State, a: Action, m: string)
    requires InStep(s, m)
    ensures InStep(Step(s, a), m)
  {
    UnansweredStep(s, a);
    CompletionsStep(s, a, m);
    OpenStep(s, a, m);
    InFlightStep(s, a, m);
    var s' := Step(s, a);
    assert Unanswered(s')[m] + Settled(s, a)[m] == (Unanswered(s') + Settled(s, a))[m];
    assert Unanswered(s)[m] + Gained(s, a)[m] == (Unanswered(s) + Gained(s, a))[m];
  }

  lemma CountersStep(s: State, a: Action)
    ensures Step(s, a).asked == s.asked + Gained(s, a)
    ensures Step(s, a).answered == s.answered + Settled(s, a)
  {
  }

  lemma StepLedger(s: State, a: Action)
    requires s.asked == Unanswered(s) + s.answered
    ensures Step(s, a).asked == Unanswered(Step(s, a)) + Step(s, a).answered
  {
    UnansweredStep(s, a);
    CountersStep(s, a);
    Balance(s.asked, Unanswered(s), s.answered, Unanswered(Step(s, a)), Gained(s, a), Settled(s, a));
  }

  lemma StepNumbered(s: State, a: Action)
    requires Numbered(s.decisions)
    ensures Numbered(Step(s, a).decisions)
  {
    if a.Gate? && Wants(s, a.mission) {
      NumberedSnoc(s.decisions,
                   Decision(a.mission, CountOf(s.decisions, a.mission) + 1, TerminalOf(s.terminal, a.mission), true));
    } else if a.FoldNext? && s.intake != [] && s.intake[0].Completed? {
      NumberedClosed(s.decisions, s.intake[0].mission);
    }
  }

  lemma StepKeeps(s: State, a: Action)
    requires Inv(s)
    ensures Inv(Step(s, a))
  {
    forall m ensures InStep(Step(s, a), m) {
      StepInStep(s, a, m);
    }
    StepLedger(s, a);
    StepNumbered(s, a);
  }

  function Run(s: State, actions: seq<Action>): State
    decreases |actions|
  {
    if actions == [] then s else Run(Step(s, actions[0]), actions[1..])
  }

  /** For every interleaving: at most one decision of a mission is open, the
      mission is in flight exactly while it is, and every request that was asked
      is waiting or was answered exactly once. */
  lemma {:induction false} RunKeeps(s: State, actions: seq<Action>)
    requires Inv(s)
    ensures Inv(Run(s, actions))
    decreases |actions|
  {
    if actions != [] {
      StepKeeps(s, actions[0]);
      RunKeeps(Step(s, actions[0]), actions[1..]);
    }
  }

  const Start: State := State(map[], map[], [], [], [], [], {}, [], multiset{}, multiset{})

  lemma OneAtATime(actions: seq<Action>, m: string)
    ensures var s := Run(Start, actions);
            && Open(s.decisions, m) <= 1
            && (Open(s.decisions, m) == 1 <==> InFlight(s, m))
            && (InFlight(s, m) <==> Unanswered(s)[m] + Completions(s.intake, m) == 1)
            && s.asked[m] == Unanswered(s)[m] + s.answered[m]
  {
    assert Inv(Start);
    RunKeeps(Start, actions);
    assert InStep(Run(Start, actions), m);
  }

  // ----- the objects that do it -----

  lemma {:induction false} RunAppend(s: State, actions: seq<Action>, more: seq<Action>)
    ensures Run(s, actions + more) == Run(Run(s, actions), more)
    decreases |actions|
  {
    if actions == [] {
      assert actions + more == more;
    } else {
      assert (actions + more)[1..] == actions[1..] + more;
      RunAppend(Step(s, actions[0]), actions[1..], more);
    }
  }

  /** The requests that a Drain keeps back while `plans` are in flight. */
  function Held(hand: seq<string>, plans: set<string>): seq<string> {
    if hand == [] then []
    else (if hand[0] in plans then [hand[0]] else []) + Held(hand[1..], plans)
  }

  /** What it submits for the others, in order. */
  function Answers(hand: seq<string>, plans: set<string>, decide: string -> seq<string>): seq<Event> {
    if hand == [] then []
    else
      (if hand[0] in plans then [] else Payloads(decide(hand[0])) + [Completed(hand[0])])
      + Answers(hand[1..], plans, decide)
  }

  /** One step of a Drain for each request in hand. */
  function Nexts(hand: seq<string>, decide: string -> seq<string>): seq<Action> {
    if hand == [] then [] else [Next(decide(hand[0]))] + Nexts(hand[1..], decide)
  }

  function Answered(hand: seq<string>, plans: set<string>): multiset<string> {
    if hand == [] then multiset{}
    else (if hand[0] in plans then multiset{} else multiset{hand[0]}) + Answered(hand[1..], plans)
  }

  lemma KeepStep(deferred: seq<string>, hand: seq<string>, plans: set<string>, decide: string -> seq<string>)
    requires hand != [] && hand[0] in plans
    ensures deferred + [hand[0]] + Held(hand[1..], plans) == deferred + Held(hand, plans)
    ensures Answers(hand[1..], plans, decide) == Answers(hand, plans, decide)
    ensures Answered(hand[1..], plans) == Answered(hand, plans)
  {
    Associate(deferred, [hand[0]], Held(hand[1..], plans));
  }

  lemma AnswerStep(intake: seq<Event>, answered: multiset<string>, hand: seq<string>, plans: set<string>,
                   decide: string -> seq<string>)
    requires hand != [] && hand[0] !in plans
    ensures Held(hand[1..], plans) == Held(hand, plans)
    ensures intake + Payloads(decide(hand[0])) + [Completed(hand[0])] + Answers(hand[1..], plans, decide)
         == intake + Answers(hand, plans, decide)
    ensures answered + multiset{hand[0]} + Answered(hand[1..], plans) == answered + Answered(hand, plans)
  {
    var m := hand[0];
    Associate(intake, Payloads(decide(m)), [Completed(m)]);
    Associate(intake, Payloads(decide(m)) + [Completed(m)], Answers(hand[1..], plans, decide));
  }

  /** What becomes of a Drain in progress once its hand is empty. */
  ghost function Drained(s: State, decide: string -> seq<string>): State {
    s.(hand := [], deferred := s.deferred + Held(s.hand, s.planning),
       intake := s.intake + Answers(s.hand, s.planning, decide),
       answered := s.answered + Answered(s.hand, s.planning))
  }

  lemma DrainedNext(s: State, decide: string -> seq<string>)
    requires s.hand != []
    ensures Drained(Step(s, Next(decide(s.hand[0]))), decide) == Drained(s, decide)
  {
    if s.hand[0] in s.planning {
      KeepStep(s.deferred, s.hand, s.planning, decide);
    } else {
      AnswerStep(s.intake, s.answered, s.hand, s.planning, decide);
    }
  }

  lemma {:induction false} NextsRun(s: State, decide: string -> seq<string>)
    ensures Run(s, Nexts(s.hand, decide)) == Drained(s, decide)
    decreases |s.hand|
  {
    if s.hand == [] {
      assert s.deferred + [] == s.deferred && s.intake + [] == s.intake && s.answered + multiset{} == s.answered;
    } else {
      DrainedNext(s, decide);
      NextsRun(Step(s, Next(decide(s.hand[0]))), decide);
      assert Nexts(s.hand, decide)[1..] == Nexts(s.hand[1..], decide);
    }
  }

  lemma RunOne(s: State, a: Action)
    ensures Run(s, [a]) == Step(s, a)
  {
  }

  /** A whole Drain: the requests of planning missions go back to the front, in
      order, and each other one is answered. */
  lemma DrainRun(s: State, plans: set<string>, decide: string -> seq<string>)
    requires s.hand == [] && s.deferred == []
    ensures Run(s, [Begin(plans)] + Nexts(s.buffered, decide) + [End])
         == s.(buffered := Held(s.buffered, plans), planning := plans,
               intake := s.intake + Answers(s.buffered, plans, decide),
               answered := s.answered + Answered(s.buffered, plans))
  {
    var begun := s.(hand := s.buffered, buffered := [], planning := plans);
    RunAppend(s, [Begin(plans)] + Nexts(s.buffered, decide), [End]);
    RunAppend(s, [Begin(plans)], Nexts(s.buffered, decide));
    RunOne(s, Begin(plans));
    NextsRun(begun, decide);
    RunOne(Drained(begun, decide), End);
  }

  /** The World's missions and decisions, the intake and the worker's buffer.
      `decide` stands for what the language model makes the worker submit. */
  class DeciderLoop {
    const decide: string -> seq<string>
    var missions: map<string, Mission>
    var terminal: map<string, int>
    var decisions: seq<Decision>
    var pending: seq<string>
    var intake: seq<Event>
    ghost var planning: set<string>
    ghost var asked: multiset<string>
    ghost var answered: multiset<string>

    constructor (decide: string -> seq<string>)
      ensures Contents() == Start && this.decide == decide
    {
      this.decide := decide;
      missions, terminal, decisions, pending, intake := map[], map[], [], [], [];
      planning, asked, answered := {}, multiset{}, multiset{};
    }

    ghost function Contents(): State
      reads this
    {
      State(missions, terminal, decisions, pending, [], [], planning, intake, asked, answered)
    }

    method CountDecisions(m: string) returns (n: nat)
      ensures n == CountOf(decisions, m)
    {
      n := 0;
      var rest := decisions;
      while rest != []
        invariant n + CountOf(rest, m) == CountOf(decisions, m)
      {
        if rest[0].mission == m {
          n := n + 1;
        }
        rest := rest[1..];
      }
    }

    /** The gate for one mission, its request folded and tapped. */
    method GateMission(m: string)
      modifies this
      ensures Contents() == Step(old(Contents()), Gate(m))
    {
      if m !in missions || !missions[m].running || missions[m].goal == "" || missions[m].inFlight {
        return;
      }
      var cursor := TerminalOf(terminal, m);
      if missions[m].cursor == -1 || cursor != missions[m].cursor {
        var n := CountDecisions(m);
        missions := missions[m := missions[m].(inFlight := true, cursor := cursor)];
        decisions := decisions + [Decision(m, n + 1, cursor, true)];
        pending := pending + [m];
        asked := asked + multiset{m};
      }
    }

    /** Complete the open decision, if there is one. */
    method CloseOpen(m: string)
      modifies this`decisions
      ensures decisions == CloseFirst(old(decisions), m)
    {
      var i := 0;
      while i < |decisions|
        invariant 0 <= i <= |decisions| && decisions == old(decisions)
        invariant forall k :: 0 <= k < i ==> !(decisions[k].mission == m && decisions[k].pending)
      {
        if decisions[i].mission == m && decisions[i].pending {
          CloseFirstAt(decisions, m, i);
          decisions := decisions[i := decisions[i].(pending := false)];
          return;
        }
        i := i + 1;
      }
      CloseFirstNone(decisions, m);
    }

    method Fold()
      modifies this
      ensures Contents() == Step(old(Contents()), FoldNext)
    {
      if intake == [] {
        return;
      }
      var e := intake[0];
      intake := intake[1..];
      if e.Completed? {
        if e.mission in missions {
          missions := missions[e.mission := missions[e.mission].(inFlight := false)];
        }
        CloseOpen(e.mission);
      }
    }

    /** The loop of a Drain over the requests in hand. */
    method DecideAll(ids: seq<string>, plans: set<string>) returns (done: nat, deferred: seq<string>)
      modifies this`intake, this`answered
      ensures deferred == Held(ids, plans) && done + |deferred| == |ids|
      ensures intake == old(intake) + Answers(ids, plans, decide)
      ensures answered == old(answered) + Answered(ids, plans)
    {
      done, deferred := 0, [];
      var hand := ids;
      while hand != []
        invariant done + |deferred| + |hand| == |ids| && deferred + Held(hand, plans) == Held(ids, plans)
        invariant intake + Answers(hand, plans, decide) == old(intake) + Answers(ids, plans, decide)
        invariant answered + Answered(hand, plans) == old(answered) + Answered(ids, plans)
      {
        var m := hand[0];
        if m in plans {
          KeepStep(deferred, hand, plans, decide);
          deferred := deferred + [m];
        } else {
          AnswerStep(intake, answered, hand, plans, decide);
          intake := intake + Payloads(decide(m)) + [Completed(m)];
          answered := answered + multiset{m};
          done := done + 1;
        }
        hand := hand[1..];
      }
    }

    /** Answer every buffered request, except those of missions in `plans`, which
        go back in front of the buffer. */
    method Drain(plans: set<string>) returns (done: nat, ghost actions: seq<Action>)
      modifies this`pending, this`intake, this`planning, this`answered
      ensures actions == [Begin(plans)] + Nexts(old(pending), decide) + [End]
      ensures Contents() == Run(old(Contents()), actions)
      ensures pending == Held(old(pending), plans) && done + |pending| == |old(pending)|
      ensures intake == old(intake) + Answers(old(pending), plans, decide)
    {
      actions := [Begin(plans)] + Nexts(pending, decide) + [End];
      DrainRun(Contents(), plans, decide);
      var ids := pending;
      pending := [];
      planning := plans;
      var deferred;
      done, deferred := DecideAll(ids, plans);
      pending := deferred + pending;
    }
  }

  lemma {:induction false} CloseFirstAt(decisions: seq<Decision>, m: string, i: nat)
    requires i < |decisions| && decisions[i].mission == m && decisions[i].pending
    requires forall k :: 0 <= k < i ==> !(decisions[k].mission == m && decisions[k].pending)
    ensures CloseFirst(decisions, m) == decisions[i := decisions[i].(pending := false)]
  {
    if i > 0 {
      CloseFirstAt(decisions[1..], m, i - 1);
    }
  }

  lemma {:induction false} CloseFirstNone(decisions: seq<Decision>, m: string)
    requires forall k :: 0 <= k < |decisions| ==> !(decisions[k].mission == m && decisions[k].pending)
    ensures CloseFirst(decisions, m) == decisions
  {
    if decisions != [] {
      CloseFirstNone(decisions[1..], m);
    }
  }
}
