/** Bet settlement and destructive authorization
(internal/engine/brain/bet_settlement.go, destructive_authz.go,
bet_scoring.go).  The World is the fold of the events; calls read the World and
submit events, which are folded later and in order. */
module Settlement {
  import opened Wrappers
  import Factors

  datatype Verdict = True | False
  datatype Method = Predicate | Exhaustion | Hitl

  datatype BetSettlement = BetSettlement(
    hypothesis: string, verdict: Verdict, how: Method, technique: string, predicateType: string, evidence: string,
    budget: int, made: int, reason: string, user: string, predicted: real, brier: real, scope: string, mission: string)

  datatype DestructiveAction = DestructiveAction(
    hypothesis: string, scope: string, mission: string, technique: string, predicateType: string, requestedAt: int,
    decided: bool, approved: bool, user: string, decidedAt: int)

  datatype Event =
    | SettledTrue(hypothesis: string, technique: string, predicateType: string, evidence: string, predicted: real,
                  brier: real, scope: string, mission: string)
    | SettledFalse(hypothesis: string, technique: string, budget: int, made: int, reason: string, predicted: real,
                   brier: real, scope: string, mission: string)
    | SettledByHitl(hypothesis: string, verdict: Verdict, technique: string, user: string, predicted: real,
                    brier: real, scope: string, mission: string)
    | ActionRequested(hypothesis: string, scope: string, mission: string, technique: string, predicateType: string,
                      at: int)
    | ActionDecided(hypothesis: string, approved: bool, user: string, at: int)
    | Other(payload: string)

  datatype World = World(settlements: seq<BetSettlement>, actions: seq<DestructiveAction>)

  // ----- scoring (bet_scoring.go) -----

  function BrierScore(predicted: real, observed: real): real {
    Factors.Times(predicted - observed, predicted - observed)
  }

  function Outcome(v: Verdict): real {
    if v.True? then 1.0 else 0.0
  }

  predicate ValidProbability(p: real) {
    0.0 <= p <= 1.0
  }

  lemma BrierBounds(p: real, v: Verdict)
    requires ValidProbability(p)
    ensures 0.0 <= BrierScore(p, Outcome(v)) <= 1.0
  {
    Square(p - Outcome(v));
  }

  lemma Square(d: real)
    requires -1.0 <= d <= 1.0
    ensures 0.0 <= Factors.Times(d, d) <= 1.0
  {
    Factors.TimesNonNegative(1.0 - d, 1.0 + d);
    OneLess(d);
    if d >= 0.0 {
      Factors.TimesNonNegative(d, d);
    } else {
      Factors.TimesNonNegative(0.0 - d, 0.0 - d);
      Factors.TimesNegate(d);
    }
  }

  lemma OneLess(d: real)
    ensures Factors.Times(1.0 - d, 1.0 + d) == 1.0 - Factors.Times(d, d)
  {
  }

  // ----- reducers (bet_settlement.go:186-338, destructive_authz.go:124-195) -----

  predicate IsSettlement(e: Event) {
    e.SettledTrue? || e.SettledFalse? || e.SettledByHitl?
  }

  predicate Settles(e: Event, h: string) {
    IsSettlement(e) && e.hypothesis == h
  }

  function RecordOf(e: Event): BetSettlement
    requires IsSettlement(e)
  {
    match e
    case SettledTrue(h, technique, predicateType, evidence, p, b, scope, mission) =>
      BetSettlement(h, True, Predicate, technique, predicateType, evidence, 0, 0, "", "", p, b, scope, mission)
    case SettledFalse(h, technique, budget, made, reason, p, b, scope, mission) =>
      BetSettlement(h, False, Exhaustion, technique, "", "", budget, made, reason, "", p, b, scope, mission)
    case SettledByHitl(h, verdict, technique, user, p, b, scope, mission) =>
      BetSettlement(h, verdict, Hitl, technique, "", "", 0, 0, "", user, p, b, scope, mission)
  }

  function SettlementOf(settlements: seq<BetSettlement>, h: string): Option<BetSettlement> {
    if settlements == [] then None
    else if settlements[0].hypothesis == h then Some(settlements[0])
    else SettlementOf(settlements[1..], h)
  }

  function ActionOf(actions: seq<DestructiveAction>, h: string): Option<DestructiveAction> {
    if actions == [] then None
    else if actions[0].hypothesis == h then Some(actions[0])
    else ActionOf(actions[1..], h)
  }

  function Pending(e: Event): DestructiveAction
    requires e.ActionRequested?
  {
    DestructiveAction(e.hypothesis, e.scope, e.mission, e.technique, e.predicateType, e.at, false, false, "", 0)
  }

  function Decide(a: DestructiveAction, e: Event): DestructiveAction
    requires e.ActionDecided?
  {
    if a.decided then a else a.(decided := true, approved := e.approved, user := e.user, decidedAt := e.at)
  }

  /** Decide the first action of the hypothesis, if it is still open. */
  function DecideIn(actions: seq<DestructiveAction>, e: Event): seq<DestructiveAction>
    requires e.ActionDecided?
  {
    if actions == [] then []
    else if actions[0].hypothesis == e.hypothesis then [Decide(actions[0], e)] + actions[1..]
    else [actions[0]] + DecideIn(actions[1..], e)
  }

  function Reduce(w: World, e: Event): World {
    if IsSettlement(e) then
      if e.hypothesis == "" || SettlementOf(w.settlements, e.hypothesis).Some? then w
      else w.(settlements := w.settlements + [RecordOf(e)])
    else match e
      case ActionRequested(h, _, _, _, _, _) =>
        if h == "" || ActionOf(w.actions, h).Some? then w else w.(actions := w.actions + [Pending(e)])
      case ActionDecided(h, _, _, _) => if h == "" then w else w.(actions := DecideIn(w.actions, e))
      case _ => w
  }

  function Fold(w: World, log: seq<Event>): World
    decreases |log|
  {
    if log == [] then w else Fold(Reduce(w, log[0]), log[1..])
  }

  const Empty: World := World([], [])

  // ----- one settlement, fixed by the first event -----

  function FirstSettlement(log: seq<Event>, h: string): Option<BetSettlement> {
    if log == [] then None
    else if Settles(log[0], h) then Some(RecordOf(log[0]))
    else FirstSettlement(log[1..], h)
  }

  ghost predicate OnePerHypothesis(settlements: seq<BetSettlement>) {
    forall i, j :: 0 <= i < j < |settlements| ==> settlements[i].hypothesis != settlements[j].hypothesis
  }

  lemma {:induction false} SettlementSnoc(settlements: seq<BetSettlement>, s: BetSettlement, h: string)
    ensures SettlementOf(settlements + [s], h)
         == if SettlementOf(settlements, h).Some? then SettlementOf(settlements, h)
            else if s.hypothesis == h then Some(s) else None
  {
    if settlements == [] {
      assert settlements + [s] == [s];
    } else {
      assert (settlements + [s])[1..] == settlements[1..] + [s];
      SettlementSnoc(settlements[1..], s, h);
    }
  }

  lemma {:induction false} NotFound(settlements: seq<BetSettlement>, h: string)
    ensures SettlementOf(settlements, h).None? <==> forall s :: s in settlements ==> s.hypothesis != h
  {
    if settlements != [] {
      NotFound(settlements[1..], h);
      assert forall s :: s in settlements <==> s == settlements[0] || s in settlements[1..];
    }
  }

  lemma ReduceSettlement(w: World, e: Event, h: string)
    requires h != ""
    ensures SettlementOf(Reduce(w, e).settlements, h)
         == if SettlementOf(w.settlements, h).Some? then SettlementOf(w.settlements, h)
            else if Settles(e, h) then Some(RecordOf(e)) else None
  {
    if IsSettlement(e) && e.hypothesis != "" && SettlementOf(w.settlements, e.hypothesis).None? {
      SettlementSnoc(w.settlements, RecordOf(e), h);
    }
  }

  /** The settlement of a bet is that of the first settlement event folded for
      it, whatever comes after. */
  lemma {:induction false} FirstWins(w: World, log: seq<Event>, h: string)
    requires h != ""
    ensures SettlementOf(Fold(w, log).settlements, h)
         == if SettlementOf(w.settlements, h).Some? then SettlementOf(w.settlements, h) else FirstSettlement(log, h)
    decreases |log|
  {
    if log != [] {
      ReduceSettlement(w, log[0], h);
      FirstWins(Reduce(w, log[0]), log[1..], h);
    }
  }

  lemma {:induction false} AtMostOne(w: World, log: seq<Event>)
    requires OnePerHypothesis(w.settlements)
    ensures OnePerHypothesis(Fold(w, log).settlements)
    decreases |log|
  {
    if log != [] {
      var e := log[0];
      if IsSettlement(e) {
        NotFound(w.settlements, e.hypothesis);
      }
      AtMostOne(Reduce(w, e), log[1..]);
    }
  }

  lemma {:induction false} FirstSettlementPrefix(log: seq<Event>, more: seq<Event>, h: string)
    ensures FirstSettlement(log, h).Some? ==> FirstSettlement(log + more, h) == FirstSettlement(log, h)
  {
    if log != [] {
      assert (log + more)[1..] == log[1..] + more;
      FirstSettlementPrefix(log[1..], more, h);
    }
  }

  /** Once settled, a bet stays settled the same way for ever. */
  lemma SettledForEver(log: seq<Event>, more: seq<Event>, h: string)
    requires h != "" && SettlementOf(Fold(Empty, log).settlements, h).Some?
    ensures SettlementOf(Fold(Empty, log + more).settlements, h) == SettlementOf(Fold(Empty, log).settlements, h)
  {
    FirstWins(Empty, log, h);
    FirstWins(Empty, log + more, h);
    FirstSettlementPrefix(log, more, h);
  }

  // ----- the first decision is the decision -----

  function FirstDecision(a: DestructiveAction, log: seq<Event>): DestructiveAction {
    if log == [] then a
    else if log[0].ActionDecided? && log[0].hypothesis == a.hypothesis then Decide(a, log[0])
    else FirstDecision(a, log[1..])
  }

  /** The action that a history leads to: its first request, with the first
      decision after that. */
  function Authorization(log: seq<Event>, h: string): Option<DestructiveAction> {
    if log == [] then None
    else if log[0].ActionRequested? && log[0].hypothesis == h then Some(FirstDecision(Pending(log[0]), log[1..]))
    else Authorization(log[1..], h)
  }

  lemma {:induction false} ActionSnoc(actions: seq<DestructiveAction>, a: DestructiveAction, h: string)
    ensures ActionOf(actions + [a], h)
         == if ActionOf(actions, h).Some? then ActionOf(actions, h) else if a.hypothesis == h then Some(a) else None
  {
    if actions == [] {
      assert actions + [a] == [a];
    } else {
      assert (actions + [a])[1..] == actions[1..] + [a];
      ActionSnoc(actions[1..], a, h);
    }
  }

  lemma {:induction false} ActionDecision(actions: seq<DestructiveAction>, e: Event, h: string)
    requires e.ActionDecided?
    ensures ActionOf(DecideIn(actions, e), h)
         == if ActionOf(actions, h).Some? && e.hypothesis == h then Some(Decide(ActionOf(actions, h).value, e))
            else ActionOf(actions, h)
  {
    if actions != [] && actions[0].hypothesis != e.hypothesis {
      ActionDecision(actions[1..], e, h);
      assert ([actions[0]] + DecideIn(actions[1..], e))[1..] == DecideIn(actions[1..], e);
    } else if actions != [] {
      assert ([Decide(actions[0], e)] + actions[1..])[1..] == actions[1..];
    }
  }

  lemma {:induction false} DecidedStays(a: DestructiveAction, log: seq<Event>)
    requires a.decided
    ensures FirstDecision(a, log) == a
  {
    if log != [] {
      DecidedStays(a, log[1..]);
    }
  }

  lemma {:induction false} ActionFound(actions: seq<DestructiveAction>, h: string)
    ensures ActionOf(actions, h).Some? ==> ActionOf(actions, h).value.hypothesis == h
  {
    if actions != [] {
      ActionFound(actions[1..], h);
    }
  }

  /** The recorded authorization is the first decision after the first request. */
  lemma {:induction false} FirstDecisionWins(w: World, log: seq<Event>, h: string)
    requires h != ""
    ensures ActionOf(Fold(w, log).actions, h)
         == if ActionOf(w.actions, h).Some? then Some(FirstDecision(ActionOf(w.actions, h).value, log))
            else Authorization(log, h)
    decreases |log|
  {
    if log != [] {
      var e := log[0];
      FirstDecisionWins(Reduce(w, e), log[1..], h);
      ActionFound(w.actions, h);
      if e.ActionRequested? && e.hypothesis != "" && ActionOf(w.actions, e.hypothesis).None? {
        ActionSnoc(w.actions, Pending(e), h);
      } else if e.ActionDecided? && e.hypothesis != "" {
        ActionDecision(w.actions, e, h);
        if ActionOf(w.actions, h).Some? && e.hypothesis == h {
          DecidedStays(Decide(ActionOf(w.actions, h).value, e), log[1..]);
        }
      }
    }
  }

  /** `log[i]` is the first request for `h`, and `log[j]` the first decision
      after it. */
  ghost predicate DecidedAt(log: seq<Event>, h: string, i: int, j: int) {
    && 0 <= i < j < |log|
    && log[i].ActionRequested? && log[i].hypothesis == h
    && (forall k :: 0 <= k < i ==> !(log[k].ActionRequested? && log[k].hypothesis == h))
    && log[j].ActionDecided? && log[j].hypothesis == h
    && (forall k :: i < k < j ==> !(log[k].ActionDecided? && log[k].hypothesis == h))
  }

  lemma {:induction false} DecisionPosition(a: DestructiveAction, log: seq<Event>) returns (j: nat)
    requires !a.decided && FirstDecision(a, log).decided
    ensures j < |log| && log[j].ActionDecided? && log[j].hypothesis == a.hypothesis
    ensures forall k :: 0 <= k < j ==> !(log[k].ActionDecided? && log[k].hypothesis == a.hypothesis)
    ensures FirstDecision(a, log).approved == log[j].approved
  {
    if log[0].ActionDecided? && log[0].hypothesis == a.hypothesis {
      j := 0;
    } else {
      var k := DecisionPosition(a, log[1..]);
      j := k + 1;
      assert forall m :: 0 < m < j ==> log[m] == log[1..][m - 1];
    }
  }

  /** An approved authorization means that the first decision folded after the
      request was an approval. */
  lemma {:induction false} ApprovalIsFirstDecision(log: seq<Event>, h: string) returns (i: nat, j: nat)
    requires Authorization(log, h).Some? && Authorization(log, h).value.decided
    ensures DecidedAt(log, h, i, j) && log[j].approved == Authorization(log, h).value.approved
  {
    if log[0].ActionRequested? && log[0].hypothesis == h {
      var k := DecisionPosition(Pending(log[0]), log[1..]);
      i, j := 0, k + 1;
      assert log[j] == log[1..][k];
      assert forall m :: 0 < m < j ==> log[m] == log[1..][m - 1];
    } else {
      var p, q := ApprovalIsFirstDecision(log[1..], h);
      i, j := p + 1, q + 1;
      assert forall m :: 0 < m < |log| ==> log[m] == log[1..][m - 1];
    }
  }

  // ----- the orchestrators (bet_settlement.go:476-756, destructive_authz.go:392-467) -----

  /** A refusal is an error; a no-op leaves the bet as it is. */
  datatype Reply = Refused | NoOp | Submitted(event: Event)

  /** Verify: only a recorded approval lets a destructive proof settle. */
  predicate Approved(w: World, h: string) {
    ActionOf(w.actions, h).Some? && ActionOf(w.actions, h).value.decided && ActionOf(w.actions, h).value.approved
  }

  datatype ProofRequest = ProofRequest(
    hypothesis: string, technique: string, predicateType: string, evidence: string, destructive: bool, predicted: real,
    scope: string, mission: string)

  /** `wired` says whether an authorizer is there, and `fires` how the predicate
      evaluates, if it evaluates at all. */
  function SettleBetTrue(w: World, req: ProofRequest, wired: bool, fires: Option<bool>): Reply {
    if req.hypothesis == "" || !ValidProbability(req.predicted) then Refused
    else if SettlementOf(w.settlements, req.hypothesis).Some? then NoOp
    else if req.destructive && !(wired && Approved(w, req.hypothesis)) then Refused
    else if fires.None? then Refused
    else if !fires.value then NoOp
    else Submitted(SettledTrue(req.hypothesis, req.technique, req.predicateType, req.evidence, req.predicted,
                               BrierScore(req.predicted, Outcome(True)), req.scope, req.mission))
  }

  datatype ExhaustionRequest = ExhaustionRequest(
    hypothesis: string, scope: string, mission: string, budget: int, made: int, reason: string, predicted: real)

  function SettleBetFalse(w: World, req: ExhaustionRequest, technique: string, scope: string): Reply {
    if req.hypothesis == "" || !ValidProbability(req.predicted) || req.budget <= 0 || req.reason == ""
       || req.made < req.budget then Refused
    else if SettlementOf(w.settlements, req.hypothesis).Some? then NoOp
    else Submitted(SettledFalse(req.hypothesis, technique, req.budget, req.made, req.reason, req.predicted,
                                BrierScore(req.predicted, Outcome(False)), if req.scope == "" then scope else req.scope,
                                req.mission))
  }

  datatype Label = TruePositive | FalsePositive | Dismiss | Unknown
  datatype HitlRequest = HitlRequest(
    hypothesis: string, scope: string, mission: string, verdict: Label, user: string, predicted: real)

  function LabelVerdict(l: Label): Option<Verdict> {
    match l
    case TruePositive => Some(True)
    case FalsePositive => Some(False)
    case _ => None
  }

  function SettleBetByHitl(w: World, req: HitlRequest, technique: string, scope: string): Reply {
    if req.hypothesis == "" || req.user == "" || !ValidProbability(req.predicted)
       || LabelVerdict(req.verdict).None? then
      Refused
    else if SettlementOf(w.settlements, req.hypothesis).Some? then NoOp
    else
      var verdict := LabelVerdict(req.verdict).value;
      Submitted(SettledByHitl(req.hypothesis, verdict, technique, req.user, req.predicted,
                              BrierScore(req.predicted, Outcome(verdict)), if req.scope == "" then scope else req.scope,
                              req.mission))
  }

  function DecideAction(w: World, h: string, user: string, approved: bool, at: int): Reply {
    if h == "" || ActionOf(w.actions, h).None? || ActionOf(w.actions, h).value.decided then Refused
    else Submitted(ActionDecided(h, approved, user, at))
  }

  /** A destructive proof settles only when the first decision folded after the
      request for it was an approval. */
  lemma DestructiveNeedsApproval(log: seq<Event>, req: ProofRequest, wired: bool, fires: Option<bool>)
    returns (i: nat, j: nat)
    requires req.destructive && SettleBetTrue(Fold(Empty, log), req, wired, fires).Submitted?
    ensures DecidedAt(log, req.hypothesis, i, j) && log[j].approved
  {
    FirstDecisionWins(Empty, log, req.hypothesis);
    i, j := ApprovalIsFirstDecision(log, req.hypothesis);
  }

  // ----- runs -----

  datatype Call =
    | Prove(proof: ProofRequest, wired: bool, fires: Option<bool>)
    | Exhaust(exhaustion: ExhaustionRequest, technique: string, scope: string)
    | Review(review: HitlRequest, technique: string, scope: string)
    | Authorize(request: Event)
    | DecideCall(hypothesis: string, user: string, approved: bool, at: int)
    | FoldNext

  /** The folded events and those that wait in the intake. */
  datatype State = State(log: seq<Event>, intake: seq<Event>)

  function Send(s: State, r: Reply): State {
    if r.Submitted? then s.(intake := s.intake + [r.event]) else s
  }

  function Step(s: State, c: Call): State {
    var w := Fold(Empty, s.log);
    match c
    case Prove(req, wired, fires) => Send(s, SettleBetTrue(w, req, wired, fires))
    case Exhaust(req, technique, scope) => Send(s, SettleBetFalse(w, req, technique, scope))
    case Review(req, technique, scope) => Send(s, SettleBetByHitl(w, req, technique, scope))
    case Authorize(e) => if e.ActionRequested? && e.hypothesis != "" then s.(intake := s.intake + [e]) else s
    case DecideCall(h, user, approved, at) => Send(s, DecideAction(w, h, user, approved, at))
    case FoldNext => if s.intake == [] then s else State(s.log + [s.intake[0]], s.intake[1..])
  }

  function Run(s: State, calls: seq<Call>): State
    decreases |calls|
  {
    if calls == [] then s else Run(Step(s, calls[0]), calls[1..])
  }

  /** A settlement whose score is the squared error of its verdict. */
  ghost predicate Scored(b: BetSettlement) {
    && ValidProbability(b.predicted) && b.brier == BrierScore(b.predicted, Outcome(b.verdict)) && 0.0 <= b.brier <= 1.0
  }

  ghost predicate Honest(e: Event) {
    IsSettlement(e) ==> Scored(RecordOf(e))
  }

  ghost predicate AllHonest(events: seq<Event>) {
    forall e :: e in events ==> Honest(e)
  }

  lemma ReplyHonest(w: World, c: Call, r: Reply)
    requires
      || (c.Prove? && r == SettleBetTrue(w, c.proof, c.wired, c.fires))
      || (c.Exhaust? && r == SettleBetFalse(w, c.exhaustion, c.technique, c.scope))
      || (c.Review? && r == SettleBetByHitl(w, c.review, c.technique, c.scope))
      || (c.DecideCall? && r == DecideAction(w, c.hypothesis, c.user, c.approved, c.at))
    ensures r.Submitted? ==> Honest(r.event)
  {
    if r.Submitted? && IsSettlement(r.event) {
      var b := RecordOf(r.event);
      BrierBounds(b.predicted, b.verdict);
    }
  }

  lemma StepHonest(s: State, c: Call)
    requires AllHonest(s.log) && AllHonest(s.intake)
    ensures AllHonest(Step(s, c).log) && AllHonest(Step(s, c).intake)
  {
    var w := Fold(Empty, s.log);
    match c {
      case Prove(req, wired, fires) => ReplyHonest(w, c, SettleBetTrue(w, req, wired, fires));
      case Exhaust(req, technique, scope) => ReplyHonest(w, c, SettleBetFalse(w, req, technique, scope));
      case Review(req, technique, scope) => ReplyHonest(w, c, SettleBetByHitl(w, req, technique, scope));
      case DecideCall(h, user, approved, at) => ReplyHonest(w, c, DecideAction(w, h, user, approved, at));
      case Authorize(_) =>
      case FoldNext =>
    }
  }

  lemma {:induction false} RunHonest(s: State, calls: seq<Call>)
    requires AllHonest(s.log) && AllHonest(s.intake)
    ensures AllHonest(Run(s, calls).log)
    decreases |calls|
  {
    if calls != [] {
      StepHonest(s, calls[0]);
      RunHonest(Step(s, calls[0]), calls[1..]);
    }
  }

  lemma {:induction false} FoldHonest(w: World, log: seq<Event>)
    requires AllHonest(log) && forall b :: b in w.settlements ==> Scored(b)
    ensures forall b :: b in Fold(w, log).settlements ==> Scored(b)
    decreases |log|
  {
    if log != [] {
      assert log[0] in log && Honest(log[0]);
      FoldHonest(Reduce(w, log[0]), log[1..]);
    }
  }

  /** Over every run of calls and folds: at most one settlement per bet, each
      the one of the first settlement event folded for that bet, each scored by
      the squared error of its verdict. */
  lemma RunSettles(calls: seq<Call>, h: string)
    requires h != ""
    ensures var log := Run(State([], []), calls).log;
            && OnePerHypothesis(Fold(Empty, log).settlements)
            && SettlementOf(Fold(Empty, log).settlements, h) == FirstSettlement(log, h)
            && forall b :: b in Fold(Empty, log).settlements ==> Scored(b)
  {
    var log := Run(State([], []), calls).log;
    RunHonest(State([], []), calls);
    FoldHonest(Empty, log);
    AtMostOne(Empty, log);
    FirstWins(Empty, log, h);
  }

  // ----- the reducers as they run -----

  /** The entities that the reducers add to and update in place. */
  class Entities {
    var settlements: seq<BetSettlement>
    var actions: seq<DestructiveAction>

    constructor ()
      ensures Contents() == Empty
    {
      settlements, actions := [], [];
    }

    ghost function Contents(): World
      reads this
    {
      World(settlements, actions)
    }

    method IsSettled(h: string) returns (found: bool)
      ensures found <==> SettlementOf(settlements, h).Some?
    {
      var rest := settlements;
      while rest != []
        invariant SettlementOf(rest, h) == SettlementOf(settlements, h)
      {
        if rest[0].hypothesis == h {
          return true;
        }
        rest := rest[1..];
      }
      return false;
    }

    method ApplySettlement(e: Event)
      requires IsSettlement(e)
      modifies this
      ensures Contents() == Reduce(old(Contents()), e)
    {
      if e.hypothesis == "" {
        return;
      }
      var found := IsSettled(e.hypothesis);
      if !found {
        settlements := settlements + [RecordOf(e)];
      }
    }

    method ApplyRequested(e: Event)
      requires e.ActionRequested?
      modifies this
      ensures Contents() == Reduce(old(Contents()), e)
    {
      if e.hypothesis == "" {
        return;
      }
      var rest := actions;
      while rest != []
        invariant ActionOf(rest, e.hypothesis) == ActionOf(actions, e.hypothesis) && actions == old(actions)
      {
        if rest[0].hypothesis == e.hypothesis {
          return;
        }
        rest := rest[1..];
      }
      actions := actions + [Pending(e)];
    }

    method ApplyDecided(e: Event)
      requires e.ActionDecided?
      modifies this
      ensures Contents() == Reduce(old(Contents()), e)
    {
      if e.hypothesis == "" {
        return;
      }
      var i := 0;
      while i < |actions|
        invariant 0 <= i <= |actions| && actions == old(actions)
        invariant forall k :: 0 <= k < i ==> actions[k].hypothesis != e.hypothesis
      {
        if actions[i].hypothesis == e.hypothesis {
          DecideInAt(actions, e, i);
          if !actions[i].decided {
            actions := actions[i := actions[i].(decided := true, approved := e.approved, user := e.user,
                                                decidedAt := e.at)];
          }
          return;
        }
        i := i + 1;
      }
      DecideInNone(actions, e);
    }
  }

  lemma {:induction false} DecideInAt(actions: seq<DestructiveAction>, e: Event, i: nat)
    requires e.ActionDecided? && i < |actions| && actions[i].hypothesis == e.hypothesis
    requires forall k :: 0 <= k < i ==> actions[k].hypothesis != e.hypothesis
    ensures DecideIn(actions, e) == actions[i := Decide(actions[i], e)]
  {
    if i > 0 {
      DecideInAt(actions[1..], e, i - 1);
    }
  }

  lemma {:induction false} DecideInNone(actions: seq<DestructiveAction>, e: Event)
    requires e.ActionDecided? && forall k :: 0 <= k < |actions| ==> actions[k].hypothesis != e.hypothesis
    ensures DecideIn(actions, e) == actions
  {
    if actions != [] {
      DecideInNone(actions[1..], e);
    }
  }
}
