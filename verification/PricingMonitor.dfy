/**
 Canary decisions about switching providers. Evaluators read a decision, judge one window and
 commit by compare-and-swap; operators act on decisions the same way. Verdicts are inputs.
 */
module PricingMonitor {
  import opened Base

  datatype Status = OnHold | Recommended | Canary | Active | Degraded | RolledBack

  datatype Verdict = Healthy | Unhealthy | Inconclusive

  datatype Automatic = NoAction | Activate | Rollback

  datatype Mode = Observe | CanaryMode | Balanced | CostFirst | OtherMode

  datatype Policy = Policy(automatic: bool, mode: Mode, promotionCount: int, degradationCount: int)

  datatype Decision = Decision(
    id: string, status: Status, confident: bool, canaryPercent: int,
    healthyCount: int, degradedCount: int, lastVerdict: Option<Verdict>,
    lastWindowEnd: Option<Time>, monitoringStartedAt: Option<Time>, lastHealthyAt: Option<Time>,
    lastAutomatic: Automatic, updatedAt: Time)

  datatype Evaluation = Evaluation(decisionId: string, windowEnd: Time, verdict: Verdict, action: Automatic)

  /** Stored decisions and the committed evaluations in the order of their commits. */
  datatype Board = Board(decisions: map<string, Decision>, log: seq<Evaluation>)

  datatype Action = ApproveCanary | ActivateNow | RollBackNow | PutOnHold

  predicate AutomaticAllowed(p: Policy)
  {
    p.automatic && (p.mode == CanaryMode || p.mode == Balanced || p.mode == CostFirst)
  }

  // ---- One evaluation, computed from a read decision ----

  function StartedAt(d: Decision): Time
  {
    if d.monitoringStartedAt.Some? then d.monitoringStartedAt.value else d.updatedAt
  }

  /** The window is complete after monitoring began and after the last judged one. */
  predicate Due(d: Decision, windowEnd: Time)
  {
    windowEnd > StartedAt(d) && (d.lastWindowEnd.Some? ==> windowEnd > d.lastWindowEnd.value)
  }

  function Counted(d: Decision, p: Policy, verdict: Verdict, now: Time): Decision
  {
    match verdict
    case Healthy => d.(healthyCount := Min(d.healthyCount + 1, Max(p.promotionCount, 1)), degradedCount := 0,
        lastHealthyAt := Some(now))
    case Unhealthy => d.(degradedCount := Min(d.degradedCount + 1, Max(p.degradationCount, 1)), healthyCount := 0)
    case Inconclusive => d.(healthyCount := 0, degradedCount := 0)
  }

  function ActionFor(was: Status, d: Decision, p: Policy, verdict: Verdict): Automatic
  {
    if !AutomaticAllowed(p) then NoAction
    else if was == Canary && verdict == Healthy && d.healthyCount >= p.promotionCount then Activate
    else if (was == Canary || was == Active) && verdict == Unhealthy && d.degradedCount >= p.degradationCount
        then Rollback
    else NoAction
  }

  function Judged(d: Decision, p: Policy, windowEnd: Time, verdict: Verdict, now: Time): Decision
  {
    var counted := Counted(d, p, verdict, now);
    var action := ActionFor(d.status, counted, p, verdict);
    counted.(
      lastVerdict := Some(verdict), lastWindowEnd := Some(windowEnd), monitoringStartedAt := Some(StartedAt(d)),
      status := if action == Activate then Active else if action == Rollback then RolledBack else d.status,
      lastAutomatic := if action == NoAction then d.lastAutomatic else action,
      updatedAt := now)
  }

  function EvaluationOf(d: Decision, p: Policy, windowEnd: Time, verdict: Verdict, now: Time): Evaluation
  {
    Evaluation(d.id, windowEnd, verdict, ActionFor(d.status, Counted(d, p, verdict, now), p, verdict))
  }

  // ---- Operator actions ----

  /** The decision after an operator's action; None when the action is refused. */
  function ActedOn(d: Decision, action: Action, percent: int, billingHealthy: bool, now: Time): Option<Decision>
  {
    if (action == ApproveCanary || action == ActivateNow) && !billingHealthy then None
    else
      match action
      case ApproveCanary =>
        if d.status != Recommended || !d.confident || percent > 100 then None
        else Some(d.(status := Canary, canaryPercent := if percent > 0 then percent else d.canaryPercent,
                     healthyCount := 0, degradedCount := 0, lastVerdict := None, lastWindowEnd := Some(now),
                     monitoringStartedAt := Some(now), lastHealthyAt := None, lastAutomatic := NoAction,
                         updatedAt := now))
      case ActivateNow => if d.status != Canary then None else Some(d.(status := Active, updatedAt := now))
      case RollBackNow =>
        if d.status != Canary && d.status != Active && d.status != Degraded then None
            else Some(d.(status := RolledBack, updatedAt := now))
      case PutOnHold => Some(d.(status := OnHold, updatedAt := now))
  }

  // ---- Commits ----

  /** The stored decision is still the one that was read, as far as status and time tell. */
  predicate Unchanged(b: Board, read: Decision)
  {
    read.id in b.decisions && b.decisions[read.id].status == read.status &&
        b.decisions[read.id].updatedAt == read.updatedAt
  }

  predicate AlreadyJudged(log: seq<Evaluation>, id: string, windowEnd: Time)
  {
    exists i :: 0 <= i < |log| && log[i].decisionId == id && log[i].windowEnd == windowEnd
  }

  datatype Step =
    | Propose(decision: Decision)
    | Act(read: Decision, action: Action, percent: int, billingHealthy: bool, now: Time)
    | Judge(read: Decision, policy: Policy, windowEnd: Time, verdict: Verdict, now: Time)

  predicate Judges(b: Board, step: Step)
  {
    && step.Judge? && (step.read.status == Canary || step.read.status == Active) && Due(step.read, step.windowEnd)
    && Unchanged(b, step.read) && !AlreadyJudged(b.log, step.read.id, step.windowEnd)
  }

  function Apply(b: Board, step: Step): Board
  {
    match step
    case Propose(d) => if d.id in b.decisions then b else b.(decisions := b.decisions[d.id := d])
    case Act(read, action, percent, billingHealthy, now) =>
      var next := ActedOn(read, action, percent, billingHealthy, now);
      if next.Some? && Unchanged(b, read) then b.(decisions := b.decisions[read.id := next.value]) else b
    case Judge(read, policy, windowEnd, verdict, now) =>
      if Judges(b, step)
      then Board(b.decisions[read.id := Judged(read, policy, windowEnd, verdict, now)],
          b.log + [EvaluationOf(read, policy, windowEnd, verdict, now)])
      else b
  }

  /** A new decision is recommended or on hold and has never been monitored. */
  predicate Fresh(d: Decision)
  {
    && (d.status == Recommended || d.status == OnHold) && d.healthyCount == 0 && d.degradedCount == 0
    && d.lastWindowEnd.None? && d.monitoringStartedAt.None?
  }

  /** Board and every decision value it ever stored. */
  datatype World = World(board: Board, seen: set<Decision>)

  /** Reads return a value stored at some time; an update that succeeds carries a later time than the stored one. */
  ghost predicate Enabled(w: World, step: Step)
  {
    match step
    case Propose(d) => Fresh(d)
    case Act(read, _, _, _, now) => read in w.seen && (Unchanged(w.board, read) ==> now > read.updatedAt)
    case Judge(read, _, _, _, now) => read in w.seen && (Unchanged(w.board, read) ==> now > read.updatedAt)
  }

  ghost function Next(w: World, step: Step): World
  {
    var b := Apply(w.board, step);
    World(b, w.seen + b.decisions.Values)
  }

  // ---- The windows judged for a decision ----

  /** Evaluations of one decision in commit order. Approval happens once and before all of them. */
  function History(log: seq<Evaluation>, id: string): seq<Evaluation>
    decreases |log|
  {
    if log == [] then []
    else
      var last := log[|log| - 1];
      History(log[..|log| - 1], id) + (if last.decisionId == id then [last] else [])
  }

  /** How many of the latest windows have this verdict without a break. */
  function Streak(h: seq<Evaluation>, v: Verdict): nat
    decreases |h|
  {
    if h == [] || h[|h| - 1].verdict != v then 0 else 1 + Streak(h[..|h| - 1], v)
  }

  lemma {:induction false} StreakMeans(h: seq<Evaluation>, v: Verdict)
    ensures Streak(h, v) <= |h|
    ensures forall i :: |h| - Streak(h, v) <= i < |h| ==> h[i].verdict == v
    decreases |h|
  {
    if h != [] && h[|h| - 1].verdict == v {
      StreakMeans(h[..|h| - 1], v);
    }
  }

  lemma HistoryAppend(log: seq<Evaluation>, e: Evaluation, id: string)
    ensures History(log + [e], id) == History(log, id) + (if e.decisionId == id then [e] else [])
  {
    assert (log + [e])[..|log|] == log;
  }

  lemma StreakAppend(h: seq<Evaluation>, e: Evaluation, v: Verdict)
    ensures Streak(h + [e], v) == if e.verdict == v then Streak(h, v) + 1 else 0
  {
    assert (h + [e])[..|h|] == h;
  }

  ghost predicate WindowsIncrease(h: seq<Evaluation>)
  {
    forall i, j :: 0 <= i < j < |h| ==> h[i].windowEnd < h[j].windowEnd
  }

  /** What a stored decision says about the windows judged for it. */
  ghost predicate Faithful(d: Decision, h: seq<Evaluation>)
  {
    && 0 <= d.healthyCount <= Streak(h, Healthy) && 0 <= d.degradedCount <= Streak(h, Unhealthy)
    && WindowsIncrease(h)
    && (d.status == Canary || d.status == Active || h != [] ==> d.monitoringStartedAt.Some? && d.lastWindowEnd.Some?)
    && (d.status == Recommended ==> h == [])
    && (d.lastWindowEnd.Some? ==> forall i :: 0 <= i < |h| ==> h[i].windowEnd <= d.lastWindowEnd.value)
    && (d.monitoringStartedAt.Some? ==> forall i :: 0 <= i < |h| ==> h[i].windowEnd > d.monitoringStartedAt.value)
  }

  ghost predicate DecisionsFaithful(b: Board)
  {
    forall id :: id in b.decisions ==> b.decisions[id].id == id && Faithful(b.decisions[id], History(b.log, id))
  }

  ghost predicate LogKnown(b: Board)
  {
    forall i :: 0 <= i < |b.log| ==> b.log[i].decisionId in b.decisions
  }

  /** Every value ever read is older than the stored one or is the stored one. */
  ghost predicate SeenOlder(w: World)
  {
    forall d :: d in w.seen ==>
      d.id in w.board.decisions && d.updatedAt <= w.board.decisions[d.id].updatedAt &&
      (d.updatedAt == w.board.decisions[d.id].updatedAt ==> d == w.board.decisions[d.id])
  }

  ghost predicate Invariant(w: World)
  {
    DecisionsFaithful(w.board) && LogKnown(w.board) && SeenOlder(w)
  }

  /** The compare-and-swap is sound: it succeeds only on the very decision that was read. */
  lemma ReadIsCurrent(w: World, read: Decision)
    requires Invariant(w) && read in w.seen && Unchanged(w.board, read)
    ensures w.board.decisions[read.id] == read && Faithful(read, History(w.board.log, read.id))
  {
  }

  lemma JudgedFaithful(d: Decision, h: seq<Evaluation>, p: Policy, windowEnd: Time, verdict: Verdict, now: Time)
    requires Faithful(d, h) && (d.status == Canary || d.status == Active) && Due(d, windowEnd)
    ensures Faithful(Judged(d, p, windowEnd, verdict, now), h + [EvaluationOf(d, p, windowEnd, verdict, now)])
  {
    hide ActionFor;
    var e := EvaluationOf(d, p, windowEnd, verdict, now);
    StreakAppend(h, e, Healthy);
    StreakAppend(h, e, Unhealthy);
  }

  lemma ActedFaithful(d: Decision, h: seq<Evaluation>, action: Action, percent: int, billingHealthy: bool, now: Time)
    requires Faithful(d, h)
    ensures var r := ActedOn(d, action, percent, billingHealthy, now);
            r.Some? ==> r.value.id == d.id && r.value.updatedAt == now && Faithful(r.value, h)
  {
  }

  lemma UnknownHistory(log: seq<Evaluation>, id: string)
    requires forall i :: 0 <= i < |log| ==> log[i].decisionId != id
    ensures History(log, id) == []
  {
    if log != [] {
      UnknownHistory(log[..|log| - 1], id);
    }
  }

  lemma StepDecisions(w: World, step: Step)
    requires Invariant(w) && Enabled(w, step)
    ensures DecisionsFaithful(Next(w, step).board) && LogKnown(Next(w, step).board)
  {
    hide Faithful, Judged, ActedOn, EvaluationOf, History, SeenOlder;
    var b, b' := w.board, Next(w, step).board;
    match step
    case Propose(d) =>
      if d.id !in b.decisions {
        UnknownHistory(b.log, d.id);
        FreshFaithful(d);
      }
    case Act(read, action, percent, billingHealthy, now) =>
      if Unchanged(b, read) {
        ReadIsCurrent(w, read);
        ActedFaithful(read, History(b.log, read.id), action, percent, billingHealthy, now);
      }
    case Judge(read, policy, windowEnd, verdict, now) =>
      if Judges(b, step) {
        ReadIsCurrent(w, read);
        JudgedFaithful(read, History(b.log, read.id), policy, windowEnd, verdict, now);
        JudgedNames(read, policy, windowEnd, verdict, now);
        forall id | id in b'.decisions
          ensures b'.decisions[id].id == id && Faithful(b'.decisions[id], History(b'.log, id))
        {
          HistoryAppend(b.log, EvaluationOf(read, policy, windowEnd, verdict, now), id);
          assert History(b.log, id) + [] == History(b.log, id);
        }
      }
  }

  lemma FreshFaithful(d: Decision)
    requires Fresh(d)
    ensures Faithful(d, [])
  {
  }

  lemma JudgedNames(d: Decision, p: Policy, windowEnd: Time, verdict: Verdict, now: Time)
    ensures Judged(d, p, windowEnd, verdict, now).id == d.id && Judged(d, p, windowEnd, verdict, now).updatedAt == now
    ensures EvaluationOf(d, p, windowEnd, verdict, now).decisionId == d.id
    ensures EvaluationOf(d, p, windowEnd, verdict, now).windowEnd == windowEnd
  {
  }

  /** A step leaves a stored decision alone or replaces it by one with a later time. */
  lemma StepLater(w: World, step: Step, id: string)
    requires Invariant(w) && Enabled(w, step) && id in w.board.decisions
    ensures var b := Next(w, step).board;
            id in b.decisions &&
                (b.decisions[id] == w.board.decisions[id] ||
                    b.decisions[id].updatedAt > w.board.decisions[id].updatedAt)
  {
    hide Faithful, Judged, ActedOn, EvaluationOf, History;
    if step.Judge? {
      JudgedNames(step.read, step.policy, step.windowEnd, step.verdict, step.now);
    } else if step.Act? {
      ActedNames(step.read, step.action, step.percent, step.billingHealthy, step.now);
    }
  }

  lemma ActedNames(d: Decision, action: Action, percent: int, billingHealthy: bool, now: Time)
    ensures var r := ActedOn(d, action, percent, billingHealthy, now); r.Some? ==>
              r.value.id == d.id && r.value.updatedAt == now
  {
  }

  lemma StepInvariant(w: World, step: Step)
    requires Invariant(w) && Enabled(w, step)
    ensures Invariant(Next(w, step))
  {
    hide Faithful, Apply, Enabled, History;
    StepDecisions(w, step);
    var w' := Next(w, step);
    forall d | d in w'.seen
      ensures d.id in w'.board.decisions && d.updatedAt <= w'.board.decisions[d.id].updatedAt &&
              (d.updatedAt == w'.board.decisions[d.id].updatedAt ==> d == w'.board.decisions[d.id])
    {
      if d in w.seen {
        StepLater(w, step, d.id);
      }
    }
  }

  ghost predicate Run(w: World, steps: seq<Step>, w': World)
    decreases |steps|
  {
    if steps == [] then w' == w else Enabled(w, steps[0]) && Run(Next(w, steps[0]), steps[1..], w')
  }

  const START := World(Board(map[], []), {})

  lemma {:induction false} RunInvariant(w: World, steps: seq<Step>, w': World)
    requires Invariant(w) && Run(w, steps, w')
    ensures Invariant(w')
    decreases |steps|
  {
    hide Invariant, Enabled, Next;
    if steps != [] {
      StepInvariant(w, steps[0]);
      RunInvariant(Next(w, steps[0]), steps[1..], w');
    }
  }

  /** The last n windows judged for the decision all have this verdict. */
  ghost predicate LastAll(h: seq<Evaluation>, v: Verdict, n: int)
  {
    n <= |h| && forall i :: 0 <= |h| - n <= i < |h| ==> h[i].verdict == v
  }

  lemma StreakLastAll(h: seq<Evaluation>, v: Verdict, n: int)
    requires n <= Streak(h, v)
    ensures LastAll(h, v, n)
  {
    StreakMeans(h, v);
  }

  /**
   In every run, with any policies, operators and concurrent evaluators: a commit that activates
   comes right after at least the promotion count of consecutive healthy windows since approval,
   a commit that rolls back after the degradation count of consecutive unhealthy ones.
   */
  lemma AutomaticJustified(steps: seq<Step>, w: World, step: Step)
    requires Run(START, steps, w) && Enabled(w, step) && Judges(w.board, step)
    ensures var h := History(Next(w, step).board.log, step.read.id);
            var e := EvaluationOf(step.read, step.policy, step.windowEnd, step.verdict, step.now);
            && h != [] && h[|h| - 1] == e
            && (e.action == Activate ==>
                   step.read.status == Canary && LastAll(h, Healthy, Max(step.policy.promotionCount, 1)))
            && (e.action == Rollback ==> LastAll(h, Unhealthy, Max(step.policy.degradationCount, 1)))
  {
    hide Run, Faithful, Enabled, Due, AlreadyJudged, DecisionsFaithful, LogKnown, SeenOlder, LastAll, Streak, History;
    RunInvariant(START, steps, w) by { StartInvariant(); }
    StepCounts(w, step);
    var h := History(Next(w, step).board.log, step.read.id);
    var d := Judged(step.read, step.policy, step.windowEnd, step.verdict, step.now);
    StreakLastAll(h, Healthy, d.healthyCount);
    StreakLastAll(h, Unhealthy, d.degradedCount);
  }

  lemma StartInvariant()
    ensures Invariant(START)
  {
  }

  lemma StepCounts(w: World, step: Step)
    requires Invariant(w) && Enabled(w, step) && Judges(w.board, step)
    ensures var h := History(Next(w, step).board.log, step.read.id);
            var d := Judged(step.read, step.policy, step.windowEnd, step.verdict, step.now);
            && 0 <= d.healthyCount <= Streak(h, Healthy) && 0 <= d.degradedCount <= Streak(h, Unhealthy)
            && h == History(w.board.log, step.read.id) + [EvaluationOf(step.read, step.policy, step.windowEnd,
                 step.verdict, step.now)]
            && 0 <= step.read.healthyCount && 0 <= step.read.degradedCount
  {
    hide Enabled, Due, AlreadyJudged, DecisionsFaithful, LogKnown, SeenOlder, History, Streak;
    assert step.read in w.seen by { JudgeReads(w, step); }
    ReadIsCurrent(w, step.read);
    var e := EvaluationOf(step.read, step.policy, step.windowEnd, step.verdict, step.now);
    assert Due(step.read, step.windowEnd);
    JudgedFaithful(step.read, History(w.board.log, step.read.id), step.policy, step.windowEnd, step.verdict, step.now);
    HistoryAppend(w.board.log, e, step.read.id);
  }

  lemma JudgeReads(w: World, step: Step)
    requires Enabled(w, step) && step.Judge?
    ensures step.read in w.seen
  {
  }

  /** In every reachable state the windows judged for a decision strictly increase, so none is counted twice. */
  lemma WindowsStrictlyIncrease(steps: seq<Step>, w: World, id: string)
    requires Run(START, steps, w) && id in w.board.decisions
    ensures WindowsIncrease(History(w.board.log, id))
    ensures w.board.decisions[id].monitoringStartedAt.Some? ==>
              forall i :: 0 <= i < |History(w.board.log, id)| ==>
                  History(w.board.log, id)[i].windowEnd > w.board.decisions[id].monitoringStartedAt.value
  {
    hide Run, History, Streak;
    RunInvariant(START, steps, w) by { StartInvariant(); }
  }

  // ---- Exactly when a decision changes status ----

  /** The step judges under these window counts, whatever its mode and switch. */
  predicate UsesCounts(step: Step, promotion: int, degradation: int)
  {
    step.Judge? ==> step.policy.promotionCount == promotion && step.policy.degradationCount == degradation
  }

  /** Under fixed counts the counters are the streaks, cut at what is needed. */
  ghost predicate Counting(b: Board, promotion: int, degradation: int)
  {
    forall id :: id in b.decisions ==>
      && b.decisions[id].healthyCount == Min(Streak(History(b.log, id), Healthy), Max(promotion, 1))
      && b.decisions[id].degradedCount == Min(Streak(History(b.log, id), Unhealthy), Max(degradation, 1))
  }

  predicate CountsAre(d: Decision, healthy: nat, degraded: nat, promotion: int, degradation: int)
  {
    d.healthyCount == Min(healthy, Max(promotion, 1)) && d.degradedCount == Min(degraded, Max(degradation, 1))
  }

  lemma JudgedCounts(d: Decision, h: seq<Evaluation>, p: Policy, windowEnd: Time, verdict: Verdict, now: Time)
    requires CountsAre(d, Streak(h, Healthy), Streak(h, Unhealthy), p.promotionCount, p.degradationCount)
    ensures var t := h + [EvaluationOf(d, p, windowEnd, verdict, now)];
            CountsAre(Judged(d, p, windowEnd, verdict, now), Streak(t, Healthy), Streak(t, Unhealthy), p.promotionCount,
                p.degradationCount)
  {
    hide ActionFor, Streak;
    var e := EvaluationOf(d, p, windowEnd, verdict, now);
    StreakAppend(h, e, Healthy);
    StreakAppend(h, e, Unhealthy);
  }

  lemma ActedCounts(d: Decision, h: seq<Evaluation>, action: Action, percent: int, billingHealthy: bool, now: Time,
      promotion: int, degradation: int)
    requires Faithful(d, h) && CountsAre(d, Streak(h, Healthy), Streak(h, Unhealthy), promotion, degradation)
    ensures var r := ActedOn(d, action, percent, billingHealthy, now);
            r.Some? ==> CountsAre(r.value, Streak(h, Healthy), Streak(h, Unhealthy), promotion, degradation)
  {
  }

  lemma StepCounting(w: World, step: Step, promotion: int, degradation: int)
    requires Invariant(w) && Enabled(w, step) && Counting(w.board, promotion, degradation)
    requires UsesCounts(step, promotion, degradation)
    ensures Counting(Next(w, step).board, promotion, degradation)
  {
    hide Faithful, Judged, ActedOn, EvaluationOf, History, Streak, SeenOlder;
    var b, b' := w.board, Next(w, step).board;
    match step
    case Propose(d) =>
      if d.id !in b.decisions {
        UnknownHistory(b.log, d.id);
        NoStreak(Healthy);
        NoStreak(Unhealthy);
      }
    case Act(read, action, percent, billingHealthy, now) =>
      if Unchanged(b, read) {
        ReadIsCurrent(w, read);
        ActedCounts(read, History(b.log, read.id), action, percent, billingHealthy, now, promotion, degradation);
      }
    case Judge(read, policy, windowEnd, verdict, now) =>
      if Judges(b, step) {
        ReadIsCurrent(w, read);
        JudgedCounts(read, History(b.log, read.id), policy, windowEnd, verdict, now);
        JudgedNames(read, policy, windowEnd, verdict, now);
        forall id | id in b'.decisions
          ensures b'.decisions[id].healthyCount == Min(Streak(History(b'.log, id), Healthy), Max(promotion, 1))
          ensures b'.decisions[id].degradedCount == Min(Streak(History(b'.log, id), Unhealthy), Max(degradation, 1))
        {
          HistoryAppend(b.log, EvaluationOf(read, policy, windowEnd, verdict, now), id);
          assert History(b.log, id) + [] == History(b.log, id);
        }
      }
  }

  lemma NoStreak(v: Verdict)
    ensures Streak([], v) == 0
  {
  }

  lemma {:induction false} RunCounting(w: World, steps: seq<Step>, w': World, promotion: int, degradation: int)
    requires Invariant(w) && Run(w, steps, w') && Counting(w.board, promotion, degradation)
    requires forall i :: 0 <= i < |steps| ==> UsesCounts(steps[i], promotion, degradation)
    ensures Counting(w'.board, promotion, degradation)
    decreases |steps|
  {
    hide Invariant, Enabled, Next, Counting, UsesCounts;
    if steps != [] {
      StepInvariant(w, steps[0]);
      StepCounting(w, steps[0], promotion, degradation);
      RunCounting(Next(w, steps[0]), steps[1..], w', promotion, degradation);
    }
  }

  lemma {:induction false} LastAllStreak(h: seq<Evaluation>, v: Verdict, n: nat)
    requires LastAll(h, v, n)
    ensures Streak(h, v) >= n
  {
    if n > 0 {
      var init := h[..|h| - 1];
      assert h[|h| - 1].verdict == v;
      assert forall i :: 0 <= i < |init| ==> init[i] == h[i];
      LastAllStreak(init, v, n - 1);
    }
  }

  lemma StreakExactly(h: seq<Evaluation>, v: Verdict, n: nat)
    ensures LastAll(h, v, n) <==> Streak(h, v) >= n
  {
    hide LastAll;
    if LastAll(h, v, n) {
      LastAllStreak(h, v, n);
    }
    if Streak(h, v) >= n {
      StreakLastAll(h, v, n);
    }
  }

  /** How one judgement changes the status, in terms of the counters after it. */
  lemma JudgedStatus(d: Decision, p: Policy, windowEnd: Time, verdict: Verdict, now: Time)
    requires d.status == Canary || d.status == Active
    ensures var r, e := Judged(d, p, windowEnd, verdict, now), EvaluationOf(d, p, windowEnd, verdict, now);
            var acts := p.automatic && p.mode in {CanaryMode, Balanced, CostFirst};
            var up := acts && d.status == Canary && verdict == Healthy && r.healthyCount >= p.promotionCount;
            var down := acts && verdict == Unhealthy && r.degradedCount >= p.degradationCount;
            && r.status == (if up then Active else if down then RolledBack else d.status)
            && e.action == (if up then Activate else if down then Rollback else NoAction)
            && r.lastAutomatic == (if up then Activate else if down then Rollback else d.lastAutomatic)
            && e.verdict == verdict && e.windowEnd == windowEnd && e.decisionId == d.id
  {
  }

  /** Nobody changed the decision since it was read, and the window is complete, newer than the last one and new. */
  ghost predicate Timely(b: Board, read: Decision, windowEnd: Time)
  {
    && read.id in b.decisions && b.decisions[read.id].status == read.status
    && b.decisions[read.id].updatedAt == read.updatedAt
    && (if read.monitoringStartedAt.Some? then read.monitoringStartedAt.value < windowEnd
        else read.updatedAt < windowEnd)
    && (read.lastWindowEnd.None? || read.lastWindowEnd.value < windowEnd)
    && forall e :: e in b.log && e.decisionId == read.id ==> e.windowEnd != windowEnd
  }

  lemma JudgesExactly(b: Board, step: Step)
    requires step.Judge? && (step.read.status == Canary || step.read.status == Active)
    ensures Judges(b, step) <==> Timely(b, step.read, step.windowEnd)
  {
    if AlreadyJudged(b.log, step.read.id, step.windowEnd) {
      var i :| 0 <= i < |b.log| && b.log[i].decisionId == step.read.id && b.log[i].windowEnd == step.windowEnd;
      assert b.log[i] in b.log;
    }
  }

  /**
   In every run under fixed window counts a judgement makes a canary active exactly when automatic
   actions are on and the last windows, this one included, are all healthy and as many as promotion
   needs; it rolls back exactly in the degraded counterpart; otherwise the status stays. The log says
   which of the three it was.
   */
  lemma StatusExactly(steps: seq<Step>, w: World, step: Step, promotion: int, degradation: int)
    requires Run(START, steps, w) && Enabled(w, step) && step.Judge?
    requires (step.read.status == Canary || step.read.status == Active) && Timely(w.board, step.read, step.windowEnd)
    requires UsesCounts(step, promotion, degradation)
    requires forall i :: 0 <= i < |steps| ==> UsesCounts(steps[i], promotion, degradation)
    ensures var id, b := step.read.id, Next(w, step).board;
            var h := History(b.log, id);
            var acts := step.policy.automatic && step.policy.mode in {CanaryMode, Balanced, CostFirst};
            var up := acts && w.board.decisions[id].status == Canary && LastAll(h, Healthy, Max(promotion, 1));
            var down := acts && LastAll(h, Unhealthy, Max(degradation, 1));
            && id in w.board.decisions && id in b.decisions && h != []
            && b.decisions[id].status == (if up then Active else if down then RolledBack
                 else w.board.decisions[id].status)
            && h[|h| - 1].action == (if up then Activate else if down then Rollback else NoAction)
            && h[|h| - 1].verdict == step.verdict
  {
    hide Run, Faithful, Due, AlreadyJudged, DecisionsFaithful, LogKnown, SeenOlder, LastAll, Streak, History, Judged,
         EvaluationOf, UsesCounts, Timely;
    JudgesExactly(w.board, step);
    RunInvariant(START, steps, w) by { StartInvariant(); }
    RunCounting(START, steps, w, promotion, degradation) by { StartInvariant(); }
    JudgeReads(w, step);
    ReadIsCurrent(w, step.read);
    var read, p := step.read, step.policy;
    var d, e := Judged(read, p, step.windowEnd, step.verdict, step.now),
        EvaluationOf(read, p, step.windowEnd, step.verdict, step.now);
    JudgedStatus(read, p, step.windowEnd, step.verdict, step.now);
    HistoryAppend(w.board.log, e, read.id);
    var h := History(w.board.log, read.id) + [e];
    SameCounts(step, promotion, degradation);
    JudgedCounts(read, History(w.board.log, read.id), p, step.windowEnd, step.verdict, step.now);
    StreakExactly(h, Healthy, Max(promotion, 1));
    StreakExactly(h, Unhealthy, Max(degradation, 1));
    StreakAppend(History(w.board.log, read.id), e, Healthy);
    StreakAppend(History(w.board.log, read.id), e, Unhealthy);
  }

  lemma SameCounts(step: Step, promotion: int, degradation: int)
    requires step.Judge? && UsesCounts(step, promotion, degradation)
    ensures step.policy.promotionCount == promotion && step.policy.degradationCount == degradation
  {
  }

  /** The action fits the decision's status, and billing is healthy where it must be. */
  predicate Accepts(d: Decision, action: Action, percent: int, billingHealthy: bool)
  {
    || (action == ApproveCanary && d.status == Recommended && d.confident && percent <= 100 && billingHealthy)
    || (action == ActivateNow && d.status == Canary && billingHealthy)
    || (action == RollBackNow && d.status in {Canary, Active, Degraded})
    || action == PutOnHold
  }

  /** Operators: which action is accepted in which status, and what it writes. */
  lemma ActedExactly(d: Decision, action: Action, percent: int, billingHealthy: bool, now: Time)
    ensures var r := ActedOn(d, action, percent, billingHealthy, now);
            && (r.Some? <==> Accepts(d, action, percent, billingHealthy))
            && (r.Some? ==>
                  && r.value.id == d.id && r.value.updatedAt == now
                  && r.value.status == map[ApproveCanary := Canary, ActivateNow := Active, RollBackNow := RolledBack,
                                           PutOnHold := OnHold][action])
            && (r.Some? && action == ApproveCanary ==>
                  && r.value.healthyCount == 0 && r.value.degradedCount == 0
                  && r.value.lastWindowEnd == Some(now) && r.value.monitoringStartedAt == Some(now)
                  && r.value.canaryPercent == (if percent > 0 then percent else d.canaryPercent))
            && (r.Some? && action != ApproveCanary ==> r.value == d.(status := r.value.status, updatedAt := now))
  {
  }

  // ---- The repository and the service ----

  class PricingBoard {
    var decisions: map<string, Decision>
    var log: seq<Evaluation>
    ghost var seen: set<Decision>

    constructor ()
      ensures Invariant(State())
    {
      decisions, log, seen := map[], [], {};
    }

    ghost function State(): World
      reads this
    {
      World(Board(decisions, log), seen)
    }

    method UpdateDecision(d: Decision, expectedStatus: Status, expectedUpdatedAt: Time) returns (updated: bool)
      modifies this`decisions
      ensures updated == (d.id in old(decisions) && old(decisions)[d.id].status == expectedStatus &&
                old(decisions)[d.id].updatedAt == expectedUpdatedAt)
      ensures decisions == if updated then old(decisions)[d.id := d] else old(decisions)
    {
      if d.id !in decisions || decisions[d.id].status != expectedStatus ||
          decisions[d.id].updatedAt != expectedUpdatedAt {
        return false;
      }
      decisions := decisions[d.id := d];
      return true;
    }

    method CommitEvaluation(e: Evaluation, d: Decision, expectedStatus: Status,
        expectedUpdatedAt: Time)
      returns (applied: bool)
      modifies this`decisions, this`log
      ensures applied == (&& d.id in old(decisions) && old(decisions)[d.id].status == expectedStatus &&
                old(decisions)[d.id].updatedAt == expectedUpdatedAt
                          && !AlreadyJudged(old(log), e.decisionId, e.windowEnd))
      ensures decisions == (if applied then old(decisions)[d.id := d] else old(decisions))
      ensures log == (if applied then old(log) + [e] else old(log))
    {
      if d.id !in decisions || decisions[d.id].status != expectedStatus ||
          decisions[d.id].updatedAt != expectedUpdatedAt {
        return false;
      }
      for i := 0 to |log|
        invariant forall k :: 0 <= k < i ==> !(log[k].decisionId == e.decisionId && log[k].windowEnd == e.windowEnd)
      {
        if log[i].decisionId == e.decisionId && log[i].windowEnd == e.windowEnd {
          return false;
        }
      }
      log := log + [e];
      decisions := decisions[d.id := d];
      return true;
    }

    /** Count the verdict on a copy of the decision and choose the automatic action. */
    method JudgeWindow(read: Decision, p: Policy, windowEnd: Time, verdict: Verdict, now: Time)
      returns (updated: Decision, evaluation: Evaluation)
      requires read.status == Canary || read.status == Active
      ensures updated == Judged(read, p, windowEnd, verdict, now)
      ensures evaluation == EvaluationOf(read, p, windowEnd, verdict, now)
    {
      var started := if read.monitoringStartedAt.Some? then read.monitoringStartedAt.value else read.updatedAt;
      updated := read.(lastVerdict := Some(verdict), lastWindowEnd := Some(windowEnd),
          monitoringStartedAt := Some(started));
      match verdict {
        case Healthy =>
          updated := updated.(healthyCount := Min(updated.healthyCount + 1, Max(p.promotionCount, 1)),
              degradedCount := 0, lastHealthyAt := Some(now));
        case Unhealthy =>
          updated := updated.(degradedCount := Min(updated.degradedCount + 1, Max(p.degradationCount, 1)),
              healthyCount := 0);
        case Inconclusive =>
          updated := updated.(healthyCount := 0, degradedCount := 0);
      }
      var action := NoAction;
      if AutomaticAllowed(p) {
        if read.status == Canary && verdict == Healthy && updated.healthyCount >= p.promotionCount {
          updated := updated.(status := Active, lastAutomatic := Activate);
          action := Activate;
        } else if verdict == Unhealthy && updated.degradedCount >= p.degradationCount {
          updated := updated.(status := RolledBack, lastAutomatic := Rollback);
          action := Rollback;
        }
      }
      updated := updated.(updatedAt := now);
      evaluation := Evaluation(read.id, windowEnd, verdict, action);
    }

    /** Judge one window of a decision read earlier, and commit it unless the decision moved on. */
    method EvaluateWindow(read: Decision, p: Policy, windowEnd: Time, verdict: Verdict,
        now: Time)
      returns (applied: bool)
      requires Invariant(State()) && Enabled(State(), Judge(read, p, windowEnd, verdict, now))
      requires read.status == Canary || read.status == Active
      modifies this
      ensures Invariant(State()) && State() == Next(old(State()), Judge(read, p, windowEnd, verdict, now))
      ensures applied <==> Timely(Board(old(decisions), old(log)), read, windowEnd)
      ensures !applied ==> decisions == old(decisions) && log == old(log)
      ensures applied ==>
                && |log| == |old(log)| + 1 && log[..|old(log)|] == old(log) && log[|old(log)|].decisionId == read.id
                && log[|old(log)|].windowEnd == windowEnd && log[|old(log)|].verdict == verdict
                && decisions.Keys == old(decisions).Keys
                && (forall id :: id in decisions && id != read.id ==> decisions[id] == old(decisions)[id])
    {
      hide Invariant, AlreadyJudged, Judged, EvaluationOf;
      JudgesExactly(State().board, Judge(read, p, windowEnd, verdict, now));
      JudgedStatus(read, p, windowEnd, verdict, now);
      StepInvariant(State(), Judge(read, p, windowEnd, verdict, now));
      SeenStored(State());
      JudgedNames(read, p, windowEnd, verdict, now);
      var started := if read.monitoringStartedAt.Some? then read.monitoringStartedAt.value else read.updatedAt;
      if windowEnd <= started || (read.lastWindowEnd.Some? && windowEnd <= read.lastWindowEnd.value) {
        seen := seen + decisions.Values;
        return false;
      }
      var updated, evaluation := JudgeWindow(read, p, windowEnd, verdict, now);
      applied := CommitEvaluation(evaluation, updated, read.status, read.updatedAt);
      seen := seen + decisions.Values;
    }

    /** An operator's action on a decision read earlier. */
    method ActOn(read: Decision, action: Action, percent: int, billingHealthy: bool, now: Time) returns (updated: bool)
      requires Invariant(State()) && Enabled(State(), Act(read, action, percent, billingHealthy, now))
      modifies this
      ensures Invariant(State()) && State() == Next(old(State()), Act(read, action, percent, billingHealthy, now))
      ensures updated <==>
                && Accepts(read, action, percent, billingHealthy) && read.id in old(decisions)
                && old(decisions)[read.id].status == read.status && old(decisions)[read.id].updatedAt == read.updatedAt
      ensures log == old(log)
      ensures updated ==>
                && decisions.Keys == old(decisions).Keys
                && (forall id :: id in decisions && id != read.id ==> decisions[id] == old(decisions)[id])
                && decisions[read.id].status == map[ApproveCanary := Canary, ActivateNow := Active,
                                                    RollBackNow := RolledBack, PutOnHold := OnHold][action]
      ensures !updated ==> decisions == old(decisions)
    {
      hide Invariant, History;
      ActedExactly(read, action, percent, billingHealthy, now);
      StepInvariant(State(), Act(read, action, percent, billingHealthy, now));
      SeenStored(State());
      ActedNames(read, action, percent, billingHealthy, now);
      var next := ActedOn(read, action, percent, billingHealthy, now);
      updated := false;
      if next.Some? {
        updated := UpdateDecision(next.value, read.status, read.updatedAt);
      }
      seen := seen + decisions.Values;
    }
  }

  lemma SeenStored(w: World)
    requires Invariant(w)
    ensures forall d :: d in w.seen ==> d.id in w.board.decisions
  {
    hide Faithful, History;
  }
}
