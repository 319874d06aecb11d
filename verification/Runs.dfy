/** Safety over whole runs: what holds after a committed start and any sequence of calls, each of which
    committed or was rolled back. */
module Runs {
  import opened Core
  import opened Routing
  import opened Facts
  import opened Replay
  import opened Database
  import opened Engine
  import opened Invariants
  import opened Preservation
  import opened Calls
  import opened Agreement
  import opened Rebuilding

  /** A call that would move the graph of an instance waiting for rework without a signal. */
  predicate Late(d: Db, step: Step) {
    match step
    case FireStep(t) => LateTimer(d, t)
    case DeliverStep(a) => LateDelivery(d, a)
    case _ => false
  }

  /** No call of the run is late. */
  predicate CleanRun(env: Env, d: Db, steps: seq<Step>, fuel: nat) {
    forall i :: 0 <= i < |steps| ==> !Late(RunAll(env, d, steps[..i], fuel), steps[i])
  }

  function Began(env: Env, cmd: StartCommand): Db
    requires StartInstance(env, cmd).Ok?
  {
    StartInstance(env, cmd).value
  }

  // ------------------------------------------------------------------ one call

  lemma DeadLetterAfter(env: Env, d: Db, a: nat, kind: OutboxKind)
    requires Good(env, d)
    ensures After(env, d, OnDeadLetter(d, a, kind))
  {
    MarkerStep(env, d, ActivityFailed(a, kind));
  }

  /** What one call does to the log and the timers. */
  ghost predicate Advances(d: Db, step: Step, d': Db) {
    Follows(d, d') || (step.FireStep? && FireFollows(d, step.timer, d'))
  }

  lemma StayFollows(d: Db)
    ensures Follows(d, d)
  {
  }

  lemma StepKeeps(env: Env, d: Db, step: Step, fuel: nat)
    requires Good(env, d)
    requires Run(env, d, step, fuel).Ok?
    ensures var d' := Run(env, d, step, fuel).value;
            Good(env, d') && Advances(d, step, d')
  {
    match step
    case SignalStep(cmd) => SignalAfter(env, d, cmd, fuel);
    case ResubmitStep(key, visible) => ResubmitAfter(env, d, key, visible);
    case FireStep(t) => FireAfter(env, d, t, fuel);
    case DeliverStep(a) => DeliverAfter(env, d, a, fuel);
    case CallbackStep => InstanceStep(env, d, OnCallbackDelivered(d));
    case DeadLetterStep(a, kind) => DeadLetterAfter(env, d, a, kind);
  }

  lemma CommitKeeps(env: Env, d: Db, step: Step, fuel: nat)
    requires Good(env, d)
    ensures var d' := Commit(env, d, step, fuel);
            Good(env, d') && Advances(d, step, d')
  {
    if Run(env, d, step, fuel).Ok? {
      StepKeeps(env, d, step, fuel);
    } else {
      StayFollows(d);
    }
  }

  lemma AdvancesBasics(d: Db, step: Step, d': Db)
    requires Advances(d, step, d')
    ensures d'.def == d.def && d.log <= d'.log && TimersEvolve(d.timers, d'.timers)
    ensures RowsExtend(d.activities, d'.activities)
  {
  }

  // ------------------------------------------------------------------ all calls

  lemma {:induction false} RunGood(env: Env, d: Db, steps: seq<Step>, fuel: nat)
    requires Good(env, d)
    ensures var d' := RunAll(env, d, steps, fuel);
            && Good(env, d') && d'.def == d.def && d.log <= d'.log && TimersEvolve(d.timers, d'.timers)
            && RowsExtend(d.activities, d'.activities)
  {
    if steps != [] {
      var init, step := steps[..|steps| - 1], steps[|steps| - 1];
      RunGood(env, d, init, fuel);
      var d1 := RunAll(env, d, init, fuel);
      CommitKeeps(env, d1, step, fuel);
      AdvancesBasics(d1, step, RunAll(env, d, steps, fuel));
    }
  }

  lemma {:induction false} RunThen(env: Env, d: Db, a: seq<Step>, b: seq<Step>, fuel: nat)
    ensures RunAll(env, d, a + b, fuel) == RunAll(env, RunAll(env, d, a, fuel), b, fuel)
    decreases |b|
  {
    if b == [] {
      assert a + b == a;
    } else {
      RunThen(env, d, a, b[..|b| - 1], fuel);
      assert (a + b)[..|a + b| - 1] == a + b[..|b| - 1];
    }
  }

  /** Bounded rework: in every reachable state of any definition every round lies between 1 and the
      effective limit, which is at most 20, and hand-backs plus resubmits number the highest round
      minus one. */
  lemma BoundedRework(env: Env, cmd: StartCommand, steps: seq<Step>, fuel: nat)
    requires StartInstance(env, cmd).Ok?
    ensures var d := RunAll(env, Began(env, cmd), steps, fuel);
            && RoundsIn(d.activities, 1, RoundLimit(env, cmd.def))
            && RoundsOpened(d.log) == MaxRound(d.activities) - 1
            && RoundsOpened(d.log) < RoundLimit(env, cmd.def) <= MAX_ROUND_HARD_LIMIT
  {
    StartGood(env, cmd);
    RunGood(env, Began(env, cmd), steps, fuel);
    MaxRoundIsMax(RunAll(env, Began(env, cmd), steps, fuel).activities);
  }

  // ------------------------------------------------------------------ timers

  /** Every logged fire is of a timer that is fired, and no timer's fire is logged twice. */
  predicate FiresOnce(d: Db) {
    && (forall i :: 0 <= i < |d.log| && d.log[i].fact.TimerFired? ==> FiredTimer(d.timers, d.log[i].fact))
    && (forall i, j :: 0 <= i < j < |d.log| && d.log[i].fact.TimerFired? ==> d.log[i].fact != d.log[j].fact)
  }

  predicate FiredTimer(timers: seq<TimerRow>, fact: Fact)
    requires fact.TimerFired?
  {
    exists t :: 0 <= t < |timers| && timers[t] == TimerRow(fact.activity, fact.kind, TimerStatus.Fired)
  }

  lemma FiredTimerStays(timers: seq<TimerRow>, timers': seq<TimerRow>, fact: Fact)
    requires fact.TimerFired? && FiredTimer(timers, fact) && TimersEvolve(timers, timers')
    ensures FiredTimer(timers', fact)
  {
    var t :| 0 <= t < |timers| && timers[t] == TimerRow(fact.activity, fact.kind, TimerStatus.Fired);
    assert timers'[t] == timers[t];
  }

  lemma QuietFiresOnce(d: Db, d': Db)
    requires FiresOnce(d) && AddsNoFire(d.log, d'.log) && TimersEvolve(d.timers, d'.timers)
    ensures FiresOnce(d')
  {
    forall i | 0 <= i < |d'.log| && d'.log[i].fact.TimerFired? ensures FiredTimer(d'.timers, d'.log[i].fact) {
      assert d'.log[i] == d.log[i];
      FiredTimerStays(d.timers, d'.timers, d.log[i].fact);
    }
  }

  lemma FireFiresOnce(d: Db, t: nat, d': Db)
    requires FiresOnce(d) && TimersOk(d.timers, d.activities) && TimersEvolve(d.timers, d'.timers)
    requires FiredBy(d, t, d')
    ensures FiresOnce(d')
  {
    var n := |d.log|;
    forall i | 0 <= i < n && d.log[i].fact.TimerFired? ensures d.log[i].fact != d'.log[n].fact {
      assert FiredTimer(d.timers, d.log[i].fact);
    }
    forall i | 0 <= i < |d'.log| && d'.log[i].fact.TimerFired?
      ensures i <= n && FiredTimer(d'.timers, d'.log[i].fact)
    {
      if i < n {
        assert d'.log[i] == d.log[i];
        FiredTimerStays(d.timers, d'.timers, d.log[i].fact);
      } else if i == n {
        assert d'.timers[t] == TimerRow(d'.log[n].fact.activity, d'.log[n].fact.kind, TimerStatus.Fired);
      }
    }
  }

  lemma {:induction false} RunFiresOnce(env: Env, d: Db, steps: seq<Step>, fuel: nat)
    requires Good(env, d) && FiresOnce(d)
    ensures FiresOnce(RunAll(env, d, steps, fuel))
  {
    if steps != [] {
      var init, step := steps[..|steps| - 1], steps[|steps| - 1];
      RunFiresOnce(env, d, init, fuel);
      RunGood(env, d, init, fuel);
      var d1, d2 := RunAll(env, d, init, fuel), RunAll(env, d, steps, fuel);
      CommitKeeps(env, d1, step, fuel);
      AdvancesBasics(d1, step, d2);
      if AddsNoFire(d1.log, d2.log) {
        QuietFiresOnce(d1, d2);
      } else {
        FireFiresOnce(d1, step.timer, d2);
      }
    }
  }

  lemma AdvanceLog(d: Db, node: Node, role: Option<Role>, round: int)
    requires FindNode(d.def.nodes, node.id) == Some(node) && AdvanceTo(d, node, role, round).Ok?
    ensures AdvanceTo(d, node, role, round).value.log
            == d.log + [Event(MaxNumber(d.log) + 1, ActivityScheduled(|d.activities|, node.id, round, role, Linear),
                              None)]
  {
    ScheduleShape(d, node, role, round, Linear);
  }

  lemma BeganFiresOnce(env: Env, cmd: StartCommand)
    requires StartInstance(env, cmd).Ok?
    ensures FiresOnce(Began(env, cmd))
  {
    var d := Append(NewInstance(cmd.def, cmd.context), Started(cmd.callback), None);
    var entry := DecideStart(cmd.def.nodes).value;
    var node := FindNode(cmd.def.nodes, entry.id).value;
    assert StartInstance(env, cmd) == AdvanceTo(d, node, entry.AssigneeRole(), 1);
    AdvanceLog(d, node, entry.AssigneeRole(), 1);
    NothingFired(Began(env, cmd));
  }

  lemma NothingFired(d: Db)
    requires forall i :: 0 <= i < |d.log| ==> !d.log[i].fact.TimerFired?
    ensures FiresOnce(d)
  {
  }

  /** Timer hygiene: in every reachable state a pending timer belongs to an active activity, an activity
      has at most one timer of each kind, and each timer's fire is logged at most once, only for a timer
      that is fired and stays so. */
  lemma TimerHygiene(env: Env, cmd: StartCommand, steps: seq<Step>, fuel: nat)
    requires StartInstance(env, cmd).Ok?
    ensures var d := RunAll(env, Began(env, cmd), steps, fuel);
            TimersOk(d.timers, d.activities) && FiresOnce(d)
  {
    StartGood(env, cmd);
    BeganFiresOnce(env, cmd);
    RunGood(env, Began(env, cmd), steps, fuel);
    RunFiresOnce(env, Began(env, cmd), steps, fuel);
  }

  /** A timer that fired or was cancelled is as it was after every later call. */
  lemma SettledTimersStay(env: Env, cmd: StartCommand, before: seq<Step>, after: seq<Step>, fuel: nat, t: nat)
    requires StartInstance(env, cmd).Ok?
    requires var d := RunAll(env, Began(env, cmd), before, fuel); t < |d.timers| && !d.timers[t].status.Pending?
    ensures var d := RunAll(env, Began(env, cmd), before, fuel);
            var d' := RunAll(env, d, after, fuel);
            t < |d'.timers| && d'.timers[t] == d.timers[t] && FireTimer(env, d', t, fuel) == Ok((d', false))
  {
    StartGood(env, cmd);
    RunGood(env, Began(env, cmd), before, fuel);
    RunGood(env, RunAll(env, Began(env, cmd), before, fuel), after, fuel);
  }

  // ------------------------------------------------------------------ at-least-once callers

  /** Every reachable log is numbered 1..n without gaps and records each idempotency key at most once. */
  lemma LogIsNumberedAndKeyed(env: Env, cmd: StartCommand, steps: seq<Step>, fuel: nat)
    requires StartInstance(env, cmd).Ok?
    ensures LogOk(RunAll(env, Began(env, cmd), steps, fuel).log)
  {
    StartGood(env, cmd);
    RunGood(env, Began(env, cmd), steps, fuel);
  }

  lemma KeyStaysSeen(d: Db, d': Db, key: string)
    requires KeySeen(d, key) && d.log <= d'.log
    ensures KeySeen(d', key)
  {
    var i :| 0 <= i < |d.log| && d.log[i].key == Some(key);
    assert d'.log[i] == d.log[i];
  }

  function Xs(n: nat): string {
    seq(n, _ => 'x')
  }

  lemma {:induction false} LongerThanKeys(log: seq<Event>) returns (n: nat)
    ensures forall i :: 0 <= i < |log| && log[i].key.Some? ==> |log[i].key.value| < n
  {
    if log == [] {
      n := 0;
    } else {
      var last := log[|log| - 1].key;
      n := LongerThanKeys(log[..|log| - 1]);
      if last.Some? && |last.value| >= n {
        n := |last.value| + 1;
      }
    }
  }

  lemma UnseenKey(d: Db) returns (key: string)
    ensures !KeySeen(d, key) && !Blank(key)
  {
    var n := LongerThanKeys(d.log);
    key := Xs(n + 1);
    assert key[0] == 'x';
  }

  lemma AppendedKeySeen(d: Db, fact: Fact, key: string)
    ensures KeySeen(Append(d, fact, Some(key)), key)
  {
    var d' := Append(d, fact, Some(key));
    assert d'.log[|d.log|].key == Some(key);
  }

  lemma SignalRecordsKey(env: Env, d: Db, cmd: SignalCommand, fuel: nat)
    requires Good(env, d) && Signal(env, d, cmd, fuel).Ok?
    ensures KeySeen(Signal(env, d, cmd, fuel).value.0, cmd.key)
  {
    if !KeySeen(d, cmd.key) {
      var d' := Signal(env, d, cmd, fuel).value.0;
      var a := TargetActivity(d, cmd.activity).value;
      var node := NodeOf(d, d.activities[a].node).value;
      if IsClaim(cmd.signal) {
        AppendedKeySeen(UpdateAssignee(d, a, cmd.assignee), SignalReceived(cmd.signal, a, None, None, cmd.assignee),
                        cmd.key);
      } else {
        SettleAfter(env, d, a, node, cmd);
        SettleRecordsKey(env, d, a, node, cmd);
        var d1 := SettleSignal(d, a, node, cmd).value;
        MoveOnAfter(env, d1, a, cmd.signal, fuel);
        KeyStaysSeen(d1, d', cmd.key);
      }
    }
  }

  lemma SettleRecordsKey(env: Env, d: Db, a: nat, node: Node, cmd: SignalCommand)
    requires Good(env, d) && d.IsActive(a) && !KeySeen(d, cmd.key) && !IsClaim(cmd.signal)
    requires SettleSignal(d, a, node, cmd).Ok?
    ensures KeySeen(SettleSignal(d, a, node, cmd).value, cmd.key)
  {
    ContextAfter(env, d, node, d.activities[a].round, cmd.patch, cmd.key);
    var d1 := ApplyContextWrites(d, node, d.activities[a].round, cmd.patch).value;
    var d2 := ReviewShape(d1, a, cmd);
    var d3 := Review(d1, a, cmd).value;
    AppendedKeySeen(d1, SignalReceived(cmd.signal, a, Some(cmd.actor), cmd.notes, None), cmd.key);
    KeyStaysSeen(d2, d3, cmd.key);
    KeyStaysSeen(d3, ResumeIfWaiting(d3, a), cmd.key);
  }

  lemma ResubmitRecordsKey(env: Env, d: Db, key: string, visible: bool)
    requires Resubmit(env, d, key, visible).Ok?
    ensures KeySeen(Resubmit(env, d, key, visible).value.0, key)
  {
    if !KeySeen(d, key) {
      var d1, entry, node := ResubmitShape(env, d, key, visible);
      var round := MaxRound(d.activities) + 1;
      AppendedKeySeen(ReactivateWorkflow(d).0, Reactivated(round), key);
      AdvanceLog(d1, node, entry.AssigneeRole(), round);
      KeyStaysSeen(d1, Resubmit(env, d, key, visible).value.0, key);
    }
  }

  /** Resending a signal that committed, after any further calls, is answered as a replay and changes
      nothing, whatever else the resent command carries. */
  lemma ResentSignalIsNoOp(env: Env, d: Db, sent: SignalCommand, between: seq<Step>, resent: SignalCommand, fuel: nat)
    requires Good(env, d) && Signal(env, d, sent, fuel).Ok?
    requires resent.key == sent.key && resent.visible
    ensures var d' := RunAll(env, Signal(env, d, sent, fuel).value.0, between, fuel);
            Signal(env, d', resent, fuel) == Ok((d', true)) && Resubmit(env, d', sent.key, true) == Ok((d', true))
  {
    SignalAfter(env, d, sent, fuel);
    SignalRecordsKey(env, d, sent, fuel);
    RunGood(env, Signal(env, d, sent, fuel).value.0, between, fuel);
    KeyStaysSeen(Signal(env, d, sent, fuel).value.0,
                 RunAll(env, Signal(env, d, sent, fuel).value.0, between, fuel), sent.key);
  }

  lemma ResentResubmitIsNoOp(env: Env, d: Db, key: string, between: seq<Step>, fuel: nat)
    requires Good(env, d) && Resubmit(env, d, key, true).Ok?
    ensures var d' := RunAll(env, Resubmit(env, d, key, true).value.0, between, fuel);
            Resubmit(env, d', key, true) == Ok((d', true))
  {
    ResubmitAfter(env, d, key, true);
    ResubmitRecordsKey(env, d, key, true);
    RunGood(env, Resubmit(env, d, key, true).value.0, between, fuel);
    KeyStaysSeen(Resubmit(env, d, key, true).value.0,
                 RunAll(env, Resubmit(env, d, key, true).value.0, between, fuel), key);
  }

  // ------------------------------------------------------------------ replay refinement

  lemma CommitTells(env: Env, d: Db, step: Step, fuel: nat, exact: bool)
    requires Tells(d, exact) && StatusOk(d.status) && (exact ==> !Late(d, step))
    ensures Tells(Commit(env, d, step, fuel), exact)
  {
    match step
    case SignalStep(cmd) => SignalTells(env, d, cmd, fuel, exact);
    case ResubmitStep(key, visible) => ResubmitTells(env, d, key, visible, exact);
    case FireStep(t) => FireTells(env, d, t, fuel, exact);
    case DeliverStep(a) => DeliverTells(env, d, a, fuel, exact);
    case CallbackStep =>
    case DeadLetterStep(a, kind) => SilentTells(d, ActivityFailed(a, kind), None, exact);
  }

  lemma CleanInit(env: Env, d: Db, steps: seq<Step>, fuel: nat)
    requires steps != [] && CleanRun(env, d, steps, fuel)
    ensures CleanRun(env, d, steps[..|steps| - 1], fuel)
  {
    var init := steps[..|steps| - 1];
    forall i | 0 <= i < |init| ensures !Late(RunAll(env, d, init[..i], fuel), init[i]) {
      assert init[..i] == steps[..i];
    }
  }

  lemma {:induction false} RunTells(env: Env, d: Db, steps: seq<Step>, fuel: nat, exact: bool)
    requires Good(env, d) && Tells(d, exact) && (exact ==> CleanRun(env, d, steps, fuel))
    ensures Tells(RunAll(env, d, steps, fuel), exact)
  {
    if steps != [] {
      var init, step := steps[..|steps| - 1], steps[|steps| - 1];
      if exact {
        CleanInit(env, d, steps, fuel);
      }
      RunTells(env, d, init, fuel, exact);
      RunGood(env, d, init, fuel);
      CommitTells(env, RunAll(env, d, init, fuel), step, fuel, exact);
    }
  }

  lemma RunTold(env: Env, cmd: StartCommand, steps: seq<Step>, fuel: nat)
    requires StartInstance(env, cmd).Ok?
    ensures Told(RunAll(env, Began(env, cmd), steps, fuel))
  {
    StartGood(env, cmd);
    StartTells(env, cmd);
    RunTells(env, Began(env, cmd), steps, fuel, false);
  }

  /** Replay in every run, late calls included. The first record of every id is the activity row, the surplus is one
      record per hand-back in order, which nothing but a join's skip has touched, and the result agrees. The status
      agrees exactly unless the instance waits for rework and work was scheduled, or an error recorded, since the
      hand-back. The current activity agrees exactly unless, since the last fact about it, a join has gone on waiting,
      or that fact scheduled it while the instance was waiting for rework. */
  lemma ReplayInEveryRun(env: Env, cmd: StartCommand, steps: seq<Step>, fuel: nat)
    requires StartInstance(env, cmd).Ok?
    ensures var d := RunAll(env, Began(env, cmd), steps, fuel);
            var records := FoldActivities(d.def, d.log);
            && Primary(records) == d.activities
            && Surplus(records) == Extras(d.def, d.log) && IdsOf(Surplus(records)) == ReworkIds(d.log)
            && FoldInstance(d.log).result == d.result
            && (d.status.ReturnedWaiting? <==> Waiting(d.log))
            && (FoldInstance(d.log).status == d.status <==> !(Waiting(d.log) && Stirred(d.log)))
            && (FoldInstance(d.log).current == d.current <==> !ClearedByJoin(d.log) && !MovedOnPaper(d.log))
  {
    RunTold(env, cmd, steps, fuel);
    var d := RunAll(env, Began(env, cmd), steps, fuel);
    ExtrasAreHandBacks(d.def, d.log);
    StatusExactly(d);
    CurrentExactly(d);
  }

  /** In a run without late calls the status always agrees, and the current activity does exactly unless a join
      that went on waiting has cleared the row since the last fact about it. */
  lemma ReplayWithRework(env: Env, cmd: StartCommand, steps: seq<Step>, fuel: nat)
    requires StartInstance(env, cmd).Ok? && CleanRun(env, Began(env, cmd), steps, fuel)
    ensures var d := RunAll(env, Began(env, cmd), steps, fuel);
            && Told(d) && FoldInstance(d.log).status == d.status
            && (FoldInstance(d.log).current == d.current <==> !ClearedByJoin(d.log))
            && (ClearedByJoin(d.log) ==> HasJoin(cmd.def))
  {
    StartGood(env, cmd);
    StartTells(env, cmd);
    RunGood(env, Began(env, cmd), steps, fuel);
    RunTells(env, Began(env, cmd), steps, fuel, true);
    var d := RunAll(env, Began(env, cmd), steps, fuel);
    StatusExactly(d);
    CurrentExactly(d);
    ClearedHasJoin(d.def, d.activities, d.log);
  }

  lemma ClearedHasJoin(def: Definition, acts: seq<Activity>, log: seq<Event>)
    requires LogSensible(def, acts, log)
    ensures ClearedByJoin(log) ==> HasJoin(def)
  {
    if ClearedByJoin(log) {
      var q: nat, p: nat :| q < p < |log| && LastTouch(log, q) && Points(log[q].fact) && WaitedAt(log, p);
      assert Sensible(def, acts, log[p].fact);
    }
  }

  /** Without a hand-back no instance ever waits for rework. */
  lemma {:induction false} NoHandBackNoWaiting(log: seq<Event>)
    requires ReworkIds(log) == []
    ensures !Waiting(log) && !MovedOnPaper(log)
  {
    if log != [] {
      var init, e := log[..|log| - 1], log[|log| - 1];
      assert log == init + [e];
      NoHandBackNoWaiting(init);
      MovedPush(init, e);
    }
  }

  /** Replay refinement: over any accepted definition, in every run without a hand-back, folding the log
      yields exactly the activity rows and the instance's status and result; the current activity too,
      unless a join cleared the row. */
  lemma ReplayRefinement(env: Env, cmd: StartCommand, steps: seq<Step>, fuel: nat)
    requires StartInstance(env, cmd).Ok?
    requires ReworkIds(RunAll(env, Began(env, cmd), steps, fuel).log) == []
    ensures var d := RunAll(env, Began(env, cmd), steps, fuel);
            && FoldActivities(d.def, d.log) == d.activities
            && FoldInstance(d.log).status == d.status
            && FoldInstance(d.log).result == d.result
            && (FoldInstance(d.log).current == d.current <==> !ClearedByJoin(d.log))
            && (!HasJoin(cmd.def) ==> FoldInstance(d.log).current == d.current)
  {
    ReplayInEveryRun(env, cmd, steps, fuel);
    RunTold(env, cmd, steps, fuel);
    StartGood(env, cmd);
    RunGood(env, Began(env, cmd), steps, fuel);
    var d := RunAll(env, Began(env, cmd), steps, fuel);
    NoHandBackNoWaiting(d.log);
    ClearedHasJoin(d.def, d.activities, d.log);
    assert |IdsOf(Surplus(FoldActivities(d.def, d.log)))| == 0;
    NoSurplusIsPrimary(FoldActivities(d.def, d.log));
  }
}
