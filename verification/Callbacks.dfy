/** The terminal callback over whole runs: owed once an instance is approved, and only then. */
module Callbacks {
  import opened Core
  import opened Routing
  import opened Facts
  import opened Database
  import opened Engine
  import opened Runs
  import opened Effects
  import opened Contexts
  import opened SignalEffects
  import opened CallEffects
  import opened Moves

  predicate IsApproved(d: Db) {
    d.status.Completed? && d.result == Some(WorkflowResult.Approved)
  }

  predicate CallbackAt(outbox: seq<Intent>, i: int) {
    0 <= i < |outbox| && outbox[i].kind.BusinessCallback?
  }

  ghost predicate OwesOne(outbox: seq<Intent>) {
    && (exists i :: CallbackAt(outbox, i))
    && forall i, j :: CallbackAt(outbox, i) && CallbackAt(outbox, j) ==> i == j
  }

  ghost predicate OwesNone(outbox: seq<Intent>) {
    forall i :: !CallbackAt(outbox, i)
  }

  /** The log begins with the callback the instance was started with, which is owed once if the instance is approved. */
  ghost predicate Right(d: Db, callback: Option<string>) {
    && d.log != [] && d.log[0].fact == Started(callback)
    && if IsApproved(d) && callback.Some? then OwesOne(d.outbox) else OwesNone(d.outbox)
  }

  ghost predicate RightAfter(r: Result<Db>, callback: Option<string>) {
    match r
    case Ok(d) => Right(d, callback)
    case Err(_) => true
  }

  /** Nothing that concerns the callback happens. */
  ghost predicate Silent(d: Db, d': Db) {
    && IsApproved(d') == IsApproved(d) && d.log <= d'.log && d.outbox <= d'.outbox
    && forall i :: CallbackAt(d'.outbox, i) ==> i < |d.outbox|
  }

  lemma SilentKeeps(d: Db, d': Db, callback: Option<string>)
    requires Right(d, callback) && Silent(d, d')
    ensures Right(d', callback)
  {
    assert forall i :: CallbackAt(d'.outbox, i) <==> CallbackAt(d.outbox, i);
  }

  // ------------------------------------------------------------------ building blocks

  lemma ScheduleSilent(d: Db, node: Node, role: Option<Role>, round: int, via: Via)
    ensures match ScheduleActivity(d, node, role, round, via)
            case Ok((d', _)) => Silent(d, d') && d'.status == d.status && d'.result == d.result
            case Err(_) => true
  {
  }

  lemma {:induction false} TargetsRight(d: Db, targets: seq<ParallelTarget>, round: int, byForEach: bool,
                                        callback: Option<string>)
    requires Right(d, callback)
    ensures RightAfter(ScheduleTargets(d, targets, round, byForEach), callback)
    decreases |targets|
  {
    if targets != [] && NodeOf(d, targets[0].node).Ok? {
      var node, via := NodeOf(d, targets[0].node).value, Fanned(byForEach, targets[0].item);
      ScheduleSilent(d, node, targets[0].role, round, via);
      if ScheduleActivity(d, node, targets[0].role, round, via).Ok? {
        var d1 := ScheduleActivity(d, node, targets[0].role, round, via).value.0;
        SilentKeeps(d, d1, callback);
        TargetsRight(d1, targets[1..], round, byForEach, callback);
      }
    }
  }

  lemma AdvanceRight(d: Db, node: Node, role: Option<Role>, round: int, callback: Option<string>)
    requires Right(d, callback)
    ensures RightAfter(AdvanceTo(d, node, role, round), callback)
  {
    ScheduleSilent(d, node, role, round, Linear);
    if AdvanceTo(d, node, role, round).Ok? {
      SilentKeeps(d, AdvanceTo(d, node, role, round).value, callback);
    }
  }

  lemma HandBackRight(env: Env, d: Db, target: NodeId, role: Option<Role>, src: nat, callback: Option<string>)
    requires Right(d, callback) && src < |d.activities|
    ensures RightAfter(HandBack(env, d, target, role, src), callback)
  {
    if NextRound(env, d).Ok? && FindNode(d.def.nodes, target).Some? {
      ScheduleSilent(d, FindNode(d.def.nodes, target).value, role, NextRound(env, d).value, Linear);
      if HandBack(env, d, target, role, src).Ok? {
        SilentKeeps(d, HandBack(env, d, target, role, src).value, callback);
      }
    }
  }

  lemma CompletionRight(env: Env, d: Db, result: WorkflowResult, callback: Option<string>)
    requires Right(d, callback)
    ensures RightAfter(CompleteInstance(env, d, result), callback)
  {
    CompletionFinishes(env, d, result);
    var r := CompleteInstance(env, d, result);
    if r.Ok? {
      FinishedRight(d, result, r.value, callback);
    }
  }

  lemma FinishedRight(d: Db, result: WorkflowResult, d': Db, callback: Option<string>)
    requires Right(d, callback) && d.status.Active? && Finishes(d, result, d')
    ensures Right(d', callback)
  {
    assert StartedCallback(d.log) == callback;
    if result.Approved? && callback.Some? {
      var a: nat :| Anchors(d.activities, a) && d'.outbox == Enqueue(d, a, OutboxKind.BusinessCallback).outbox;
      var owed := Intent(a, OutboxKind.BusinessCallback);
      if owed in d.outbox {
        var i :| 0 <= i < |d.outbox| && d.outbox[i] == owed;
        assert CallbackAt(d.outbox, i);
      } else {
        assert d'.outbox == d.outbox + [owed] && CallbackAt(d'.outbox, |d.outbox|);
        forall i | CallbackAt(d'.outbox, i) ensures i == |d.outbox| {
          assert i < |d.outbox| ==> CallbackAt(d.outbox, i);
        }
      }
    }
  }

  // ------------------------------------------------------------------ moving the graph

  lemma DispatchRight(env: Env, d: Db, outcome: AdvanceOutcome, forEach: Option<FanOut>, src: nat, round: int,
                      fuel: nat, callback: Option<string>)
    requires Right(d, callback) && src < |d.activities|
    ensures RightAfter(Dispatch(env, d, outcome, forEach, src, round, fuel), callback)
    decreases fuel, 3
  {
    match outcome
    case Advance(target, role) =>
      if NodeOf(d, target).Ok? {
        var node := NodeOf(d, target).value;
        if node.config.ParallelJoin? {
          var d1 := Append(d, Fact.BranchReachedJoin(d.activities[src].node, node.id, round), None);
          SilentKeeps(d, d1, callback);
          TryRight(env, d1, node, src, round, Some(src), fuel, callback);
        } else {
          AdvanceRight(d, node, role, round, callback);
        }
      }
    case AdvanceMulti(targets) => FanOutRight(env, d, targets, forEach, src, round, fuel, callback);
    case Complete(result) => CompletionRight(env, d, result, callback);
    case Rework(target, role) => HandBackRight(env, d, target, role, src, callback);
    case Error => SilentKeeps(d, FailInstance(d), callback);
  }

  lemma FanOutRight(env: Env, d: Db, targets: seq<ParallelTarget>, forEach: Option<FanOut>, src: nat, round: int,
                    fuel: nat, callback: Option<string>)
    requires Right(d, callback) && src < |d.activities|
    ensures RightAfter(FanOutTo(env, d, targets, forEach, src, round, fuel), callback)
    decreases fuel, 2
  {
    var d1 := MarkFanOut(d, targets, forEach, src, round);
    SilentKeeps(d, d1, callback);
    if targets == [] && forEach.Some? {
      if NodeOf(d1, forEach.value.joinTarget).Ok? {
        TryRight(env, d1, NodeOf(d1, forEach.value.joinTarget).value, src, round, None, fuel, callback);
      }
    } else {
      TargetsRight(d1, targets, round, forEach.Some?, callback);
    }
  }

  lemma SatisfySilent(d: Db, join: Node, arrived: int, expected: int, round: int, exclude: Option<nat>)
    ensures var d' := SatisfyJoin(d, join, arrived, expected, round, exclude);
            Silent(d, d') && |d'.activities| == |d.activities|
  {
  }

  lemma TryRight(env: Env, d: Db, join: Node, src: nat, round: int, exclude: Option<nat>, fuel: nat,
                 callback: Option<string>)
    requires Right(d, callback) && src < |d.activities|
    ensures RightAfter(TrySatisfyJoin(env, d, join, src, round, exclude, fuel), callback)
    decreases fuel, 1
  {
    if Expectation(d, join.id, round).Ok? {
      var (expected, branches) := Expectation(d, join.id, round).value;
      var arrived := CountArrived(d.activities, branches, round);
      if !StrategyOf(join).IsSatisfied(arrived, expected) {
        SilentKeeps(d, ClearCurrent(d), callback);
      } else if fuel > 0 {
        SatisfySilent(d, join, arrived, expected, round, exclude);
        var d1 := SatisfyJoin(d, join, arrived, expected, round, exclude);
        SilentKeeps(d, d1, callback);
        var (outcome, trace) := DecideAdvance(d1.def, env.cel, d1.Ctx(), join.id, SignalType.Approved);
        ApplyRight(env, d1, outcome, trace, src, round, fuel - 1, callback);
      }
    }
  }

  lemma ApplyRight(env: Env, d: Db, outcome: AdvanceOutcome, trace: ResolveTrace, src: nat, round: int, fuel: nat,
                   callback: Option<string>)
    requires Right(d, callback) && src < |d.activities|
    ensures RightAfter(ApplyOutcome(env, d, outcome, trace, src, round, fuel), callback)
    decreases fuel, 4
  {
    MergesKeepRows(d, d.activities[src].node, trace.merges, round);
    MergesLogged(d, d.activities[src].node, trace.merges, round);
    var d1 := AppendMerges(d, d.activities[src].node, trace.merges, round);
    SilentKeeps(d, d1, callback);
    DispatchRight(env, d1, outcome, trace.forEach, src, round, fuel, callback);
  }

  // ------------------------------------------------------------------ calls

  lemma SignalRight(env: Env, d: Db, cmd: SignalCommand, fuel: nat, callback: Option<string>)
    requires Right(d, callback)
    ensures RightAfter(Run(env, d, SignalStep(cmd), fuel), callback)
  {
    var r := Signal(env, d, cmd, fuel);
    if r.Ok? && !r.value.1 {
      if cmd.signal.Claimed? || cmd.signal.Reassigned? {
        var _, _ := ClaimActs(env, d, cmd, fuel);
        SilentKeeps(d, r.value.0, callback);
      } else {
        var a, node, d1 := SignalActs(env, d, cmd, fuel);
        SilentKeeps(d, d1, callback);
        var (outcome, trace) := DecideAdvance(d.def, env.cel, d1.Ctx(), d.activities[a].node, cmd.signal);
        ApplyRight(env, d1, outcome, trace, a, d.activities[a].round, fuel, callback);
      }
    }
  }

  lemma ReplayedSignal(env: Env, d: Db, cmd: SignalCommand, fuel: nat)
    requires Signal(env, d, cmd, fuel).Ok? && Signal(env, d, cmd, fuel).value.1
    ensures Signal(env, d, cmd, fuel).value.0 == d
  {
  }

  lemma ResubmitRight(env: Env, d: Db, key: string, visible: bool, callback: Option<string>)
    requires Right(d, callback)
    ensures match Resubmit(env, d, key, visible)
            case Ok((d', _)) => Right(d', callback)
            case Err(_) => true
  {
    if Resubmit(env, d, key, visible).Ok? && !Resubmit(env, d, key, visible).value.1 {
      var round, entry := NextRound(env, d).value, DecideStart(d.def.nodes).value;
      var d1 := Append(ReactivateWorkflow(d).0, Reactivated(round), Some(key));
      SilentKeeps(d, d1, callback);
      AdvanceRight(d1, NodeOf(d1, entry.id).value, entry.AssigneeRole(), round, callback);
    }
  }

  lemma EscalationSilent(d: Db, t: nat, a: nat, to: Option<Role>, d': Db)
    requires t < |d.timers| && a < |d.activities| && EscalatedBy(d, t, a, to, d')
    ensures Silent(d, d')
  {
  }

  lemma FireRight(env: Env, d: Db, t: nat, fuel: nat, callback: Option<string>)
    requires Right(d, callback)
    ensures match FireTimer(env, d, t, fuel)
            case Ok((d', _)) => Right(d', callback)
            case Err(_) => true
  {
    if t < |d.timers| && d.timers[t].status.Pending? && !d.status.IsTerminal() && d.IsActive(d.timers[t].activity)
       && FindNode(d.def.nodes, d.activities[d.timers[t].activity].node).Some? {
      var a := d.timers[t].activity;
      var node := FindNode(d.def.nodes, d.activities[a].node).value;
      match d.timers[t].kind
      case Timeout =>
        var d1 := DeadlineActs(env, d, t, a, node, fuel);
        SilentKeeps(d, d1, callback);
        var (outcome, trace) := DecideTimeout(d.def, env.cel, d.Ctx(), d.activities[a].node);
        ApplyRight(env, d1, outcome, trace, a, d.activities[a].round, fuel, callback);
      case Reminder =>
        ReminderActs(env, d, t, a, node, fuel);
        SilentKeeps(d, FireTimer(env, d, t, fuel).value.0, callback);
      case Escalation =>
        EscalationActs(env, d, t, a, node, fuel);
        EscalationSilent(d, t, a, EscalatesTo(node.config), FireTimer(env, d, t, fuel).value.0);
        SilentKeeps(d, FireTimer(env, d, t, fuel).value.0, callback);
    } else {
      OverdueActs(env, d, t, fuel);
      if FireTimer(env, d, t, fuel).Ok? {
        SilentKeeps(d, FireTimer(env, d, t, fuel).value.0, callback);
      }
    }
  }

  lemma DeliverRight(env: Env, d: Db, a: nat, fuel: nat, callback: Option<string>)
    requires Right(d, callback)
    ensures RightAfter(OnNotificationDelivered(env, d, a, fuel), callback)
  {
    if !d.status.IsTerminal() && d.IsActive(a) && d.activities[a].activityType.Notification? {
      var d1 := DeliveryActs(env, d, a, fuel);
      SilentKeeps(d, d1, callback);
      var (outcome, trace) := DecideAdvance(d.def, env.cel, d.Ctx(), d.activities[a].node, SignalType.Completed);
      ApplyRight(env, d1, outcome, trace, a, d.activities[a].round, fuel, callback);
    }
  }

  lemma CommitRight(env: Env, d: Db, step: Step, fuel: nat, callback: Option<string>)
    requires Right(d, callback)
    ensures Right(Commit(env, d, step, fuel), callback)
  {
    match step
    case SignalStep(cmd) =>
      if Signal(env, d, cmd, fuel).Ok? && Signal(env, d, cmd, fuel).value.1 {
        ReplayedSignal(env, d, cmd, fuel);
      }
      SignalRight(env, d, cmd, fuel, callback);
    case ResubmitStep(key, visible) => ResubmitRight(env, d, key, visible, callback);
    case FireStep(t) => FireRight(env, d, t, fuel, callback);
    case DeliverStep(a) => DeliverRight(env, d, a, fuel, callback);
    case CallbackStep => SilentKeeps(d, OnCallbackDelivered(d), callback);
    case DeadLetterStep(a, kind) => SilentKeeps(d, OnDeadLetter(d, a, kind), callback);
  }

  // ------------------------------------------------------------------ runs

  lemma {:induction false} RunRight(env: Env, d: Db, steps: seq<Step>, fuel: nat, callback: Option<string>)
    requires Right(d, callback)
    ensures Right(RunAll(env, d, steps, fuel), callback)
  {
    if steps != [] {
      var init := steps[..|steps| - 1];
      RunRight(env, d, init, fuel, callback);
      CommitRight(env, RunAll(env, d, init, fuel), steps[|steps| - 1], fuel, callback);
    }
  }

  lemma FirstLogged(log: seq<Event>, facts: seq<Fact>)
    requires LogsOnly([], log, facts) && facts != []
    ensures log != [] && log[0].fact == facts[0]
  {
    var none: seq<Event> := [];
    assert log[|none| + 0].fact == facts[0];
  }

  lemma FreshRight(cmd: StartCommand, entry: Node, d: Db)
    requires FreshInstance(cmd, entry, d)
    ensures Right(d, cmd.callback) && !d.sideEffects
  {
    FirstLogged(d.log, [Started(cmd.callback), ActivityScheduled(0, entry.id, 1, RoleOf(entry), Linear)]);
  }

  lemma BeganRight(env: Env, cmd: StartCommand)
    requires StartInstance(env, cmd).Ok?
    ensures Right(Began(env, cmd), cmd.callback) && !Began(env, cmd).sideEffects
  {
    StartActs(env, cmd);
    var entry :| IsEntry(cmd.def, entry) && FreshInstance(cmd, entry, Began(env, cmd));
    FreshRight(cmd, entry, Began(env, cmd));
  }

  /** In every run the callback an instance was started with is owed if and only if the instance is approved, and then
      exactly once. */
  lemma CallbackOwedOnce(env: Env, cmd: StartCommand, steps: seq<Step>, fuel: nat)
    requires StartInstance(env, cmd).Ok?
    ensures var d := RunAll(env, Began(env, cmd), steps, fuel);
            if d.status.Completed? && d.result == Some(WorkflowResult.Approved) && cmd.callback.Some?
            then OwesOne(d.outbox) else OwesNone(d.outbox)
  {
    BeganRight(env, cmd);
    RunRight(env, Began(env, cmd), steps, fuel, cmd.callback);
  }

  lemma {:induction false} RunExecutes(env: Env, d: Db, steps: seq<Step>, fuel: nat)
    ensures RunAll(env, d, steps, fuel).sideEffects == (d.sideEffects || CallbackStep in steps)
  {
    if steps != [] {
      var init, step := steps[..|steps| - 1], steps[|steps| - 1];
      RunExecutes(env, d, init, fuel);
      CommitExecutes(env, RunAll(env, d, init, fuel), step, fuel);
      assert steps == init + [step];
    }
  }

  /** In every run the side effects count as executed if and only if a callback has been delivered. */
  lemma ExecutedOnceDelivered(env: Env, cmd: StartCommand, steps: seq<Step>, fuel: nat)
    requires StartInstance(env, cmd).Ok?
    ensures RunAll(env, Began(env, cmd), steps, fuel).sideEffects <==> CallbackStep in steps
  {
    BeganRight(env, cmd);
    RunExecutes(env, Began(env, cmd), steps, fuel);
  }

  lemma CommitExecutes(env: Env, d: Db, step: Step, fuel: nat)
    ensures Commit(env, d, step, fuel).sideEffects == (d.sideEffects || step.CallbackStep?)
  {
    match step
    case SignalStep(cmd) =>
      var r := Signal(env, d, cmd, fuel);
      if r.Ok? && r.value.1 {
        ReplayedSignal(env, d, cmd, fuel);
      } else if r.Ok? && (cmd.signal.Claimed? || cmd.signal.Reassigned?) {
        var _, _ := ClaimActs(env, d, cmd, fuel);
      } else if r.Ok? {
        var a, node, d1 := SignalActs(env, d, cmd, fuel);
        var (outcome, trace) := DecideAdvance(d.def, env.cel, d1.Ctx(), d.activities[a].node, cmd.signal);
        ApplyKeeps(env, d1, outcome, trace, a, d.activities[a].round, fuel);
      }
    case ResubmitStep(key, visible) => ResubmitKeeps(env, d, key, visible);
    case FireStep(t) => FireKeeps(env, d, t, fuel);
    case DeliverStep(a) => DeliverKeeps(env, d, a, fuel);
    case _ =>
  }
}
