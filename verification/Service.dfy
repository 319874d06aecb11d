/** The orchestration service: each call updates the rows and appends to the log step by step, inside one
    transaction that is rolled back when it fails. Every method is proved against the function of module
    Engine that says what the call does to the rows. */
module Service {
  import opened Core
  import opened Routing
  import opened Validation
  import opened Facts
  import opened Store
  import D = Database
  import E = Engine
  import Preservation
  import Runs

  /** What a signal or resubmit answers: whether its key had been seen, and the active activities. */
  datatype SignalOutcome = SignalOutcome(replayed: bool, active: seq<nat>)

  /** A call succeeded with the rows the specification names, or failed with its error. */
  predicate Meets<T>(r: Result<T>, rows: D.Db, spec: Result<D.Db>) {
    match spec
    case Ok(d) => r.Ok? && rows == d
    case Err(e) => r.Err? && r.error == e
  }

  /** A call answered with the rows the specification names, or failed with its error. */
  predicate Answers(r: Result<SignalOutcome>, rows: D.Db, spec: Result<(D.Db, bool)>) {
    match spec
    case Ok(answer) => r == Ok(SignalOutcome(answer.1, D.ActiveIds(answer.0.activities))) && rows == answer.0
    case Err(e) => r == Err(e)
  }

  lemma ResubmitIs(env: E.Env, d: D.Db, key: string, visible: bool)
    requires !E.Blank(key) && visible && !D.KeySeen(d, key)
    requires d.status.Completed? && d.result == Some(WorkflowResult.Returned)
    ensures E.Resubmit(env, d, key, visible) == E.Readmit(env, d, key)
  {
  }

  class WorkflowService {
    const env: E.Env

    constructor (cfg: E.Config, cel: Cel)
      ensures env == E.Env(cfg, cel)
    {
      env := E.Env(cfg, cel);
    }

    // ---------------------------------------------------------------- helpers

    method CheckRound(db: WorkflowStore, round: int) returns (r: Result<()>)
      ensures r == if round > E.RoundLimit(env, db.def) then Err(Conflict) else Ok(())
    {
      var hard := env.cfg.HardLimit();
      var declared := if db.def.maxRound > 0 then db.def.maxRound else hard;
      var effective := if declared < hard then declared else hard;
      r := if round > effective then Err(Conflict) else Ok(());
    }

    /** The round after the highest one, if there is one left. */
    method NextRound(db: WorkflowStore) returns (r: Result<int>)
      ensures r == E.NextRound(env, db.View())
    {
      var highest := db.MaxRound();
      var _ :- CheckRound(db, highest + 1);
      return Ok(highest + 1);
    }

    method ResolveTarget(db: WorkflowStore, activity: Option<nat>) returns (r: Result<nat>)
      ensures r == E.TargetActivity(db.View(), activity)
    {
      match activity {
        case Some(a) =>
          if a >= |db.activities| {
            return Err(NotFound);
          }
          if !db.activities[a].status.Active? {
            return Err(Conflict);
          }
          return Ok(a);
        case None =>
          var active := D.ActiveIds(db.activities);
          if |active| == 0 {
            return Err(Conflict);
          }
          if |active| > 1 {
            return Err(Validation);
          }
          return Ok(active[0]);
      }
    }

    /** Collects the declared keys from the patch, failing on the first one missing. */
    method FilterPatch(keys: seq<string>, patch: Context) returns (r: Result<Context>)
      ensures r == if E.PatchCovers(keys, patch) then Ok(map k | k in keys && k in patch :: patch[k])
              else Err(Validation)
    {
      var filtered: Context := map[];
      for i := 0 to |keys|
        invariant forall j :: 0 <= j < i ==> keys[j] in patch
        invariant filtered.Keys == set j | 0 <= j < i :: keys[j]
        invariant forall k :: k in filtered ==> k in patch && filtered[k] == patch[k]
      {
        if keys[i] !in patch {
          return Err(Validation);
        }
        filtered := filtered[keys[i] := patch[keys[i]]];
      }
      assert filtered == map k | k in keys && k in patch :: patch[k];
      return Ok(filtered);
    }

    method ApplyContextWrites(db: WorkflowStore, node: Node, round: int, patch: Option<Context>) returns (r: Result<()>)
      modifies db
      ensures Meets(r, db.View(), E.ApplyContextWrites(old(db.View()), node, round, patch))
    {
      if node.contextWrites == [] {
        return Ok(());
      }
      if patch.None? {
        return Err(Validation);
      }
      var filtered :- FilterPatch(node.contextWrites, patch.value);
      db.MergeContext(filtered);
      db.Append(ContextUpdated(node.id, node.contextWrites, round), None);
      return Ok(());
    }

    method CompleteActivity(db: WorkflowStore, a: nat, result: Option<ActivityResult>, actor: int,
                            notes: Option<string>)
      returns (r: Result<()>)
      modifies db
      ensures Meets(r, db.View(), E.FinishActivity(old(db.View()), a, result, actor, notes))
    {
      var done := db.CompleteActivity(a, result, actor, notes);
      if !done {
        return Err(Conflict);
      }
      db.CancelTimers(a);
      db.Append(ActivityCompleted(a, result, false), None);
      return Ok(());
    }

    /** Row, fact, timers, and for a Notification node its delivery intent. */
    method ScheduleActivity(db: WorkflowStore, node: Node, role: Option<Role>, round: int, via: Via)
      returns (r: Result<nat>)
      modifies db
      ensures match E.ScheduleActivity(old(db.View()), node, role, round, via)
              case Ok((d, a)) => r == Ok(a) && db.View() == d
              case Err(e) => r == Err(e)
    {
      if node.config.SubWorkflow? {
        return Err(Validation);
      }
      var a := db.InsertActivity(node.id, InstantiatedType(node.config), role, round);
      db.Append(ActivityScheduled(a, node.id, round, role, via), None);
      if node.SlaSeconds().Some? {
        db.ScheduleTimer(a, TimerKind.Reminder);
      }
      if node.EscalationConfig().Some? {
        db.ScheduleTimer(a, TimerKind.Escalation);
      }
      if node.TimeoutSeconds().Some? {
        db.ScheduleTimer(a, TimerKind.Timeout);
      }
      if node.config.Notification? {
        db.Enqueue(a, OutboxKind.Notify);
      }
      return Ok(a);
    }

    method FailInstance(db: WorkflowStore)
      modifies db
      ensures db.View() == E.FailInstance(old(db.View()))
    {
      db.ErrorWorkflow();
      db.Append(Fact.Errored, None);
    }

    // ---------------------------------------------------------------- applying an outcome

    method AppendMerges(db: WorkflowStore, from: NodeId, merges: seq<NodeId>, round: int)
      modifies db
      ensures db.View() == E.AppendMerges(old(db.View()), from, merges, round)
    {
      for i := 0 to |merges|
        invariant E.AppendMerges(db.View(), from, merges[i..], round)
                  == E.AppendMerges(old(db.View()), from, merges, round)
      {
        assert merges[i..][0] == merges[i] && merges[i..][1..] == merges[i + 1..];
        db.Append(MergePassed(from, merges[i], round), None);
      }
      assert merges[|merges|..] == [];
    }

    method CompleteInstance(db: WorkflowStore, result: WorkflowResult) returns (r: Result<()>)
      modifies db
      ensures Meets(r, db.View(), E.CompleteInstance(env, old(db.View()), result))
    {
      var done := db.CompleteWorkflow(result);
      if !done {
        return Err(Conflict);
      }
      db.Append(Fact.Completed(result), None);
      var callback := D.StartedCallback(db.log);
      if !result.Approved? || callback.None? {
        return Ok(());
      }
      var anchor := E.Anchor(db.activities);
      if anchor.None? {
        return Err(InvalidState);
      }
      if callback.value !in env.cfg.handlers {
        return Err(Validation);
      }
      db.Enqueue(anchor.value, OutboxKind.BusinessCallback);
      return Ok(());
    }

    method HandBack(db: WorkflowStore, target: NodeId, role: Option<Role>, src: nat) returns (r: Result<()>)
      requires src < |db.activities|
      modifies db
      ensures Meets(r, db.View(), E.HandBack(env, old(db.View()), target, role, src))
    {
      var next := NextRound(db);
      if next.Err? {
        FailInstance(db);
        return Err(next.error);
      }
      r := HandBackIn(db, target, role, next.value, db.activities[src].node);
    }

    method HandBackIn(db: WorkflowStore, target: NodeId, role: Option<Role>, round: int, from: NodeId)
      returns (r: Result<()>)
      modifies db
      ensures Meets(r, db.View(), E.HandBackIn(old(db.View()), target, role, round, from))
    {
      var node := FindNode(db.def.nodes, target);
      if node.None? {
        return Err(InvalidState);
      }
      r := EnterRework(db, node.value, role, round, from);
    }

    /** The activity of the new round, and the instance waiting for it. */
    method EnterRework(db: WorkflowStore, node: Node, role: Option<Role>, round: int, from: NodeId)
      returns (r: Result<()>)
      modifies db
      ensures Meets(r, db.View(), E.EnterRework(old(db.View()), node, role, round, from))
    {
      var a :- ScheduleActivity(db, node, role, round, Linear);
      var entered := db.EnterReturnedWaiting(a);
      if !entered {
        return Err(Conflict);
      }
      db.Append(ReturnedToRework(from, node.id, round, a, role), None);
      return Ok(());
    }

    method AdvanceTo(db: WorkflowStore, node: Node, role: Option<Role>, round: int) returns (r: Result<()>)
      modifies db
      ensures Meets(r, db.View(), E.AdvanceTo(old(db.View()), node, role, round))
    {
      var a :- ScheduleActivity(db, node, role, round, Linear);
      db.UpdateCurrent(a);
      return Ok(());
    }

    method ScheduleTargets(db: WorkflowStore, targets: seq<ParallelTarget>, round: int, byForEach: bool)
      returns (r: Result<()>)
      modifies db
      ensures Meets(r, db.View(), E.ScheduleTargets(old(db.View()), targets, round, byForEach))
    {
      for i := 0 to |targets|
        invariant E.ScheduleTargets(db.View(), targets[i..], round, byForEach)
               == E.ScheduleTargets(old(db.View()), targets, round, byForEach)
      {
        assert targets[i..][0] == targets[i] && targets[i..][1..] == targets[i + 1..];
        var node :- E.NodeOf(db.View(), targets[i].node);
        var _ :- ScheduleActivity(db, node, targets[i].role, round, Fanned(byForEach, targets[i].item));
      }
      return Ok(());
    }

    method FanOut(db: WorkflowStore, targets: seq<ParallelTarget>, forEach: Option<FanOut>, src: nat, round: int,
                  fuel: nat)
      returns (r: Result<()>)
      requires src < |db.activities|
      modifies db
      ensures Meets(r, db.View(), E.FanOutTo(env, old(db.View()), targets, forEach, src, round, fuel))
      decreases fuel, 2
    {
      db.ClearCurrent();
      match forEach {
        case Some(fan) =>
          db.Append(ForEachFannedOut(fan.forEachNode, fan.joinTarget, |targets|, round), None);
        case None =>
          db.Append(SplitScheduled(db.activities[src].node, E.NodesOf(targets), round), None);
      }
      if targets == [] && forEach.Some? {
        var join :- E.NodeOf(db.View(), forEach.value.joinTarget);
        r := TrySatisfyJoin(db, join, src, round, None, fuel);
      } else {
        r := ScheduleTargets(db, targets, round, forEach.Some?);
      }
    }

    method BranchReachedJoin(db: WorkflowStore, join: Node, src: nat, round: int, fuel: nat) returns (r: Result<()>)
      requires src < |db.activities|
      modifies db
      ensures Meets(r, db.View(), E.ReachJoin(env, old(db.View()), join, src, round, fuel))
      decreases fuel, 2
    {
      db.Append(Fact.BranchReachedJoin(db.activities[src].node, join.id, round), None);
      r := TrySatisfyJoin(db, join, src, round, Some(src), fuel);
    }

    method TrySatisfyJoin(db: WorkflowStore, join: Node, src: nat, round: int, exclude: Option<nat>, fuel: nat)
      returns (r: Result<()>)
      requires src < |db.activities|
      modifies db
      ensures Meets(r, db.View(), E.TrySatisfyJoin(env, old(db.View()), join, src, round, exclude, fuel))
      decreases fuel, 1
    {
      var strategy := E.StrategyOf(join);
      var expectation :- E.Expectation(db.View(), join.id, round);
      var (expected, branches) := expectation;
      var arrived := db.CountArrived(branches, round);
      if !strategy.IsSatisfied(arrived, expected) {
        db.ClearCurrent();
        return Ok(());
      }
      if fuel == 0 {
        return Err(Diverges);
      }
      SatisfyJoin(db, join, arrived, expected, round, exclude);
      assert E.TrySatisfyJoin(env, old(db.View()), join, src, round, exclude, fuel)
          == E.PassJoin(env, db.View(), join.id, src, round, fuel - 1);
      var (outcome, trace) := DecideAdvance(db.def, env.cel, db.View().Ctx(), join.id, SignalType.Approved);
      r := ApplyOutcome(db, outcome, trace, src, round, fuel - 1);
    }

    method SatisfyJoin(db: WorkflowStore, join: Node, arrived: int, expected: int, round: int, exclude: Option<nat>)
      modifies db
      ensures db.View() == E.SatisfyJoin(old(db.View()), join, arrived, expected, round, exclude)
    {
      db.Append(JoinSatisfied(join.id, arrived, expected, round), None);
      if E.StrategyOf(join).SkipsRemaining() {
        var any := db.SkipOthers(exclude);
        if any {
          db.Append(ActivitySkipped(None), None);
        }
      }
    }

    method ApplyOutcome(db: WorkflowStore, outcome: AdvanceOutcome, trace: ResolveTrace, src: nat, round: int,
                        fuel: nat)
      returns (r: Result<()>)
      requires src < |db.activities|
      modifies db
      ensures Meets(r, db.View(), E.ApplyOutcome(env, old(db.View()), outcome, trace, src, round, fuel))
      decreases fuel, 4
    {
      E.MergesKeepRows(db.View(), db.activities[src].node, trace.merges, round);
      AppendMerges(db, db.activities[src].node, trace.merges, round);
      assert E.ApplyOutcome(env, old(db.View()), outcome, trace, src, round, fuel)
          == E.Dispatch(env, db.View(), outcome, trace.forEach, src, round, fuel);
      match outcome {
        case Advance(target, role) =>
          var node :- E.NodeOf(db.View(), target);
          if node.config.ParallelJoin? {
            r := BranchReachedJoin(db, node, src, round, fuel);
          } else {
            r := AdvanceTo(db, node, role, round);
          }
        case AdvanceMulti(targets) =>
          r := FanOut(db, targets, trace.forEach, src, round, fuel);
        case Complete(result) =>
          r := CompleteInstance(db, result);
        case Rework(target, role) =>
          r := HandBack(db, target, role, src);
        case Error =>
          FailInstance(db);
          r := Ok(());
      }
    }

    // ---------------------------------------------------------------- calls

    method Start(cmd: E.StartCommand) returns (r: Result<WorkflowStore>)
      ensures match E.StartInstance(env, cmd)
              case Ok(d) => r.Ok? && fresh(r.value) && r.value.View() == d
              case Err(e) => r == Err(e)
    {
      var accepted := ValidateDefinition(cmd.def, env.cel);
      if !accepted {
        return Err(Validation);
      }
      var entry := DecideStart(cmd.def.nodes);
      if entry.None? {
        return Err(Validation);
      }
      if cmd.callback.Some? && (cmd.callback.value == "" || cmd.callback.value !in env.cfg.handlers) {
        return Err(Validation);
      }
      var db := new WorkflowStore(cmd.def, cmd.context);
      db.Append(Started(cmd.callback), None);
      var node :- E.NodeOf(db.View(), entry.value.id);
      var _ :- AdvanceTo(db, node, entry.value.AssigneeRole(), 1);
      return Ok(db);
    }

    method Signal(db: WorkflowStore, cmd: E.SignalCommand, fuel: nat) returns (r: Result<SignalOutcome>)
      modifies db
      ensures Answers(r, db.View(), E.Signal(env, old(db.View()), cmd, fuel))
    {
      if E.Blank(cmd.key) {
        return Err(Validation);
      }
      if !cmd.visible {
        return Err(NotFound);
      }
      if D.KeySeen(db.View(), cmd.key) {
        return Ok(SignalOutcome(true, D.ActiveIds(db.activities)));
      }
      if db.status.IsTerminal() {
        return Err(Conflict);
      }
      var a :- ResolveTarget(db, cmd.activity);
      var node :- E.NodeOf(db.View(), db.activities[a].node);
      if !E.SignalFits(node, cmd.signal, cmd.eventType) {
        return Err(Validation);
      }
      if E.IsClaim(cmd.signal) {
        db.UpdateAssignee(a, cmd.assignee);
        db.Append(SignalReceived(cmd.signal, a, None, None, cmd.assignee), Some(cmd.key));
      } else {
        var _ :- SettleSignal(db, a, node, cmd);
        var (outcome, trace) := DecideAdvance(db.def, env.cel, db.View().Ctx(), db.activities[a].node, cmd.signal);
        var _ :- ApplyOutcome(db, outcome, trace, a, db.activities[a].round, fuel);
      }
      return Ok(SignalOutcome(false, D.ActiveIds(db.activities)));
    }

    /** Context write-back, the signal's fact, the completion, and the return from waiting. */
    method SettleSignal(db: WorkflowStore, a: nat, node: Node, cmd: E.SignalCommand) returns (r: Result<()>)
      requires a < |db.activities|
      modifies db
      ensures Meets(r, db.View(), E.SettleSignal(old(db.View()), a, node, cmd))
      ensures r.Ok? ==> a < |db.activities|
    {
      var _ :- ApplyContextWrites(db, node, db.activities[a].round, cmd.patch);
      db.Append(SignalReceived(cmd.signal, a, Some(cmd.actor), cmd.notes, None), Some(cmd.key));
      var _ :- CompleteActivity(db, a, E.SignalResult(cmd.signal), cmd.actor, cmd.notes);
      var resumed := db.ResumeFromReturnedWaiting();
      if resumed {
        db.Append(ReworkResumed(db.activities[a].node, db.activities[a].round), None);
      }
      return Ok(());
    }

    method Resubmit(db: WorkflowStore, key: string, visible: bool) returns (r: Result<SignalOutcome>)
      modifies db
      ensures Answers(r, db.View(), E.Resubmit(env, old(db.View()), key, visible))
    {
      if E.Blank(key) {
        return Err(Validation);
      }
      if !visible {
        return Err(NotFound);
      }
      if D.KeySeen(db.View(), key) {
        return Ok(SignalOutcome(true, D.ActiveIds(db.activities)));
      }
      if !(db.status.Completed? && db.result == Some(WorkflowResult.Returned)) {
        return Err(InvalidState);
      }
      ResubmitIs(env, db.View(), key, visible);
      r := Readmit(db, key);
    }

    /** A resubmit that nothing but the round limit or its entry can refuse. */
    method Readmit(db: WorkflowStore, key: string) returns (r: Result<SignalOutcome>)
      modifies db
      ensures Answers(r, db.View(), E.Readmit(env, old(db.View()), key))
    {
      var next := NextRound(db);
      if next.Err? {
        return Err(next.error);
      }
      r := ReadmitIn(db, key, next.value);
    }

    method ReadmitIn(db: WorkflowStore, key: string, round: int) returns (r: Result<SignalOutcome>)
      modifies db
      ensures Answers(r, db.View(), E.Acted(E.Reopen(old(db.View()), key, round)))
    {
      var done := Reopen(db, key, round);
      r := if done.Err? then Err(done.error) else Ok(SignalOutcome(false, D.ActiveIds(db.activities)));
    }

    /** The next round opened, with the entry activity in it. */
    method Reopen(db: WorkflowStore, key: string, round: int) returns (r: Result<()>)
      modifies db
      ensures Meets(r, db.View(), E.Reopen(old(db.View()), key, round))
    {
      var _ := db.ReactivateWorkflow();
      db.Append(Reactivated(round), Some(key));
      var entry := DecideStart(db.def.nodes);
      if entry.None? {
        return Err(Validation);
      }
      var node :- E.NodeOf(db.View(), entry.value.id);
      r := AdvanceTo(db, node, entry.value.AssigneeRole(), round);
    }

    /** One due timer; the answer is whether it acted. */
    method FireTimer(db: WorkflowStore, t: nat, fuel: nat) returns (r: Result<bool>)
      modifies db
      ensures match E.FireTimer(env, old(db.View()), t, fuel)
              case Ok((d, acted)) => r == Ok(acted) && db.View() == d
              case Err(e) => r == Err(e)
    {
      var won := db.MarkTimerFired(t);
      if !won {
        return Ok(false);
      }
      var a, kind := db.timers[t].activity, db.timers[t].kind;
      if db.status.IsTerminal() || !db.View().IsActive(a) {
        return Ok(false);
      }
      var node :- E.NodeOf(db.View(), db.activities[a].node);
      db.Append(Fact.TimerFired(kind, a), None);
      match kind {
        case Reminder =>
          db.Enqueue(a, OutboxKind.NotifyReminder);
        case Escalation =>
          var acted := Escalate(db, a, node);
          return Ok(acted);
        case Timeout =>
          var _ :- TimeOut(db, a, fuel);
      }
      return Ok(true);
    }

    method Escalate(db: WorkflowStore, a: nat, node: Node) returns (acted: bool)
      requires a < |db.activities|
      modifies db
      ensures (db.View(), acted) == E.FireEscalation(old(db.View()), a, node)
    {
      var from := db.activities[a].role;
      match node.EscalationConfig() {
        case None =>
          return false;
        case Some(escalation) =>
          var updated := db.UpdateRole(a, escalation.1);
          if updated {
            db.Append(Escalated(a, from, escalation.1), None);
            db.Enqueue(a, OutboxKind.NotifyEscalation);
          }
          return true;
      }
    }

    method TimeOut(db: WorkflowStore, a: nat, fuel: nat) returns (r: Result<()>)
      requires a < |db.activities|
      modifies db
      ensures Meets(r, db.View(), E.FireTimeout(env, old(db.View()), a, fuel))
    {
      var from, round := db.activities[a].node, db.activities[a].round;
      db.SkipForTimeout(a);
      db.CancelTimers(a);
      db.Append(ActivitySkipped(Some(a)), None);
      var (outcome, trace) := DecideTimeout(db.def, env.cel, db.View().Ctx(), from);
      r := ApplyOutcome(db, outcome, trace, a, round, fuel);
    }

    method OnNotificationDelivered(db: WorkflowStore, a: nat, fuel: nat) returns (r: Result<()>)
      modifies db
      ensures Meets(r, db.View(), E.OnNotificationDelivered(env, old(db.View()), a, fuel))
    {
      if db.status.IsTerminal() || !db.View().IsActive(a) || !db.activities[a].activityType.Notification? {
        return Ok(());
      }
      var _ := db.CompleteActivity(a, None, SYSTEM_ACTOR, None);
      db.CancelTimers(a);
      db.Append(ActivityCompleted(a, None, true), None);
      var (outcome, trace) :=
        DecideAdvance(db.def, env.cel, db.View().Ctx(), db.activities[a].node, SignalType.Completed);
      r := ApplyOutcome(db, outcome, trace, a, db.activities[a].round, fuel);
    }

    // ---------------------------------------------------------------- transactions

    method Dispatch(db: WorkflowStore, step: E.Step, fuel: nat) returns (r: Result<()>)
      modifies db
      ensures Meets(r, db.View(), E.Run(env, old(db.View()), step, fuel))
    {
      match step {
        case SignalStep(cmd) =>
          var _ :- Signal(db, cmd, fuel);
        case ResubmitStep(key, visible) =>
          var _ :- Resubmit(db, key, visible);
        case FireStep(t) =>
          var _ :- FireTimer(db, t, fuel);
        case DeliverStep(a) =>
          var _ :- OnNotificationDelivered(db, a, fuel);
        case CallbackStep =>
          db.MarkSideEffects();
        case DeadLetterStep(a, kind) =>
          db.Append(ActivityFailed(a, kind), None);
      }
      return Ok(());
    }

    /** One call in its transaction: a failing call leaves every row as it was, and every call keeps the
        invariants of the rows. */
    method Execute(db: WorkflowStore, step: E.Step, fuel: nat) returns (r: Result<()>)
      modifies db
      ensures Meets(r, db.View(), E.Run(env, old(db.View()), step, fuel))
      ensures r.Err? ==> db.View() == old(db.View())
      ensures db.View() == E.Commit(env, old(db.View()), step, fuel)
      ensures Preservation.Good(env, old(db.View())) ==> Preservation.Good(env, db.View())
    {
      var before := db.View();
      r := Dispatch(db, step, fuel);
      if r.Err? {
        db.Restore(before);
      }
      if Preservation.Good(env, before) {
        Runs.CommitKeeps(env, before, step, fuel);
      }
    }
  }
}
