/** What the other calls leave: a start, a resubmit, a fired timer of each kind, a delivered notification. */
module CallEffects {
  import opened Core
  import opened Routing
  import opened Validation
  import opened Facts
  import opened Database
  import opened Engine
  import opened Invariants
  import opened Effects
  import opened Contexts
  import opened SignalEffects

  // ------------------------------------------------------------------ start

  /** The entry of a definition: its first Approval in list order. */
  predicate IsEntry(def: Definition, node: Node) {
    exists i :: 0 <= i < |def.nodes| && FirstApprovalAt(def.nodes, i) && def.nodes[i] == node
  }

  lemma EntryIsUnique(def: Definition, x: Node, y: Node)
    requires IsEntry(def, x) && IsEntry(def, y)
    ensures x == y
  {
    var i :| 0 <= i < |def.nodes| && FirstApprovalAt(def.nodes, i) && def.nodes[i] == x;
    var j :| 0 <= j < |def.nodes| && FirstApprovalAt(def.nodes, j) && def.nodes[j] == y;
    assert i == j;
  }

  /** A fresh instance: active at its entry in round 1, with the context and the callback it was started with. */
  ghost predicate FreshInstance(cmd: StartCommand, entry: Node, d: Db) {
    && d.def == cmd.def && d.status.Active? && d.result.None? && !d.sideEffects && d.context == cmd.context
    && d.current == Some(0) && |d.activities| == 1 && FreshFor(d.activities[0], 0, entry, 1)
    && LogsOnly([], d.log, [Started(cmd.callback), ActivityScheduled(0, entry.id, 1, RoleOf(entry), Linear)])
    && TimersSet([], 0, entry, d.timers) && d.outbox == []
  }

  lemma LogsBoth(log: seq<Event>, log1: seq<Event>, log2: seq<Event>, before: seq<Fact>, after: seq<Fact>)
    requires LogsOnly(log, log1, before) && LogsOnly(log1, log2, after)
    ensures LogsOnly(log, log2, before + after)
  {
    forall i | 0 <= i < |before + after|
      ensures log2[|log| + i].fact == (before + after)[i] && log2[|log| + i].key.None?
    {
      if i < |before| {
        assert log1[|log| + i].fact == before[i];
      } else {
        assert log2[|log1| + (i - |before|)].fact == after[i - |before|];
      }
    }
  }

  /** Start exactly: it goes through if and only if the gate accepts the definition, it has an Approval to enter at, and
      the callback, if any, is named and registered; and then leaves a fresh instance. */
  lemma StartActs(env: Env, cmd: StartCommand)
    ensures var r := StartInstance(env, cmd);
            && (r.Ok? <==>
                  && ValidDefinition(cmd.def, env.cel)
                  && (exists i :: 0 <= i < |cmd.def.nodes| && cmd.def.nodes[i].config.Approval?)
                  && (cmd.callback.Some? ==> cmd.callback.value != "" && cmd.callback.value in env.cfg.handlers))
            && (r.Ok? ==> exists entry :: IsEntry(cmd.def, entry) && FreshInstance(cmd, entry, r.value))
            && (r.Err? ==> r == Err(Validation))
  {
    var start := DecideStart(cmd.def.nodes);
    if ValidDefinition(cmd.def, env.cel) && start.Some?
       && (cmd.callback.Some? ==> cmd.callback.value != "" && cmd.callback.value in env.cfg.handlers) {
      StartFresh(env, cmd, start.value);
    }
  }

  lemma StartFresh(env: Env, cmd: StartCommand, entry: Node)
    requires ValidDefinition(cmd.def, env.cel) && DecideStart(cmd.def.nodes) == Some(entry)
    requires cmd.callback.Some? ==> cmd.callback.value != "" && cmd.callback.value in env.cfg.handlers
    ensures StartInstance(env, cmd).Ok? && IsEntry(cmd.def, entry)
    ensures FreshInstance(cmd, entry, StartInstance(env, cmd).value)
  {
    FindNodeIsNode(cmd.def.nodes, entry);
    StartEnters(env, cmd, entry);
    EntryFresh(cmd, entry, Append(NewInstance(cmd.def, cmd.context), Started(cmd.callback), None));
  }

  lemma StartEnters(env: Env, cmd: StartCommand, entry: Node)
    requires ValidDefinition(cmd.def, env.cel) && DecideStart(cmd.def.nodes) == Some(entry)
    requires FindNode(cmd.def.nodes, entry.id) == Some(entry)
    requires cmd.callback.Some? ==> cmd.callback.value != "" && cmd.callback.value in env.cfg.handlers
    ensures StartInstance(env, cmd)
         == AdvanceTo(Append(NewInstance(cmd.def, cmd.context), Started(cmd.callback), None), entry, RoleOf(entry), 1)
  {
  }

  lemma EntryFresh(cmd: StartCommand, entry: Node, d: Db)
    requires d == Append(NewInstance(cmd.def, cmd.context), Started(cmd.callback), None)
    requires FindNode(cmd.def.nodes, entry.id) == Some(entry) && entry.config.Approval?
    ensures var r := AdvanceTo(d, entry, RoleOf(entry), 1);
            r.Ok? && FreshInstance(cmd, entry, r.value)
  {
    OpensExactly(d, entry, 1, Linear);
    var d1 := ScheduleActivity(d, entry, RoleOf(entry), 1, Linear).value.0;
    LogsBoth([], d.log, d1.log, [Started(cmd.callback)], [ActivityScheduled(0, entry.id, 1, RoleOf(entry), Linear)]);
    assert [Started(cmd.callback)] + [ActivityScheduled(0, entry.id, 1, RoleOf(entry), Linear)]
        == [Started(cmd.callback), ActivityScheduled(0, entry.id, 1, RoleOf(entry), Linear)];
  }

  // ------------------------------------------------------------------ resubmit

  /** The instance active again at its entry, in the round after the highest. */
  ghost predicate Reentered(d: Db, key: string, entry: Node, d': Db) {
    var a, round := |d.activities|, MaxRound(d.activities) + 1;
    && d' == d.(status := WorkflowStatus.Active, result := None, current := Some(a), activities := d'.activities,
                log := d'.log, timers := d'.timers, outbox := d'.outbox)
    && |d'.activities| == a + 1 && d.activities <= d'.activities && FreshFor(d'.activities[a], a, entry, round)
    && LogsKeyed(d.log, d'.log, [Reactivated(round), ActivityScheduled(a, entry.id, round, RoleOf(entry), Linear)], 0,
                 key)
    && TimersSet(d.timers, a, entry, d'.timers) && d'.outbox == d.outbox
  }

  lemma KeyedThenPlain(log: seq<Event>, log1: seq<Event>, log2: seq<Event>, keyed: Fact, after: Fact, key: string)
    requires LogsKeyed(log, log1, [keyed], 0, key) && LogsOnly(log1, log2, [after])
    ensures LogsKeyed(log, log2, [keyed, after], 0, key)
  {
    assert log1[|log| + 0].fact == [keyed][0] && log2[|log1| + 0].fact == [after][0];
  }

  lemma EntryDecided(def: Definition, entry: Node)
    requires IsEntry(def, entry)
    ensures DecideStart(def.nodes) == Some(entry)
  {
    var i :| 0 <= i < |def.nodes| && FirstApprovalAt(def.nodes, i) && def.nodes[i] == entry;
    EntryIsUnique(def, DecideStart(def.nodes).value, entry);
  }

  ghost predicate ReentersIf(env: Env, d: Db, key: string, entry: Node, r: Result<(Db, bool)>) {
    if !(d.status.Completed? && d.result == Some(WorkflowResult.Returned)) then r == Err(InvalidState)
    else if MaxRound(d.activities) + 1 > RoundLimit(env, d.def) then r == Err(Conflict)
    else r.Ok? && !r.value.1 && Reentered(d, key, entry, r.value.0)
  }

  /** Resubmit exactly: a fresh key is refused on an instance not completed as returned, and where no round is left;
      otherwise the instance is back at its entry in the next round. */
  lemma ResubmitActs(env: Env, d: Db, key: string, entry: Node)
    requires UniqueIds(d.def.nodes) && TimersOk(d.timers, d.activities) && IsEntry(d.def, entry)
    requires !Blank(key) && !KeySeen(d, key)
    ensures ReentersIf(env, d, key, entry, Resubmit(env, d, key, true))
  {
    var next, r := NextRound(env, d), Resubmit(env, d, key, true);
    ResubmitGoes(env, d, key, next);
    NextRoundIs(env, d);
    EntryDecided(d.def, entry);
    FindNodeIsNode(d.def.nodes, entry);
    ReopenReentersIf(env, d, key, entry, next, r);
  }

  lemma NextRoundIs(env: Env, d: Db)
    ensures NextRound(env, d) == if MaxRound(d.activities) + 1 > RoundLimit(env, d.def) then Err(Conflict)
                                 else Ok(MaxRound(d.activities) + 1)
  {
  }

  lemma ResubmitGoes(env: Env, d: Db, key: string, next: Result<int>)
    requires !Blank(key) && !KeySeen(d, key) && next == NextRound(env, d)
    ensures Resubmit(env, d, key, true)
         == if !(d.status.Completed? && d.result == Some(WorkflowResult.Returned)) then Err(InvalidState)
            else if next.Err? then Err(next.error) else Acted(Reopen(d, key, next.value))
  {
  }

  lemma ReopenReentersIf(env: Env, d: Db, key: string, entry: Node, next: Result<int>, r: Result<(Db, bool)>)
    requires TimersOk(d.timers, d.activities) && FindNode(d.def.nodes, entry.id) == Some(entry)
    requires entry.config.Approval? && DecideStart(d.def.nodes) == Some(entry)
    requires next == if MaxRound(d.activities) + 1 > RoundLimit(env, d.def) then Err(Conflict)
                     else Ok(MaxRound(d.activities) + 1)
    requires r == if !(d.status.Completed? && d.result == Some(WorkflowResult.Returned)) then Err(InvalidState)
                  else if next.Err? then Err(next.error) else Acted(Reopen(d, key, next.value))
    ensures ReentersIf(env, d, key, entry, r)
  {
    if d.status.Completed? && d.result == Some(WorkflowResult.Returned) && next.Ok? {
      ReopenReenters(d, key, entry, next.value);
      assert r == Ok((Reopen(d, key, next.value).value, false));
    }
  }

  lemma ReopenReenters(d: Db, key: string, entry: Node, round: int)
    requires TimersOk(d.timers, d.activities) && FindNode(d.def.nodes, entry.id) == Some(entry)
    requires entry.config.Approval? && DecideStart(d.def.nodes) == Some(entry)
    requires d.status.Completed? && d.result == Some(WorkflowResult.Returned) && round == MaxRound(d.activities) + 1
    ensures var r := Reopen(d, key, round);
            r.Ok? && Reentered(d, key, entry, r.value)
  {
    var d1 := Append(ReactivateWorkflow(d).0, Reactivated(round), Some(key));
    ReopenIs(d, key, entry, round, d1);
    AdvanceReenters(d, key, entry, round, d1);
  }

  lemma AdvanceReenters(d: Db, key: string, entry: Node, round: int, d1: Db)
    requires TimersOk(d.timers, d.activities) && FindNode(d.def.nodes, entry.id) == Some(entry)
    requires entry.config.Approval? && round == MaxRound(d.activities) + 1
    requires d1 == Append(d.(status := WorkflowStatus.Active, result := None), Reactivated(round), Some(key))
    ensures var r := AdvanceTo(d1, entry, RoleOf(entry), round);
            r.Ok? && Reentered(d, key, entry, r.value)
  {
    AdvanceOpens(d1, entry, round);
    ReenteredRows(d, key, entry, d1, AdvanceTo(d1, entry, RoleOf(entry), round).value.(current := d1.current));
  }

  lemma ReopenIs(d: Db, key: string, entry: Node, round: int, d1: Db)
    requires FindNode(d.def.nodes, entry.id) == Some(entry) && DecideStart(d.def.nodes) == Some(entry)
    requires d1 == Append(ReactivateWorkflow(d).0, Reactivated(round), Some(key))
    ensures Reopen(d, key, round) == AdvanceTo(d1, entry, RoleOf(entry), round)
  {
  }

  lemma ReenteredRows(d: Db, key: string, entry: Node, d1: Db, d2: Db)
    requires d1 == Append(d.(status := WorkflowStatus.Active, result := None), Reactivated(MaxRound(d.activities) + 1),
                          Some(key))
    requires Opens(d1, entry, MaxRound(d.activities) + 1, Linear, d2) && entry.config.Approval?
    ensures Reentered(d, key, entry, d2.(current := Some(|d.activities|)))
  {
    var round := MaxRound(d.activities) + 1;
    KeyedThenPlain(d.log, d1.log, d2.log, Reactivated(round),
                   ActivityScheduled(|d.activities|, entry.id, round, RoleOf(entry), Linear), key);
  }

  /** What a resubmit is answered before it acts: a blank key, an instance out of sight, a key the log knows, in this
      order. */
  lemma ResubmitAnswers(env: Env, d: Db, key: string, visible: bool)
    ensures var r := Resubmit(env, d, key, visible);
            if forall i :: 0 <= i < |key| ==> IsSpace(key[i]) then r == Err(Validation)
            else if !visible then r == Err(NotFound)
            else if Known(d.log, key) then r == Ok((d, true))
            else r.Ok? ==> !r.value.1
  {
    KnownIsSeen(d, key);
  }

  // ------------------------------------------------------------------ timers

  /** The intent is in the outbox, once. */
  predicate IntentAdded(outbox: seq<Intent>, x: Intent, outbox': seq<Intent>) {
    outbox' == if x in outbox then outbox else outbox + [x]
  }

  /** A timer that is due for an activity still under way in an instance not ended. */
  predicate DueFor(d: Db, t: nat, kind: TimerKind, a: nat, node: Node) {
    && t < |d.timers| && d.timers[t] == TimerRow(a, kind, TimerStatus.Pending)
    && !d.status.IsTerminal() && d.IsActive(a) && FindNode(d.def.nodes, d.activities[a].node) == Some(node)
  }

  function TimerMarked(d: Db, t: nat): seq<TimerRow>
    requires t < |d.timers|
  {
    d.timers[t := d.timers[t].(status := TimerStatus.Fired)]
  }

  /** A reminder is logged and owed for its activity, and that is all. */
  lemma ReminderActs(env: Env, d: Db, t: nat, a: nat, node: Node, fuel: nat)
    requires DueFor(d, t, TimerKind.Reminder, a, node)
    ensures var r := FireTimer(env, d, t, fuel);
            && r.Ok? && r.value.1
            && var d' := r.value.0;
               && d' == d.(timers := TimerMarked(d, t), log := d'.log, outbox := d'.outbox)
               && LogsOnly(d.log, d'.log, [Fact.TimerFired(TimerKind.Reminder, a)])
               && IntentAdded(d.outbox, Intent(a, OutboxKind.NotifyReminder), d'.outbox)
  {
  }

  /** The role an approval declares for its escalation, if it declares a time for it too. */
  function EscalatesTo(c: NodeConfig): Option<Role> {
    if c.Approval? && c.escalationSecs.Some? && c.escalationSecs.value > 0
       && c.escalationRole.Some? && c.escalationRole.value != ""
    then c.escalationRole else None
  }

  /** What an escalation of the activity leaves: its fact, and where its node declares a role to escalate to, the row
      for that role, the fact that says so, and the notification owed. */
  predicate EscalatedBy(d: Db, t: nat, a: nat, to: Option<Role>, d': Db)
    requires t < |d.timers| && a < |d.activities|
  {
    match to
    case None =>
      && d' == d.(timers := TimerMarked(d, t), log := d'.log)
      && LogsOnly(d.log, d'.log, [Fact.TimerFired(TimerKind.Escalation, a)])
    case Some(role) =>
      && d' == d.(activities := d.activities[a := d.activities[a].(role := Some(role))],
                  timers := TimerMarked(d, t), log := d'.log, outbox := d'.outbox)
      && LogsOnly(d.log, d'.log,
                  [Fact.TimerFired(TimerKind.Escalation, a), Escalated(a, d.activities[a].role, role)])
      && IntentAdded(d.outbox, Intent(a, OutboxKind.NotifyEscalation), d'.outbox)
  }

  /** An escalation hands the activity to the role its node declares, says so in the log and owes that role a
      notification. Where the node declares none the log only says that the timer fired. */
  lemma EscalationActs(env: Env, d: Db, t: nat, a: nat, node: Node, fuel: nat)
    requires DueFor(d, t, TimerKind.Escalation, a, node)
    ensures var r := FireTimer(env, d, t, fuel);
            && r.Ok? && r.value.1 == EscalatesTo(node.config).Some?
            && EscalatedBy(d, t, a, EscalatesTo(node.config), r.value.0)
  {
    var fired := Append(MarkTimerFired(d, t).0, Fact.TimerFired(TimerKind.Escalation, a), None);
    FiresEscalation(env, d, t, a, node, fuel, fired);
    EscalatedRows(d, t, a, node, fired);
  }

  lemma FiresEscalation(env: Env, d: Db, t: nat, a: nat, node: Node, fuel: nat, fired: Db)
    requires DueFor(d, t, TimerKind.Escalation, a, node)
    requires fired == Append(MarkTimerFired(d, t).0, Fact.TimerFired(TimerKind.Escalation, a), None)
    ensures FireTimer(env, d, t, fuel) == Ok(FireEscalation(fired, a, node))
  {
  }

  lemma EscalatedRows(d: Db, t: nat, a: nat, node: Node, fired: Db)
    requires DueFor(d, t, TimerKind.Escalation, a, node)
    requires fired == Append(MarkTimerFired(d, t).0, Fact.TimerFired(TimerKind.Escalation, a), None)
    ensures FireEscalation(fired, a, node).1 == EscalatesTo(node.config).Some?
    ensures EscalatedBy(d, t, a, EscalatesTo(node.config), FireEscalation(fired, a, node).0)
  {
    AppendLogs(MarkTimerFired(d, t).0, Fact.TimerFired(TimerKind.Escalation, a));
    match EscalatesTo(node.config)
    case None => assert FireEscalation(fired, a, node) == (fired, false);
    case Some(role) =>
      var d1, fact := UpdateRole(fired, a, role).0, Escalated(a, d.activities[a].role, role);
      assert FireEscalation(fired, a, node) == (Enqueue(Append(d1, fact, None), a, OutboxKind.NotifyEscalation), true);
      AppendLogs(d1, fact);
      var log2 := Append(d1, fact, None).log;
      LogsBoth(d.log, fired.log, log2, [Fact.TimerFired(TimerKind.Escalation, a)], [fact]);
      assert [Fact.TimerFired(TimerKind.Escalation, a)] + [fact] == [Fact.TimerFired(TimerKind.Escalation, a), fact];
  }

  lemma AppendLogs(d: Db, fact: Fact)
    ensures var d' := Append(d, fact, None);
            d' == d.(log := d'.log) && LogsOnly(d.log, d'.log, [fact])
  {
  }

  /** The rows once a deadline has passed and before the graph moves. */
  predicate TimedOut(d: Db, t: nat, a: nat, d1: Db)
    requires t < |d.timers| && a < |d.activities|
  {
    && d1 == d.(activities := d.activities[a := d.activities[a].(status := ActivityStatus.Skipped)],
                log := d1.log, timers := d1.timers)
    && TimersCancelled(TimerMarked(d, t), a, d1.timers)
    && LogsOnly(d.log, d1.log, [Fact.TimerFired(TimerKind.Timeout, a), ActivitySkipped(Some(a))])
  }

  /** A deadline skips its activity and cancels what timers it still has; the outcome carried out is the decision for
      the node's deadline. */
  lemma DeadlineActs(env: Env, d: Db, t: nat, a: nat, node: Node, fuel: nat) returns (d1: Db)
    requires DueFor(d, t, TimerKind.Timeout, a, node)
    ensures TimedOut(d, t, a, d1)
    ensures var (outcome, trace) := DecideTimeout(d.def, env.cel, d.Ctx(), d.activities[a].node);
            FireTimer(env, d, t, fuel)
            == match ApplyOutcome(env, d1, outcome, trace, a, d.activities[a].round, fuel)
               case Ok(d') => Ok((d', true))
               case Err(e) => Err(e)
  {
    var fired := Append(MarkTimerFired(d, t).0, Fact.TimerFired(TimerKind.Timeout, a), None);
    d1 := TimedOutDb(fired, a);
  }

  /** A timer fired or cancelled before is left alone; one whose activity or instance has ended is only marked. */
  lemma OverdueActs(env: Env, d: Db, t: nat, fuel: nat)
    ensures t >= |d.timers| || !d.timers[t].status.Pending? ==> FireTimer(env, d, t, fuel) == Ok((d, false))
    ensures t < |d.timers| && d.timers[t].status.Pending?
            && (d.status.IsTerminal() || !d.IsActive(d.timers[t].activity)) ==>
              FireTimer(env, d, t, fuel) == Ok((d.(timers := TimerMarked(d, t)), false))
  {
  }

  // ------------------------------------------------------------------ the outbox's follow-ups

  /** A delivered notification is completed by the system, without result or notes, and its timers are cancelled; the
      outcome carried out is the decision for its completion. */
  lemma DeliveryActs(env: Env, d: Db, a: nat, fuel: nat) returns (d1: Db)
    requires !d.status.IsTerminal() && d.IsActive(a) && d.activities[a].activityType.Notification?
    ensures d1 == d.(activities := d.activities[a := d.activities[a].(status := ActivityStatus.Completed,
                                                                      result := None,
                                                                      reviewer := Some(0), notes := None)],
                     log := d1.log, timers := d1.timers)
    ensures TimersCancelled(d.timers, a, d1.timers) && LogsOnly(d.log, d1.log, [ActivityCompleted(a, None, true)])
    ensures var (outcome, trace) := DecideAdvance(d.def, env.cel, d.Ctx(), d.activities[a].node, SignalType.Completed);
            OnNotificationDelivered(env, d, a, fuel)
            == ApplyOutcome(env, d1, outcome, trace, a, d.activities[a].round, fuel)
  {
    d1 := SettleDelivery(d, a);
  }

  /** A dead letter is logged against its activity, and that is all. */
  lemma DeadLetterActs(env: Env, d: Db, a: nat, kind: OutboxKind, fuel: nat)
    ensures var d' := Commit(env, d, DeadLetterStep(a, kind), fuel);
            d' == d.(log := d'.log) && LogsOnly(d.log, d'.log, [ActivityFailed(a, kind)])
  {
  }

  /** Only signals write the context of an instance. */
  lemma ContextStays(env: Env, d: Db, step: Step, fuel: nat)
    requires !step.SignalStep? || step.cmd.signal.Claimed? || step.cmd.signal.Reassigned?
    ensures Commit(env, d, step, fuel).context == d.context
  {
    match step
    case SignalStep(cmd) =>
    case ResubmitStep(key, visible) => ResubmitKeeps(env, d, key, visible);
    case FireStep(t) => FireKeeps(env, d, t, fuel);
    case DeliverStep(a) => DeliverKeeps(env, d, a, fuel);
    case _ =>
  }

  lemma ResubmitKeeps(env: Env, d: Db, key: string, visible: bool)
    ensures match Resubmit(env, d, key, visible)
            case Ok((d', _)) => Keeps(d, Ok(d'))
            case Err(_) => true
  {
    if NextRound(env, d).Ok? && DecideStart(d.def.nodes).Some? {
      var round, entry := NextRound(env, d).value, DecideStart(d.def.nodes).value;
      var d1 := Append(ReactivateWorkflow(d).0, Reactivated(round), Some(key));
      if NodeOf(d1, entry.id).Ok? {
        AdvanceKeeps(d1, NodeOf(d1, entry.id).value, entry.AssigneeRole(), round);
      }
    }
  }

  lemma FireKeeps(env: Env, d: Db, t: nat, fuel: nat)
    ensures match FireTimer(env, d, t, fuel)
            case Ok((d', _)) => Keeps(d, Ok(d'))
            case Err(_) => true
  {
    if t < |d.timers| && d.timers[t].status.Pending? && !d.status.IsTerminal() && d.IsActive(d.timers[t].activity)
       && FindNode(d.def.nodes, d.activities[d.timers[t].activity].node).Some? {
      var a := d.timers[t].activity;
      var node := FindNode(d.def.nodes, d.activities[a].node).value;
      match d.timers[t].kind
      case Timeout =>
        var d1 := DeadlineActs(env, d, t, a, node, fuel);
        var (outcome, trace) := DecideTimeout(d.def, env.cel, d.Ctx(), d.activities[a].node);
        ApplyKeeps(env, d1, outcome, trace, a, d.activities[a].round, fuel);
      case Reminder => ReminderActs(env, d, t, a, node, fuel);
      case Escalation => EscalationActs(env, d, t, a, node, fuel);
    } else {
      OverdueActs(env, d, t, fuel);
    }
  }

  lemma DeliverKeeps(env: Env, d: Db, a: nat, fuel: nat)
    ensures Keeps(d, OnNotificationDelivered(env, d, a, fuel))
  {
    if d.IsActive(a) {
      var d1 := SettleDelivery(d, a);
      var (outcome, trace) := DecideAdvance(d1.def, env.cel, d1.Ctx(), d1.activities[a].node, SignalType.Completed);
      ApplyKeeps(env, d1, outcome, trace, a, d1.activities[a].round, fuel);
    }
  }
}
