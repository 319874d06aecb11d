/** The public calls keep the invariants: what they settle before the graph moves, and the move. */
module Calls {
  import opened Core
  import opened Routing
  import opened Validation
  import opened Facts
  import opened Database
  import opened Engine
  import opened Invariants
  import opened Preservation

  /** `d'` may come after `d` in a run: the log only grows, timers only settle, activities stay. */
  ghost predicate Follows(d: Db, d': Db) {
    && d'.def == d.def
    && AddsNoFire(d.log, d'.log)
    && TimersEvolve(d.timers, d'.timers)
    && RowsExtend(d.activities, d'.activities)
  }

  lemma FollowsTrans(a: Db, b: Db, c: Db)
    requires Follows(a, b) && Follows(b, c)
    ensures Follows(a, c)
  {
    forall i | |a.log| <= i < |c.log| ensures !c.log[i].fact.TimerFired? {
      if i < |b.log| { assert c.log[i] == b.log[i]; }
    }
  }

  /** Outcome of a call: the invariants hold. */
  ghost predicate After(env: Env, d: Db, d': Db) {
    Good(env, d') && Follows(d, d')
  }

  lemma AfterThen(env: Env, a: Db, b: Db, c: Db)
    requires Follows(a, b) && After(env, b, c)
    ensures After(env, a, c)
  {
    FollowsTrans(a, b, c);
  }

  // ------------------------------------------------------------------ changing one row with its fact

  lemma RowTables(d: Db, a: nat, row: Activity)
    requires RowsOk(d.def, d.activities) && a < |d.activities|
    requires row == d.activities[a].(status := row.status, role := row.role, assignee := row.assignee,
                                     result := row.result, notes := row.notes, reviewer := row.reviewer)
    requires d.activities[a].status.Active?
    requires !row.status.Completed? ==> row.result.None? && row.notes.None? && row.reviewer.None?
    ensures var acts := d.activities[a := row];
            RowsOk(d.def, acts) && RowsExtend(d.activities, acts) && MaxRound(acts) == MaxRound(d.activities)
  {
    MaxRoundByRounds(d.activities, d.activities[a := row]);
  }

  /** Tables after one row changed in place and one fact was appended. */
  lemma RowFactTables(env: Env, d: Db, a: nat, row: Activity, timers: seq<TimerRow>, fact: Fact, key: Option<string>)
    requires Good(env, d) && a < |d.activities| && !OpensRound(fact) && !fact.TimerFired?
    requires key.Some? ==> !KeySeen(d, key.value)
    requires row == d.activities[a].(status := row.status, role := row.role, assignee := row.assignee,
                                     result := row.result, notes := row.notes, reviewer := row.reviewer)
    requires d.activities[a].status.Active?
    requires !row.status.Completed? ==> row.result.None? && row.notes.None? && row.reviewer.None?
    requires TimersOk(timers, d.activities[a := row]) && TimersEvolve(d.timers, timers)
    ensures var d' := Append(d.(activities := d.activities[a := row], timers := timers), fact, key);
            Good(env, d') && Follows(d, d')
  {
    var d' := Append(d.(activities := d.activities[a := row], timers := timers), fact, key);
    FactLog(d, fact, key);
    assert d'.log == Append(d, fact, key).log;
    RowTables(d, a, row);
    TablesInOrder(env, d, d');
  }

  lemma FactLog(d: Db, fact: Fact, key: Option<string>)
    requires LogOk(d.log) && (key.Some? ==> !KeySeen(d, key.value)) && !OpensRound(fact) && !fact.TimerFired?
    ensures var log := Append(d, fact, key).log;
            LogOk(log) && AddsNoFire(d.log, log) && RoundsOpened(log) == RoundsOpened(d.log)
  {
    AppendLog(d, fact, key);
    OpenedPush(d.log, Event(MaxNumber(d.log) + 1, fact, key));
  }

  /** Tables that are in order one by one are in order together. */
  lemma TablesInOrder(env: Env, d: Db, d': Db)
    requires Good(env, d) && d'.def == d.def && StatusOk(d'.status)
    requires LogOk(d'.log) && AddsNoFire(d.log, d'.log) && RoundsOpened(d'.log) == RoundsOpened(d.log)
    requires RowsOk(d.def, d'.activities) && RowsExtend(d.activities, d'.activities)
    requires |d'.activities| == |d.activities| && MaxRound(d'.activities) == MaxRound(d.activities)
    requires TimersOk(d'.timers, d'.activities) && TimersEvolve(d.timers, d'.timers)
    ensures Good(env, d') && Follows(d, d')
  {
  }

  lemma CancelledTimers(timers: seq<TimerRow>, acts: seq<Activity>, d: Db, a: nat, row: Activity)
    requires TimersOk(d.timers, d.activities) && a < |d.activities|
    requires timers == CancelTimers(d, a).timers && acts == d.activities[a := row]
    ensures TimersOk(timers, acts) && TimersEvolve(d.timers, timers)
  {
  }

  // ------------------------------------------------------------------ claim

  lemma ClaimAfter(env: Env, d: Db, a: nat, cmd: SignalCommand)
    requires Good(env, d) && d.IsActive(a) && IsClaim(cmd.signal) && !KeySeen(d, cmd.key)
    ensures After(env, d, Claim(d, a, cmd))
  {
    var fact := SignalReceived(cmd.signal, a, None, None, cmd.assignee);
    var row := d.activities[a].(assignee := cmd.assignee);
    RowFactTables(env, d, a, row, d.timers, fact, Some(cmd.key));
  }

  // ------------------------------------------------------------------ signal, up to the move

  lemma ContextAfter(env: Env, d: Db, node: Node, round: int, patch: Option<Context>, key: string)
    requires Good(env, d) && !KeySeen(d, key)
    ensures var r := ApplyContextWrites(d, node, round, patch);
            r.Ok? ==>
              && After(env, d, r.value) && !KeySeen(r.value, key)
              && r.value.activities == d.activities && r.value.status == d.status && r.value.def == d.def
  {
    var r := ApplyContextWrites(d, node, round, patch);
    if r.Ok? && r.value != d {
      var d1 := d.(context := r.value.context);
      InstanceStep(env, d, d1);
      MarkerStep(env, d1, ContextUpdated(node.id, node.contextWrites, round));
    }
  }

  /** The row a non-claim signal leaves. */
  function ReviewedRow(row: Activity, cmd: SignalCommand): Activity {
    row.(status := ActivityStatus.Completed, result := SignalResult(cmd.signal), reviewer := Some(cmd.actor),
         notes := cmd.notes)
  }

  /** The signal logged, then the activity completed with its fact. */
  predicate Reviewed(d: Db, a: nat, cmd: SignalCommand, d1: Db, d2: Db)
    requires a < |d.activities|
  {
    && d1 == Append(d, SignalReceived(cmd.signal, a, Some(cmd.actor), cmd.notes, None), Some(cmd.key))
    && d2 == Append(d1.(activities := d1.activities[a := ReviewedRow(d.activities[a], cmd)],
                        timers := CancelTimers(d, a).timers),
                    ActivityCompleted(a, SignalResult(cmd.signal), false), None)
  }

  lemma ReviewShape(d: Db, a: nat, cmd: SignalCommand) returns (d1: Db)
    requires d.IsActive(a)
    ensures Review(d, a, cmd).Ok? && Reviewed(d, a, cmd, d1, Review(d, a, cmd).value)
  {
    d1 := Append(d, SignalReceived(cmd.signal, a, Some(cmd.actor), cmd.notes, None), Some(cmd.key));
  }

  lemma ReceivedTables(env: Env, d: Db, fact: Fact, key: string)
    requires Good(env, d) && !OpensRound(fact) && !fact.TimerFired? && !KeySeen(d, key)
    ensures Good(env, Append(d, fact, Some(key))) && Follows(d, Append(d, fact, Some(key)))
  {
    AppendLog(d, fact, Some(key));
    OpenedPush(d.log, Event(MaxNumber(d.log) + 1, fact, Some(key)));
  }

  lemma ReviewedTables(env: Env, d: Db, a: nat, cmd: SignalCommand, d1: Db, d2: Db)
    requires Good(env, d) && d.IsActive(a) && !KeySeen(d, cmd.key) && Reviewed(d, a, cmd, d1, d2)
    ensures Good(env, d2) && Follows(d, d2)
  {
    ReceivedTables(env, d, SignalReceived(cmd.signal, a, Some(cmd.actor), cmd.notes, None), cmd.key);
    var row := ReviewedRow(d.activities[a], cmd);
    CancelledTimers(CancelTimers(d, a).timers, d.activities[a := row], d, a, row);
    RowFactTables(env, d1, a, row, CancelTimers(d, a).timers, ActivityCompleted(a, SignalResult(cmd.signal), false),
                  None);
    FollowsTrans(d, d1, d2);
  }

  lemma ReviewAfter(env: Env, d: Db, a: nat, cmd: SignalCommand)
    requires Good(env, d) && d.IsActive(a) && !KeySeen(d, cmd.key) && !IsClaim(cmd.signal)
    ensures var d' := Review(d, a, cmd).value;
            && Review(d, a, cmd).Ok?
            && After(env, d, d') && d'.status == d.status && !d'.IsActive(a)
            && |d'.activities| == |d.activities|
  {
    var d1 := ReviewShape(d, a, cmd);
    ReviewedTables(env, d, a, cmd, d1, Review(d, a, cmd).value);
  }

  lemma ResumeAfter(env: Env, d: Db, a: nat)
    requires Good(env, d) && a < |d.activities|
    ensures var d' := ResumeIfWaiting(d, a);
            && After(env, d, d') && d'.activities == d.activities
            && (!d.status.IsTerminal() ==> d'.status.Active?)
  {
    if d.status.ReturnedWaiting? {
      var d1 := ResumeFromReturnedWaiting(d).0;
      InstanceStep(env, d, d1);
      FactTables(env, d1, ReworkResumed(d.activities[a].node, d.activities[a].round));
    }
  }

  lemma SettleAfter(env: Env, d: Db, a: nat, node: Node, cmd: SignalCommand)
    requires Good(env, d) && d.IsActive(a) && !KeySeen(d, cmd.key) && !IsClaim(cmd.signal) && !d.status.IsTerminal()
    ensures var r := SettleSignal(d, a, node, cmd);
            r.Ok? ==>
              && After(env, d, r.value) && r.value.status.Active?
              && Moves(r.value, a, d.activities[a].round) && r.value.activities[a].node == d.activities[a].node
  {
    var round := d.activities[a].round;
    ContextAfter(env, d, node, round, cmd.patch, cmd.key);
    var r1 := ApplyContextWrites(d, node, round, cmd.patch);
    if r1.Ok? {
      ReviewAfter(env, r1.value, a, cmd);
      var d2 := Review(r1.value, a, cmd).value;
      AfterThen(env, d, r1.value, d2);
      ResumeAfter(env, d2, a);
      AfterThen(env, d, d2, ResumeIfWaiting(d2, a));
    }
  }

  lemma MoveOnAfter(env: Env, d: Db, a: nat, signal: SignalType, fuel: nat)
    requires Good(env, d) && a < |d.activities| && !d.IsActive(a)
    ensures var r := MoveOn(env, d, a, signal, fuel);
            r.Ok? ==> After(env, d, r.value) && Evolves(d, r.value)
  {
    var (outcome, trace) := DecideAdvance(d.def, env.cel, d.Ctx(), d.activities[a].node, signal);
    ApplyStep(env, d, outcome, trace, a, d.activities[a].round, fuel);
  }

  lemma SettledMoveAfter(env: Env, d: Db, a: nat, node: Node, cmd: SignalCommand, d1: Db, fuel: nat)
    requires Good(env, d) && d.IsActive(a) && !KeySeen(d, cmd.key) && !IsClaim(cmd.signal) && !d.status.IsTerminal()
    requires SettleSignal(d, a, node, cmd) == Ok(d1)
    ensures a < |d1.activities|
    ensures var r := MoveOn(env, d1, a, cmd.signal, fuel);
            r.Ok? ==> After(env, d, r.value)
  {
    SettleAfter(env, d, a, node, cmd);
    MoveOnAfter(env, d1, a, cmd.signal, fuel);
    if MoveOn(env, d1, a, cmd.signal, fuel).Ok? {
      AfterThen(env, d, d1, MoveOn(env, d1, a, cmd.signal, fuel).value);
    }
  }

  lemma HeedAfter(env: Env, d: Db, a: nat, node: Node, cmd: SignalCommand, fuel: nat)
    requires Good(env, d) && d.IsActive(a) && !KeySeen(d, cmd.key) && !d.status.IsTerminal()
    ensures var r := Heed(env, d, a, node, cmd, fuel);
            r.Ok? ==> After(env, d, r.value)
  {
    if IsClaim(cmd.signal) {
      ClaimAfter(env, d, a, cmd);
    } else if SettleSignal(d, a, node, cmd).Ok? {
      SettledMoveAfter(env, d, a, node, cmd, SettleSignal(d, a, node, cmd).value, fuel);
    }
  }

  lemma SignalAfter(env: Env, d: Db, cmd: SignalCommand, fuel: nat)
    requires Good(env, d)
    ensures var r := Signal(env, d, cmd, fuel);
            r.Ok? ==> After(env, d, r.value.0)
  {
    var r := Signal(env, d, cmd, fuel);
    if r.Ok? && !r.value.1 {
      var a := TargetActivity(d, cmd.activity).value;
      HeedAfter(env, d, a, NodeOf(d, d.activities[a].node).value, cmd, fuel);
    }
  }

  // ------------------------------------------------------------------ opening a round by start or resubmit

  /** The tables while a round has been announced in the log but its activity is not scheduled yet. */
  ghost predicate Opening(env: Env, d: Db, round: int) {
    && LogOk(d.log)
    && RowsOk(d.def, d.activities)
    && RoundsIn(d.activities, 1, RoundLimit(env, d.def))
    && round == MaxRound(d.activities) + 1 == RoundsOpened(d.log) + 1
    && 1 <= round <= RoundLimit(env, d.def)
    && TimersOk(d.timers, d.activities)
    && StatusOk(d.status)
  }

  lemma OpenedTables(env: Env, d: Db, node: NodeId, role: Option<Role>, round: int, d1: Db)
    requires Opening(env, d, round) && Scheduled(d, node, role, round, Linear, d1) && FindNode(d.def.nodes, node).Some?
    requires TimersOk(d1.timers, d1.activities) && TimersEvolve(d.timers, d1.timers)
    ensures Good(env, d1) && Evolves(d, d1)
  {
    RowsPush(d.def, d.activities, node, role, round);
    ScheduleLog(d, node, role, round, Linear, d1);
  }

  lemma OpenTables(env: Env, d: Db, node: Node, role: Option<Role>, round: int)
    requires Opening(env, d, round) && FindNode(d.def.nodes, node.id) == Some(node)
    ensures var r := AdvanceTo(d, node, role, round);
            r.Ok? ==> Good(env, r.value) && Evolves(d, r.value) && |r.value.activities| == |d.activities| + 1
  {
    if !node.config.SubWorkflow? {
      ScheduleShape(d, node, role, round, Linear);
      var d1 := ScheduleActivity(d, node, role, round, Linear).value.0;
      OpenedTables(env, d, node.id, role, round, d1);
      InstanceStep(env, d1, UpdateCurrent(d1, |d.activities|));
    }
  }

  /** A committed start is in order. */
  lemma StartGood(env: Env, cmd: StartCommand)
    ensures StartInstance(env, cmd).Ok? ==>
              && Good(env, StartInstance(env, cmd).value)
              && StartInstance(env, cmd).value.activities != []
              && StartInstance(env, cmd).value.def == cmd.def && ValidDefinition(cmd.def, env.cel)
  {
    if StartInstance(env, cmd).Ok? {
      var d := StartedDb(env, cmd);
      var entry := DecideStart(cmd.def.nodes).value;
      var node := FindNode(cmd.def.nodes, entry.id).value;
      assert StartInstance(env, cmd) == AdvanceTo(d, node, entry.AssigneeRole(), 1);
      EntryGood(env, d, node, entry.AssigneeRole());
    }
  }

  ghost predicate GoodStart(env: Env, def: Definition, r: Result<Db>) {
    r.Ok? ==> Good(env, r.value) && r.value.activities != [] && r.value.def == def
  }

  lemma EntryGood(env: Env, d: Db, node: Node, role: Option<Role>)
    requires Opening(env, d, 1)
    requires FindNode(d.def.nodes, node.id) == Some(node)
    ensures GoodStart(env, d.def, AdvanceTo(d, node, role, 1))
  {
    OpenTables(env, d, node, role, 1);
    if !node.config.SubWorkflow? {
      ScheduleShape(d, node, role, 1, Linear);
    }
  }

  lemma StartedDb(env: Env, cmd: StartCommand) returns (d: Db)
    ensures d == Append(NewInstance(cmd.def, cmd.context), Started(cmd.callback), None)
    ensures Opening(env, d, 1)
  {
    d := Append(NewInstance(cmd.def, cmd.context), Started(cmd.callback), None);
    var e := Event(1, Started(cmd.callback), None);
    assert d.log == [e];
    assert [e][..0] == [];
  }

  lemma ReactivatedTables(env: Env, d: Db, round: int, key: string)
    requires Good(env, d) && !KeySeen(d, key)
    requires round == MaxRound(d.activities) + 1 <= RoundLimit(env, d.def)
    ensures var d1 := Append(ReactivateWorkflow(d).0, Reactivated(round), Some(key));
            Opening(env, d1, round) && Follows(d, d1)
  {
    var d0 := ReactivateWorkflow(d).0;
    var d1 := Append(d0, Reactivated(round), Some(key));
    AppendLog(d0, Reactivated(round), Some(key));
    OpenedPush(d.log, Event(MaxNumber(d.log) + 1, Reactivated(round), Some(key)));
    RoundOpens(env, d, d1, round);
  }

  /** One more round opened in the log, the tables as they were. */
  lemma RoundOpens(env: Env, d: Db, d1: Db, round: int)
    requires Good(env, d) && round == MaxRound(d.activities) + 1 <= RoundLimit(env, d.def)
    requires d1.def == d.def && d1.activities == d.activities && d1.timers == d.timers && StatusOk(d1.status)
    requires LogOk(d1.log) && AddsNoFire(d.log, d1.log) && RoundsOpened(d1.log) == RoundsOpened(d.log) + 1
    ensures Opening(env, d1, round) && Follows(d, d1)
  {
    MaxRoundIsMax(d.activities);
  }

  /** A resubmit that is not a replay: the fact, then the entry activity in the next round. */
  predicate Resubmitted(env: Env, d: Db, key: string, entry: Node, node: Node, d1: Db, d': Db) {
    var round := MaxRound(d.activities) + 1;
    && !KeySeen(d, key) && d.status.Completed? && d.result == Some(WorkflowResult.Returned)
    && round <= RoundLimit(env, d.def)
    && d1 == Append(ReactivateWorkflow(d).0, Reactivated(round), Some(key))
    && FindNode(d.def.nodes, node.id) == Some(node)
    && AdvanceTo(d1, node, entry.AssigneeRole(), round) == Ok(d')
  }

  lemma ResubmitShape(env: Env, d: Db, key: string, visible: bool) returns (d1: Db, entry: Node, node: Node)
    requires Resubmit(env, d, key, visible).Ok? && !Resubmit(env, d, key, visible).value.1
    ensures Resubmitted(env, d, key, entry, node, d1, Resubmit(env, d, key, visible).value.0)
    ensures DecideStart(d.def.nodes) == Some(entry) && node.id == entry.id
  {
    ResubmitReopens(env, d, key, visible);
    d1, entry, node := ReopenShape(d, key, MaxRound(d.activities) + 1);
  }

  lemma ResubmitReopens(env: Env, d: Db, key: string, visible: bool)
    requires Resubmit(env, d, key, visible).Ok? && !Resubmit(env, d, key, visible).value.1
    ensures !KeySeen(d, key) && d.status.Completed? && d.result == Some(WorkflowResult.Returned)
    ensures MaxRound(d.activities) + 1 <= RoundLimit(env, d.def)
    ensures Reopen(d, key, MaxRound(d.activities) + 1) == Ok(Resubmit(env, d, key, visible).value.0)
  {
  }

  lemma ReopenShape(d: Db, key: string, round: int) returns (d1: Db, entry: Node, node: Node)
    requires Reopen(d, key, round).Ok?
    ensures d1 == Append(ReactivateWorkflow(d).0, Reactivated(round), Some(key))
    ensures DecideStart(d.def.nodes) == Some(entry) && node.id == entry.id
    ensures FindNode(d.def.nodes, node.id) == Some(node)
    ensures AdvanceTo(d1, node, entry.AssigneeRole(), round) == Reopen(d, key, round)
  {
    d1 := Append(ReactivateWorkflow(d).0, Reactivated(round), Some(key));
    entry := DecideStart(d.def.nodes).value;
    node := FindNode(d.def.nodes, entry.id).value;
  }

  lemma ResubmittedAfter(env: Env, d: Db, key: string, entry: Node, node: Node, d1: Db, d': Db)
    requires Good(env, d)
    requires Resubmitted(env, d, key, entry, node, d1, d')
    ensures After(env, d, d')
  {
    var round := MaxRound(d.activities) + 1;
    ReactivatedTables(env, d, round, key);
    OpenTables(env, d1, node, entry.AssigneeRole(), round);
    FollowsTrans(d, d1, d');
  }

  lemma ResubmitAfter(env: Env, d: Db, key: string, visible: bool)
    requires Good(env, d)
    ensures var r := Resubmit(env, d, key, visible);
            r.Ok? ==> After(env, d, r.value.0)
  {
    var r := Resubmit(env, d, key, visible);
    if r.Ok? && !r.value.1 {
      var d1, entry, node := ResubmitShape(env, d, key, visible);
      ResubmittedAfter(env, d, key, entry, node, d1, r.value.0);
    }
  }

  // ------------------------------------------------------------------ timers

  lemma FiredStep(env: Env, d: Db, t: nat)
    requires Good(env, d)
    ensures var d' := MarkTimerFired(d, t).0;
            After(env, d, d') && d' == d.(timers := d'.timers)
  {
  }

  /** The rows after an escalation, its notification aside. */
  function EscalatedDb(d: Db, a: nat, toRole: Role): Db
    requires a < |d.activities|
  {
    Append(d.(activities := d.activities[a := d.activities[a].(role := Some(toRole))], timers := d.timers),
           Escalated(a, d.activities[a].role, toRole), None)
  }

  lemma EscalationShape(d: Db, a: nat, node: Node)
    requires d.IsActive(a) && node.EscalationConfig().Some?
    ensures var d1 := EscalatedDb(d, a, node.EscalationConfig().value.1);
            var d' := FireEscalation(d, a, node).0;
            d' == d1.(outbox := d'.outbox)
  {
  }

  lemma EscalationAfter(env: Env, d: Db, a: nat, node: Node)
    requires Good(env, d) && d.IsActive(a)
    ensures After(env, d, FireEscalation(d, a, node).0)
  {
    if node.EscalationConfig().Some? {
      var toRole := node.EscalationConfig().value.1;
      EscalationShape(d, a, node);
      RowFactTables(env, d, a, d.activities[a].(role := Some(toRole)), d.timers,
                    Escalated(a, d.activities[a].role, toRole), None);
      InstanceStep(env, EscalatedDb(d, a, toRole), FireEscalation(d, a, node).0);
      FollowsTrans(d, EscalatedDb(d, a, toRole), FireEscalation(d, a, node).0);
    }
  }

  lemma TimedOutAfter(env: Env, d: Db, a: nat)
    requires Good(env, d) && d.IsActive(a)
    ensures var d' := TimedOutDb(d, a);
            After(env, d, d') && Moves(d', a, d.activities[a].round) && d'.status == d.status
  {
    var row := d.activities[a].(status := ActivityStatus.Skipped);
    var timers := CancelTimers(d, a).timers;
    CancelledTimers(timers, d.activities[a := row], d, a, row);
    RowFactTables(env, d, a, row, timers, ActivitySkipped(Some(a)), None);
  }

  lemma TimeoutAfter(env: Env, d: Db, a: nat, fuel: nat)
    requires Good(env, d) && d.IsActive(a)
    ensures var r := FireTimeout(env, d, a, fuel);
            r.Ok? ==> After(env, d, r.value)
  {
    TimedOutAfter(env, d, a);
    var d1 := TimedOutDb(d, a);
    var (outcome, trace) := DecideTimeout(d1.def, env.cel, d1.Ctx(), d.activities[a].node);
    ApplyStep(env, d1, outcome, trace, a, d.activities[a].round, fuel);
    var r := FireTimeout(env, d, a, fuel);
    if r.Ok? {
      FollowsTrans(d, d1, r.value);
    }
  }

  /** Whether firing this timer would move the graph of an instance waiting for rework. */
  predicate LateTimer(d: Db, t: nat) {
    d.status.ReturnedWaiting? && t < |d.timers| && d.timers[t].kind.Timeout? && d.timers[t].status.Pending?
  }

  lemma OnTimerAfter(env: Env, d: Db, kind: TimerKind, a: nat, node: Node, fuel: nat)
    requires Good(env, d) && d.IsActive(a)
    ensures var r := OnTimer(env, d, kind, a, node, fuel);
            r.Ok? ==> After(env, d, r.value.0)
  {
    match kind
    case Reminder => InstanceStep(env, d, Enqueue(d, a, OutboxKind.NotifyReminder));
    case Escalation => EscalationAfter(env, d, a, node);
    case Timeout => TimeoutAfter(env, d, a, fuel);
  }

  /** The fire logged by this call, if it won the timer: first in what it appends, with the timer fired. */
  predicate FiredBy(d: Db, t: nat, d': Db) {
    && t < |d.timers| && t < |d'.timers| && d.timers[t].status.Pending? && d'.timers[t].status.Fired?
    && d.log < d'.log
    && d'.log[|d.log|].fact == Fact.TimerFired(d.timers[t].kind, d.timers[t].activity)
    && AddsNoFire(d'.log[..|d.log| + 1], d'.log)
  }

  ghost predicate FireFollows(d: Db, t: nat, d': Db) {
    && d'.def == d.def
    && TimersEvolve(d.timers, d'.timers)
    && RowsExtend(d.activities, d'.activities)
    && (AddsNoFire(d.log, d'.log) || FiredBy(d, t, d'))
  }

  lemma FireLogged(env: Env, d: Db, t: nat, d1: Db, d2: Db, d': Db)
    requires (d1, true) == MarkTimerFired(d, t)
    requires d2 == Append(d1, Fact.TimerFired(d.timers[t].kind, d.timers[t].activity), None)
    requires Follows(d2, d')
    ensures FireFollows(d, t, d')
  {
    assert d'.log[..|d.log| + 1] == d2.log;
  }

  /** The rows once a timer that was won, of an active activity, has its fire logged. */
  predicate FireBegun(d: Db, t: nat, d1: Db, d2: Db) {
    && (d1, true) == MarkTimerFired(d, t)
    && d2 == Append(d1, Fact.TimerFired(d.timers[t].kind, d.timers[t].activity), None)
    && d1.IsActive(d.timers[t].activity) && !d1.status.IsTerminal()
  }

  lemma FireBegunKeeps(env: Env, d: Db, t: nat, d1: Db, d2: Db)
    requires Good(env, d) && FireBegun(d, t, d1, d2)
    ensures Good(env, d2)
  {
    FiredStep(env, d, t);
    FactTables(env, d1, Fact.TimerFired(d.timers[t].kind, d.timers[t].activity));
  }

  lemma FireAfter(env: Env, d: Db, t: nat, fuel: nat)
    requires Good(env, d)
    ensures var r := FireTimer(env, d, t, fuel);
            r.Ok? ==> Good(env, r.value.0) && FireFollows(d, t, r.value.0)
  {
    var r := FireTimer(env, d, t, fuel);
    var (d1, won) := MarkTimerFired(d, t);
    if r.Ok? && won && !d1.status.IsTerminal() && d1.IsActive(d.timers[t].activity) {
      var a := d.timers[t].activity;
      var d2 := Append(d1, Fact.TimerFired(d.timers[t].kind, a), None);
      FireBegunKeeps(env, d, t, d1, d2);
      OnTimerAfter(env, d2, d.timers[t].kind, a, NodeOf(d1, d1.activities[a].node).value, fuel);
      FireLogged(env, d, t, d1, d2, r.value.0);
    } else {
      FiredStep(env, d, t);
    }
  }

  // ------------------------------------------------------------------ delivery

  lemma DeliveredAfter(env: Env, d: Db, a: nat)
    requires Good(env, d) && d.IsActive(a)
    ensures var d' := SettleDelivery(d, a);
            After(env, d, d') && Moves(d', a, d.activities[a].round) && d'.status == d.status
  {
    var row := d.activities[a].(status := ActivityStatus.Completed, result := None, reviewer := Some(SYSTEM_ACTOR),
                                notes := None);
    var timers := CancelTimers(d, a).timers;
    CancelledTimers(timers, d.activities[a := row], d, a, row);
    RowFactTables(env, d, a, row, timers, ActivityCompleted(a, None, true), None);
  }

  /** Whether this delivery would move the graph of an instance waiting for rework. */
  predicate LateDelivery(d: Db, a: nat) {
    d.status.ReturnedWaiting? && d.IsActive(a) && d.activities[a].activityType.Notification?
  }

  lemma DeliverAfter(env: Env, d: Db, a: nat, fuel: nat)
    requires Good(env, d)
    ensures var r := OnNotificationDelivered(env, d, a, fuel);
            r.Ok? ==> After(env, d, r.value)
  {
    var r := OnNotificationDelivered(env, d, a, fuel);
    if r.Ok? && !d.status.IsTerminal() && d.IsActive(a) && d.activities[a].activityType.Notification? {
      DeliveredAfter(env, d, a);
      MoveOnAfter(env, SettleDelivery(d, a), a, SignalType.Completed, fuel);
      FollowsTrans(d, SettleDelivery(d, a), r.value);
    }
  }
}
