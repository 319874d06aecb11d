/** What a committed signal leaves: the row it was for, the context, the facts and timers, and the decision taken on
    them; and what a claim leaves. */
module SignalEffects {
  import opened Core
  import opened Routing
  import opened Facts
  import opened Database
  import opened Engine
  import opened Calls
  import opened Effects
  import opened Contexts

  // ------------------------------------------------------------------ vocabulary

  /** The kinds of node a signal is for, and for an event its type. */
  predicate MeantFor(c: NodeConfig, signal: SignalType, eventType: Option<string>) {
    match signal
    case Approved => c.Approval?
    case Rejected => c.Approval?
    case Returned => c.Approval?
    case Completed => c.Notification? || c.Assignment?
    case EventReceived => c.EventWait? && eventType.Some? && eventType.value == c.eventType
    case Claimed => c.Approval? || c.Assignment?
    case Reassigned => c.Approval? || c.Assignment?
    case Resubmitted => false
  }

  /** The result a signal leaves on its activity. */
  function ResultOf(signal: SignalType): Option<ActivityResult> {
    if signal.Approved? then Some(ActivityResult.Approved)
    else if signal.Rejected? then Some(ActivityResult.Rejected)
    else if signal.Returned? then Some(ActivityResult.Returned)
    else if signal.Completed? then Some(ActivityResult.Completed)
    else None
  }

  /** The log grew by these facts, the one at `p` under the caller's key and the others under none. */
  predicate LogsKeyed(log: seq<Event>, log': seq<Event>, facts: seq<Fact>, p: nat, key: string) {
    && |log'| == |log| + |facts| && log <= log'
    && forall i :: 0 <= i < |facts| ==>
         log'[|log| + i].fact == facts[i] && log'[|log| + i].key == if i == p then Some(key) else None
  }

  /** Just the pending timers of the activity are cancelled. */
  predicate TimersCancelled(timers: seq<TimerRow>, a: nat, timers': seq<TimerRow>) {
    && |timers'| == |timers|
    && forall t :: 0 <= t < |timers| ==>
         timers'[t] == if timers[t].activity == a && timers[t].status.Pending?
                       then timers[t].(status := TimerStatus.Cancelled) else timers[t]
  }

  // ------------------------------------------------------------------ signals that end an activity

  /** What the signal tells the log: the keys written, if the node declares any, the signal, the completion, and that
      the instance has resumed if it waited for rework. */
  function SignalFacts(row: Activity, a: nat, node: Node, cmd: SignalCommand, waiting: bool): seq<Fact> {
    (if node.contextWrites == [] then [] else [ContextUpdated(node.id, node.contextWrites, row.round)])
    + [SignalReceived(cmd.signal, a, Some(cmd.actor), cmd.notes, None),
       ActivityCompleted(a, ResultOf(cmd.signal), false)]
    + (if waiting then [ReworkResumed(row.node, row.round)] else [])
  }

  /** The rows once the signal is taken and before the graph moves: the activity is completed with the signal's result,
      actor and notes, its timers are cancelled, the context is written, a waiting instance is active again. */
  predicate SettledBy(d: Db, a: nat, node: Node, cmd: SignalCommand, d1: Db)
    requires a < |d.activities|
  {
    && d1 == d.(status := if d.status.ReturnedWaiting? then WorkflowStatus.Active else d.status, context := d1.context,
                activities := d1.activities, log := d1.log, timers := d1.timers)
    && ContextSettled(d, node, cmd.patch, d1.context)
    && d1.activities == d.activities[a := d.activities[a].(status := ActivityStatus.Completed,
                                                           result := ResultOf(cmd.signal),
                                                           reviewer := Some(cmd.actor), notes := cmd.notes)]
    && TimersCancelled(d.timers, a, d1.timers)
    && LogsKeyed(d.log, d1.log, SignalFacts(d.activities[a], a, node, cmd, d.status.ReturnedWaiting?),
                 if node.contextWrites == [] then 0 else 1, cmd.key)
  }

  lemma WrittenRows(d: Db, node: Node, round: int, patch: Option<Context>)
    requires ApplyContextWrites(d, node, round, patch).Ok?
    ensures var d1 := ApplyContextWrites(d, node, round, patch).value;
            && d1 == d.(context := d1.context, log := d1.log) && ContextSettled(d, node, patch, d1.context)
            && LogsOnly(d.log, d1.log,
                        if node.contextWrites == [] then [] else [ContextUpdated(node.id, node.contextWrites, round)])
  {
    WritesExactly(d, node, round, patch);
  }

  lemma ReviewedRows(d: Db, a: nat, cmd: SignalCommand)
    requires d.IsActive(a)
    ensures Review(d, a, cmd).Ok?
    ensures var d1 := Review(d, a, cmd).value;
            && d1 == d.(activities := d1.activities, log := d1.log, timers := d1.timers)
            && d1.activities == d.activities[a := d.activities[a].(status := ActivityStatus.Completed,
                                                                   result := ResultOf(cmd.signal),
                                                                   reviewer := Some(cmd.actor), notes := cmd.notes)]
            && TimersCancelled(d.timers, a, d1.timers)
            && LogsKeyed(d.log, d1.log, [SignalReceived(cmd.signal, a, Some(cmd.actor), cmd.notes, None),
                                         ActivityCompleted(a, ResultOf(cmd.signal), false)], 0, cmd.key)
  {
    var _ := ReviewShape(d, a, cmd);
  }

  lemma ResumedRows(d: Db, a: nat)
    requires a < |d.activities|
    ensures var d1 := ResumeIfWaiting(d, a);
            && d1 == d.(status := if d.status.ReturnedWaiting? then WorkflowStatus.Active else d.status, log := d1.log)
            && LogsOnly(d.log, d1.log, if d.status.ReturnedWaiting?
                                       then [ReworkResumed(d.activities[a].node, d.activities[a].round)] else [])
  {
  }

  lemma LogsInThree(log: seq<Event>, log1: seq<Event>, log2: seq<Event>, log3: seq<Event>, before: seq<Fact>,
                    keyed: seq<Fact>, after: seq<Fact>, key: string)
    requires LogsOnly(log, log1, before) && LogsKeyed(log1, log2, keyed, 0, key) && LogsOnly(log2, log3, after)
    requires keyed != []
    ensures LogsKeyed(log, log3, before + keyed + after, |before|, key)
  {
    var facts := before + keyed + after;
    forall i | 0 <= i < |facts|
      ensures log3[|log| + i].fact == facts[i] && log3[|log| + i].key == if i == |before| then Some(key) else None
    {
      if i < |before| {
        assert log1[|log| + i].fact == before[i];
      } else if i < |before| + |keyed| {
        assert log2[|log1| + (i - |before|)].fact == keyed[i - |before|];
      } else {
        assert log3[|log2| + (i - |before| - |keyed|)].fact == after[i - |before| - |keyed|];
      }
    }
  }

  lemma SettleSettles(d: Db, a: nat, node: Node, cmd: SignalCommand)
    requires d.IsActive(a) && SettleSignal(d, a, node, cmd).Ok?
    ensures SettledBy(d, a, node, cmd, SettleSignal(d, a, node, cmd).value)
  {
    var round := d.activities[a].round;
    WrittenRows(d, node, round, cmd.patch);
    var d1 := ApplyContextWrites(d, node, round, cmd.patch).value;
    ReviewedRows(d1, a, cmd);
    var d2 := Review(d1, a, cmd).value;
    ResumedRows(d2, a);
    var d3 := ResumeIfWaiting(d2, a);
    LogsInThree(d.log, d1.log, d2.log, d3.log,
                if node.contextWrites == [] then [] else [ContextUpdated(node.id, node.contextWrites, round)],
                [SignalReceived(cmd.signal, a, Some(cmd.actor), cmd.notes, None),
                 ActivityCompleted(a, ResultOf(cmd.signal), false)],
                if d.status.ReturnedWaiting? then [ReworkResumed(d.activities[a].node, round)] else [], cmd.key);
  }

  /** A committed signal that is neither a replay nor a claim is one its activity's node is meant for. It settles that
      activity and writes the context, and the outcome carried out is the decision taken for this signal at this node
      under just the context so written, which no later part of the call changes. */
  lemma SignalActs(env: Env, d: Db, cmd: SignalCommand, fuel: nat) returns (a: nat, node: Node, d1: Db)
    requires Signal(env, d, cmd, fuel).Ok? && !Signal(env, d, cmd, fuel).value.1
    requires !cmd.signal.Claimed? && !cmd.signal.Reassigned?
    ensures TargetActivity(d, cmd.activity) == Ok(a) && FindNode(d.def.nodes, d.activities[a].node) == Some(node)
    ensures MeantFor(node.config, cmd.signal, cmd.eventType) && !d.status.IsTerminal()
    ensures SettledBy(d, a, node, cmd, d1)
    ensures var (outcome, trace) := DecideAdvance(d.def, env.cel, d1.Ctx(), d.activities[a].node, cmd.signal);
            Ok(Signal(env, d, cmd, fuel).value.0)
            == ApplyOutcome(env, d1, outcome, trace, a, d.activities[a].round, fuel)
    ensures ContextSettled(d, node, cmd.patch, Signal(env, d, cmd, fuel).value.0.context)
  {
    a := TargetActivity(d, cmd.activity).value;
    node := FindNode(d.def.nodes, d.activities[a].node).value;
    d1 := SettleSignal(d, a, node, cmd).value;
    SettleSettles(d, a, node, cmd);
    var (outcome, trace) := DecideAdvance(d.def, env.cel, d1.Ctx(), d.activities[a].node, cmd.signal);
    assert Ok(Signal(env, d, cmd, fuel).value.0) == MoveOn(env, d1, a, cmd.signal, fuel);
    ApplyKeeps(env, d1, outcome, trace, a, d.activities[a].round, fuel);
  }

  /** The log knows the key. */
  predicate Known(log: seq<Event>, key: string) {
    exists i :: 0 <= i < |log| && log[i].key.Some? && log[i].key.value == key
  }

  /** What a signal is answered before it acts: a blank key, an instance out of sight, a key the log knows, an instance
      that has ended, in this order; then no activity it could be for, and one of a kind it is not meant for. */
  lemma SignalAnswers(env: Env, d: Db, cmd: SignalCommand, fuel: nat)
    ensures var r := Signal(env, d, cmd, fuel);
            if forall i :: 0 <= i < |cmd.key| ==> IsSpace(cmd.key[i]) then r == Err(Validation)
            else if !cmd.visible then r == Err(NotFound)
            else if Known(d.log, cmd.key) then r == Ok((d, true))
            else if d.status.Completed? || d.status.Errored? || d.status.Cancelled? then r == Err(Conflict)
            else
              match TargetActivity(d, cmd.activity)
              case Err(e) => r == Err(e)
              case Ok(a) =>
                match FindNode(d.def.nodes, d.activities[a].node)
                case None => r == Err(InvalidState)
                case Some(node) =>
                  && (!MeantFor(node.config, cmd.signal, cmd.eventType) ==> r == Err(Validation))
                  && (r.Ok? ==> !r.value.1)
  {
    KnownIsSeen(d, cmd.key);
    MeantIsFit(cmd.signal, cmd.eventType);
  }

  lemma KnownIsSeen(d: Db, key: string)
    ensures KeySeen(d, key) <==> Known(d.log, key)
  {
    if Known(d.log, key) {
      var i :| 0 <= i < |d.log| && d.log[i].key.Some? && d.log[i].key.value == key;
      assert d.log[i].key == Some(key);
    }
  }

  lemma MeantIsFit(signal: SignalType, eventType: Option<string>)
    ensures forall node: Node :: SignalFits(node, signal, eventType) <==> MeantFor(node.config, signal, eventType)
  {
  }

  // ------------------------------------------------------------------ claims

  /** A committed claim or reassignment sets the assignee of its activity, logs that under its key, and does nothing
      else. */
  lemma ClaimActs(env: Env, d: Db, cmd: SignalCommand, fuel: nat) returns (a: nat, node: Node)
    requires Signal(env, d, cmd, fuel).Ok? && !Signal(env, d, cmd, fuel).value.1
    requires cmd.signal.Claimed? || cmd.signal.Reassigned?
    ensures TargetActivity(d, cmd.activity) == Ok(a) && FindNode(d.def.nodes, d.activities[a].node) == Some(node)
    ensures MeantFor(node.config, cmd.signal, cmd.eventType) && !d.status.IsTerminal()
    ensures var d' := Signal(env, d, cmd, fuel).value.0;
            && d' == d.(activities := d.activities[a := d.activities[a].(assignee := cmd.assignee)], log := d'.log)
            && LogsKeyed(d.log, d'.log, [SignalReceived(cmd.signal, a, None, None, cmd.assignee)], 0, cmd.key)
  {
    a := TargetActivity(d, cmd.activity).value;
    node := FindNode(d.def.nodes, d.activities[a].node).value;
  }
}
