/** What each orchestration call does to the rows of an instance, as a function: `Err` is a rolled-back
    transaction. The classes of module Service carry the calls out step by step against this. */
module Engine {
  import opened Core
  import opened Routing
  import opened Validation
  import opened Facts
  import opened Database

  const MAX_ROUND_HARD_LIMIT: int := 20

  /** Orchestration policy: the configured rework ceiling and the registered callback handlers. */
  datatype Config = Config(maxRound: int, handlers: set<string>) {
    function HardLimit(): (r: int)
      ensures 1 <= r <= MAX_ROUND_HARD_LIMIT
    {
      if maxRound < 1 then 1 else if maxRound > MAX_ROUND_HARD_LIMIT then MAX_ROUND_HARD_LIMIT else maxRound
    }
  }

  datatype Env = Env(cfg: Config, cel: Cel)

  datatype StartCommand = StartCommand(def: Definition, context: Option<Context>, callback: Option<string>)

  datatype SignalCommand = SignalCommand(
    visible: bool, signal: SignalType, activity: Option<nat>, key: string, actor: int, notes: Option<string>,
    eventType: Option<string>, assignee: Option<int>, patch: Option<Context>)

  // ------------------------------------------------------------------ pure helpers

  /** Unicode white space, which keys are trimmed by. */
  predicate IsSpace(c: char) {
    var n := c as int;
    9 <= n <= 13 || n == 0x20 || n == 0x85 || n == 0xA0 || n == 0x1680 || 0x2000 <= n <= 0x200A
    || n == 0x2028 || n == 0x2029 || n == 0x202F || n == 0x205F || n == 0x3000
  }

  predicate Blank(key: string) {
    forall i :: 0 <= i < |key| ==> IsSpace(key[i])
  }

  /** Effective ceiling on rework rounds. */
  function RoundLimit(env: Env, def: Definition): (r: int)
    ensures 1 <= r <= MAX_ROUND_HARD_LIMIT
  {
    var hard := env.cfg.HardLimit();
    if 0 < def.maxRound < hard then def.maxRound else hard
  }

  /** The vocabulary a node kind accepts; a mismatch is a validation error. */
  predicate SignalFits(node: Node, signal: SignalType, eventType: Option<string>) {
    match signal
    case Claimed => node.config.Approval? || node.config.Assignment?
    case Reassigned => node.config.Approval? || node.config.Assignment?
    case Approved => node.config.Approval?
    case Rejected => node.config.Approval?
    case Returned => node.config.Approval?
    case Completed => node.config.Notification? || node.config.Assignment?
    case EventReceived => node.config.EventWait? && eventType == Some(node.config.eventType)
    case Resubmitted => false
  }

  function SignalResult(signal: SignalType): Option<ActivityResult> {
    match signal
    case Approved => Some(ActivityResult.Approved)
    case Rejected => Some(ActivityResult.Rejected)
    case Returned => Some(ActivityResult.Returned)
    case Completed => Some(ActivityResult.Completed)
    case _ => None
  }

  function NodeOf(d: Db, id: NodeId): Result<Node> {
    match FindNode(d.def.nodes, id)
    case Some(node) => Ok(node)
    case None => Err(InvalidState)
  }

  function TargetActivity(d: Db, activity: Option<nat>): (r: Result<nat>)
    ensures r.Ok? ==> d.IsActive(r.value)
  {
    match activity
    case Some(a) =>
      if a >= |d.activities| then Err(NotFound)
      else if !d.activities[a].status.Active? then Err(Conflict)
      else Ok(a)
    case None =>
      var active := ActiveIds(d.activities);
      if |active| == 0 then Err(Conflict)
      else if |active| == 1 then Ok(active[0])
      else Err(Validation)
  }

  predicate PatchCovers(keys: seq<string>, patch: Context) {
    forall i :: 0 <= i < |keys| ==> keys[i] in patch
  }

  function ApplyContextWrites(d: Db, node: Node, round: int, patch: Option<Context>): Result<Db> {
    if node.contextWrites == [] then Ok(d)
    else if patch.None? || !PatchCovers(node.contextWrites, patch.value) then Err(Validation)
    else
      var filtered := map k | k in node.contextWrites && k in patch.value :: patch.value[k];
      Ok(Append(MergeContext(d, filtered), ContextUpdated(node.id, node.contextWrites, round), None))
  }

  // ------------------------------------------------------------------ scheduling and completing

  function ScheduleNodeTimers(d: Db, a: nat, node: Node): Db {
    var d1 := if node.SlaSeconds().Some? then ScheduleTimer(d, a, TimerKind.Reminder) else d;
    var d2 := if node.EscalationConfig().Some? then ScheduleTimer(d1, a, TimerKind.Escalation) else d1;
    if node.TimeoutSeconds().Some? then ScheduleTimer(d2, a, TimerKind.Timeout) else d2
  }

  function ScheduleActivity(d: Db, node: Node, role: Option<Role>, round: int, via: Via): Result<(Db, nat)> {
    if node.config.SubWorkflow? then Err(Validation)
    else
      var (d1, a) := InsertActivity(d, node.id, InstantiatedType(node.config), role, round);
      var d2 := Append(d1, ActivityScheduled(a, node.id, round, role, via), None);
      var d3 := ScheduleNodeTimers(d2, a, node);
      Ok((if node.config.Notification? then Enqueue(d3, a, OutboxKind.Notify) else d3, a))
  }

  function FinishActivity(d: Db, a: nat, result: Option<ActivityResult>, actor: int, notes: Option<string>): Result<Db>
  {
    var (d1, done) := CompleteActivity(d, a, result, actor, notes);
    if !done then Err(Conflict)
    else Ok(Append(CancelTimers(d1, a), ActivityCompleted(a, result, false), None))
  }

  // ------------------------------------------------------------------ applying an outcome

  function AppendMerges(d: Db, from: NodeId, merges: seq<NodeId>, round: int): Db
    decreases |merges|
  {
    if merges == [] then d
    else AppendMerges(Append(d, MergePassed(from, merges[0], round), None), from, merges[1..], round)
  }

  function FailInstance(d: Db): Db {
    Append(ErrorWorkflow(d), Fact.Errored, None)
  }

  /** Activity a terminal callback is anchored to: an active one if there is any, else the last one. */
  function Anchor(acts: seq<Activity>): Option<nat> {
    var active := ActiveIds(acts);
    if active != [] then Some(active[|active| - 1])
    else if acts != [] then Some(|acts| - 1)
    else None
  }

  function CompleteInstance(env: Env, d: Db, result: WorkflowResult): Result<Db> {
    var (d1, done) := CompleteWorkflow(d, result);
    if !done then Err(Conflict)
    else
      var d2 := Append(d1, Fact.Completed(result), None);
      var callback := StartedCallback(d2.log);
      if !result.Approved? || callback.None? then Ok(d2)
      else if Anchor(d2.activities).None? then Err(InvalidState)
      else if callback.value !in env.cfg.handlers then Err(Validation)
      else Ok(Enqueue(d2, Anchor(d2.activities).value, OutboxKind.BusinessCallback))
  }

  /** The activity of the new round, and the instance waiting for it. */
  function EnterRework(d: Db, node: Node, role: Option<Role>, round: int, from: NodeId): Result<Db> {
    var (d1, a) :- ScheduleActivity(d, node, role, round, Linear);
    var (d2, entered) := EnterReturnedWaiting(d1, a);
    if !entered then Err(Conflict) else Ok(Append(d2, ReturnedToRework(from, node.id, round, a, role), None))
  }

  /** The round after the highest one, if the limit allows it. */
  function NextRound(env: Env, d: Db): Result<int> {
    var round := MaxRound(d.activities) + 1;
    if round > RoundLimit(env, d.def) then Err(Conflict) else Ok(round)
  }

  /** The hand-back in its round, which is known to be within the limit. */
  function HandBackIn(d: Db, target: NodeId, role: Option<Role>, round: int, from: NodeId): Result<Db> {
    match FindNode(d.def.nodes, target)
    case None => Err(InvalidState)
    case Some(node) => EnterRework(d, node, role, round, from)
  }

  function HandBack(env: Env, d: Db, target: NodeId, role: Option<Role>, src: nat): Result<Db>
    requires src < |d.activities|
  {
    match NextRound(env, d)
    case Err(e) => Err(e)
    case Ok(round) => HandBackIn(d, target, role, round, d.activities[src].node)
  }

  function AdvanceTo(d: Db, node: Node, role: Option<Role>, round: int): Result<Db> {
    var (d1, a) :- ScheduleActivity(d, node, role, round, Linear);
    Ok(UpdateCurrent(d1, a))
  }

  function ScheduleTargets(d: Db, targets: seq<ParallelTarget>, round: int, byForEach: bool): Result<Db>
    decreases |targets|
  {
    if targets == [] then Ok(d)
    else
      var node :- NodeOf(d, targets[0].node);
      var (d1, _) :- ScheduleActivity(d, node, targets[0].role, round, Fanned(byForEach, targets[0].item));
      ScheduleTargets(d1, targets[1..], round, byForEach)
  }

  function NodesOf(targets: seq<ParallelTarget>): seq<NodeId> {
    seq(|targets|, i requires 0 <= i < |targets| => targets[i].node)
  }

  function Sources(transitions: seq<Transition>): seq<NodeId> {
    seq(|transitions|, i requires 0 <= i < |transitions| => transitions[i].from)
  }

  function ForEachTemplate(nodes: seq<Node>, join: NodeId): Option<NodeId> {
    if nodes == [] then None
    else if nodes[0].config.ForEach? && nodes[0].config.joinTarget == join then Some(nodes[0].config.branchTemplate)
    else ForEachTemplate(nodes[1..], join)
  }

  function StrategyOf(join: Node): JoinStrategy {
    if join.config.ParallelJoin? then join.config.strategy else WaitAll
  }

  /** How many branches a join expects in a round, and the node ids it counts them by. */
  function Expectation(d: Db, join: NodeId, round: int): Result<(int, seq<NodeId>)> {
    match ForEachBranchCount(d.log, join, round)
    case Some(n) =>
      (match ForEachTemplate(d.def.nodes, join)
       case Some(template) => Ok((n, [template]))
       case None => Err(InvalidState))
    case None =>
      var incoming := Incoming(d.def.transitions, join);
      Ok((|incoming|, Sources(incoming)))
  }

  /** The part of a satisfied join that precedes the advance past it. */
  function SatisfyJoin(d: Db, join: Node, arrived: int, expected: int, round: int, exclude: Option<nat>): Db {
    var d1 := Append(d, JoinSatisfied(join.id, arrived, expected, round), None);
    if !StrategyOf(join).SkipsRemaining() || !SkipsAny(d1, exclude) then d1
    else Append(SkipOthers(d1, exclude), ActivitySkipped(None), None)
  }

  function TrySatisfyJoin(env: Env, d: Db, join: Node, src: nat, round: int, exclude: Option<nat>, fuel: nat)
    : Result<Db>
    requires src < |d.activities|
    decreases fuel, 1
  {
    var (expected, branches) :- Expectation(d, join.id, round);
    var arrived := CountArrived(d.activities, branches, round);
    if !StrategyOf(join).IsSatisfied(arrived, expected) then Ok(ClearCurrent(d))
    else if fuel == 0 then Err(Diverges)
    else PassJoin(env, SatisfyJoin(d, join, arrived, expected, round, exclude), join.id, src, round, fuel - 1)
  }

  /** Past a satisfied join the graph moves on its APPROVED edge. */
  function PassJoin(env: Env, d: Db, join: NodeId, src: nat, round: int, fuel: nat): Result<Db>
    requires src < |d.activities|
    decreases fuel, 5
  {
    var (outcome, trace) := DecideAdvance(d.def, env.cel, d.Ctx(), join, SignalType.Approved);
    ApplyOutcome(env, d, outcome, trace, src, round, fuel)
  }

  function ReachJoin(env: Env, d: Db, join: Node, src: nat, round: int, fuel: nat): Result<Db>
    requires src < |d.activities|
    decreases fuel, 2
  {
    var d1 := Append(d, Fact.BranchReachedJoin(d.activities[src].node, join.id, round), None);
    TrySatisfyJoin(env, d1, join, src, round, Some(src), fuel)
  }

  function MarkFanOut(d: Db, targets: seq<ParallelTarget>, forEach: Option<FanOut>, src: nat, round: int): Db
    requires src < |d.activities|
  {
    var fact := if forEach.Some?
                then ForEachFannedOut(forEach.value.forEachNode, forEach.value.joinTarget, |targets|, round)
                else SplitScheduled(d.activities[src].node, NodesOf(targets), round);
    Append(ClearCurrent(d), fact, None)
  }

  function FanOutTo(env: Env, d: Db, targets: seq<ParallelTarget>, forEach: Option<FanOut>, src: nat, round: int,
                    fuel: nat)
    : Result<Db>
    requires src < |d.activities|
    decreases fuel, 2
  {
    var d1 := MarkFanOut(d, targets, forEach, src, round);
    if targets == [] && forEach.Some? then
      var join :- NodeOf(d1, forEach.value.joinTarget);
      TrySatisfyJoin(env, d1, join, src, round, None, fuel)
    else
      ScheduleTargets(d1, targets, round, forEach.Some?)
  }

  function ApplyOutcome(env: Env, d: Db, outcome: AdvanceOutcome, trace: ResolveTrace, src: nat, round: int, fuel: nat)
    : Result<Db>
    requires src < |d.activities|
    decreases fuel, 4
  {
    MergesKeepRows(d, d.activities[src].node, trace.merges, round);
    Dispatch(env, AppendMerges(d, d.activities[src].node, trace.merges, round), outcome, trace.forEach, src, round,
             fuel)
  }

  function Dispatch(env: Env, d: Db, outcome: AdvanceOutcome, forEach: Option<FanOut>, src: nat, round: int, fuel: nat)
    : Result<Db>
    requires src < |d.activities|
    decreases fuel, 3
  {
    match outcome
    case Advance(target, role) =>
      var node :- NodeOf(d, target);
      if node.config.ParallelJoin? then ReachJoin(env, d, node, src, round, fuel)
      else AdvanceTo(d, node, role, round)
    case AdvanceMulti(targets) => FanOutTo(env, d, targets, forEach, src, round, fuel)
    case Complete(result) => CompleteInstance(env, d, result)
    case Rework(target, role) => HandBack(env, d, target, role, src)
    case Error => Ok(FailInstance(d))
  }

  lemma {:induction false} MergesKeepRows(d: Db, from: NodeId, merges: seq<NodeId>, round: int)
    ensures var d' := AppendMerges(d, from, merges, round);
            d' == d.(log := d'.log) && |d'.log| == |d.log| + |merges|
    decreases |merges|
  {
    if merges != [] {
      MergesKeepRows(Append(d, MergePassed(from, merges[0], round), None), from, merges[1..], round);
    }
  }

  // ------------------------------------------------------------------ public calls

  /** A fresh instance. */
  function StartInstance(env: Env, cmd: StartCommand): Result<Db> {
    if !ValidDefinition(cmd.def, env.cel) then Err(Validation)
    else
      match DecideStart(cmd.def.nodes)
      case None => Err(Validation)
      case Some(entry) =>
        if cmd.callback.Some? && (cmd.callback.value == "" || cmd.callback.value !in env.cfg.handlers)
            then Err(Validation)
        else
          var d := Append(NewInstance(cmd.def, cmd.context), Started(cmd.callback), None);
          var node :- NodeOf(d, entry.id);
          AdvanceTo(d, node, entry.AssigneeRole(), 1)
  }

  predicate IsClaim(signal: SignalType) {
    signal.Claimed? || signal.Reassigned?
  }

  function Claim(d: Db, a: nat, cmd: SignalCommand): Db {
    Append(UpdateAssignee(d, a, cmd.assignee),
           SignalReceived(cmd.signal, a, None, None, cmd.assignee), Some(cmd.key))
  }

  /** Log the signal and complete the activity it was for. */
  function Review(d: Db, a: nat, cmd: SignalCommand): Result<Db> {
    var d1 := Append(d, SignalReceived(cmd.signal, a, Some(cmd.actor), cmd.notes, None), Some(cmd.key));
    FinishActivity(d1, a, SignalResult(cmd.signal), cmd.actor, cmd.notes)
  }

  function ResumeIfWaiting(d: Db, a: nat): Db
    requires a < |d.activities|
  {
    var (d1, resumed) := ResumeFromReturnedWaiting(d);
    if resumed then Append(d1, ReworkResumed(d.activities[a].node, d.activities[a].round), None) else d
  }

  /** The rows after the activity is completed and before the graph moves. */
  function SettleSignal(d: Db, a: nat, node: Node, cmd: SignalCommand): Result<Db>
    requires a < |d.activities|
  {
    var d1 :- ApplyContextWrites(d, node, d.activities[a].round, cmd.patch);
    var d2 :- Review(d1, a, cmd);
    Ok(ResumeIfWaiting(d2, a))
  }

  function MoveOn(env: Env, d: Db, a: nat, signal: SignalType, fuel: nat): Result<Db>
    requires a < |d.activities|
  {
    var (outcome, trace) := DecideAdvance(d.def, env.cel, d.Ctx(), d.activities[a].node, signal);
    ApplyOutcome(env, d, outcome, trace, a, d.activities[a].round, fuel)
  }

  /** What a call answers once it has acted. */
  function Acted(r: Result<Db>): Result<(Db, bool)> {
    match r
    case Ok(d) => Ok((d, false))
    case Err(e) => Err(e)
  }

  /** What a signal does to the activity it is for. */
  function Heed(env: Env, d: Db, a: nat, node: Node, cmd: SignalCommand, fuel: nat): Result<Db>
    requires a < |d.activities|
  {
    if IsClaim(cmd.signal) then Ok(Claim(d, a, cmd))
    else
      var d1 :- SettleSignal(d, a, node, cmd);
      MoveOn(env, d1, a, cmd.signal, fuel)
  }

  function Signal(env: Env, d: Db, cmd: SignalCommand, fuel: nat): Result<(Db, bool)> {
    if Blank(cmd.key) then Err(Validation)
    else if !cmd.visible then Err(NotFound)
    else if KeySeen(d, cmd.key) then Ok((d, true))
    else if d.status.IsTerminal() then Err(Conflict)
    else
      var a :- TargetActivity(d, cmd.activity);
      var node :- NodeOf(d, d.activities[a].node);
      if !SignalFits(node, cmd.signal, cmd.eventType) then Err(Validation)
      else Acted(Heed(env, d, a, node, cmd, fuel))
  }

  /** The next round opened, with the entry activity in it. */
  function Reopen(d: Db, key: string, round: int): Result<Db> {
    var d1 := Append(ReactivateWorkflow(d).0, Reactivated(round), Some(key));
    match DecideStart(d.def.nodes)
    case None => Err(Validation)
    case Some(entry) =>
      var node :- NodeOf(d1, entry.id);
      AdvanceTo(d1, node, entry.AssigneeRole(), round)
  }

  function Readmit(env: Env, d: Db, key: string): Result<(Db, bool)> {
    match NextRound(env, d)
    case Err(e) => Err(e)
    case Ok(round) => Acted(Reopen(d, key, round))
  }

  function Resubmit(env: Env, d: Db, key: string, visible: bool): Result<(Db, bool)> {
    if Blank(key) then Err(Validation)
    else if !visible then Err(NotFound)
    else if KeySeen(d, key) then Ok((d, true))
    else if !(d.status.Completed? && d.result == Some(WorkflowResult.Returned)) then Err(InvalidState)
    else Readmit(env, d, key)
  }

  /** The rows once an activity is skipped by its deadline, with its timers cancelled. */
  function TimedOutDb(d: Db, a: nat): Db {
    Append(CancelTimers(SkipForTimeout(d, a), a), ActivitySkipped(Some(a)), None)
  }

  function FireTimeout(env: Env, d: Db, a: nat, fuel: nat): Result<Db>
    requires a < |d.activities|
  {
    var d1 := TimedOutDb(d, a);
    var (outcome, trace) := DecideTimeout(d1.def, env.cel, d1.Ctx(), d.activities[a].node);
    ApplyOutcome(env, d1, outcome, trace, a, d.activities[a].round, fuel)
  }

  function FireEscalation(d: Db, a: nat, node: Node): (Db, bool)
    requires a < |d.activities|
  {
    match node.EscalationConfig()
    case None => (d, false)
    case Some(escalation) =>
      var (d1, updated) := UpdateRole(d, a, escalation.1);
      if !updated then (d1, true)
      else
        (Enqueue(Append(d1, Escalated(a, d.activities[a].role, escalation.1), None), a, OutboxKind.NotifyEscalation),
         true)
  }

  function OnTimer(env: Env, d: Db, kind: TimerKind, a: nat, node: Node, fuel: nat): Result<(Db, bool)>
    requires a < |d.activities|
  {
    match kind
    case Reminder => Ok((Enqueue(d, a, OutboxKind.NotifyReminder), true))
    case Escalation => Ok(FireEscalation(d, a, node))
    case Timeout =>
      var d1 :- FireTimeout(env, d, a, fuel);
      Ok((d1, true))
  }

  function FireTimer(env: Env, d: Db, t: nat, fuel: nat): Result<(Db, bool)> {
    var (d1, won) := MarkTimerFired(d, t);
    if !won then Ok((d, false))
    else
      var a := d.timers[t].activity;
      if d1.status.IsTerminal() || !d1.IsActive(a) then Ok((d1, false))
      else
        var node :- NodeOf(d1, d1.activities[a].node);
        OnTimer(env, Append(d1, Fact.TimerFired(d.timers[t].kind, a), None), d.timers[t].kind, a, node, fuel)
  }

  /** The rows once a delivered notification activity is completed. */
  function SettleDelivery(d: Db, a: nat): Db {
    Append(CancelTimers(CompleteActivity(d, a, None, SYSTEM_ACTOR, None).0, a), ActivityCompleted(a, None, true), None)
  }

  function OnNotificationDelivered(env: Env, d: Db, a: nat, fuel: nat): Result<Db> {
    if d.status.IsTerminal() || !d.IsActive(a) || !d.activities[a].activityType.Notification? then Ok(d)
    else MoveOn(env, SettleDelivery(d, a), a, SignalType.Completed, fuel)
  }

  function OnCallbackDelivered(d: Db): Db {
    d.(sideEffects := true)
  }

  function OnDeadLetter(d: Db, a: nat, kind: OutboxKind): Db {
    Append(d, ActivityFailed(a, kind), None)
  }

  // ------------------------------------------------------------------ runs

  datatype Step =
    | SignalStep(cmd: SignalCommand)
    | ResubmitStep(key: string, visible: bool)
    | FireStep(timer: nat)
    | DeliverStep(activity: nat)
    | CallbackStep
    | DeadLetterStep(activity: nat, kind: OutboxKind)

  function Run(env: Env, d: Db, step: Step, fuel: nat): Result<Db> {
    match step
    case SignalStep(cmd) => (var (d1, _) :- Signal(env, d, cmd, fuel); Ok(d1))
    case ResubmitStep(key, visible) => (var (d1, _) :- Resubmit(env, d, key, visible); Ok(d1))
    case FireStep(t) => (var (d1, _) :- FireTimer(env, d, t, fuel); Ok(d1))
    case DeliverStep(a) => OnNotificationDelivered(env, d, a, fuel)
    case CallbackStep => Ok(OnCallbackDelivered(d))
    case DeadLetterStep(a, kind) => Ok(OnDeadLetter(d, a, kind))
  }

  /** A step as one transaction: it commits or leaves the rows as they were. */
  function Commit(env: Env, d: Db, step: Step, fuel: nat): Db {
    match Run(env, d, step, fuel)
    case Ok(d') => d'
    case Err(_) => d
  }

  function RunAll(env: Env, d: Db, steps: seq<Step>, fuel: nat): Db {
    if steps == [] then d
    else Commit(env, RunAll(env, d, steps[..|steps| - 1], fuel), steps[|steps| - 1], fuel)
  }
}
