/** The rows of one workflow instance and what each store operation does to them. A guarded UPDATE
    that matches no row leaves the rows unchanged. */
module Database {
  import opened Core
  import opened Facts

  datatype TimerStatus = Pending | Fired | Cancelled

  datatype TimerRow = TimerRow(activity: nat, kind: TimerKind, status: TimerStatus)

  /** A side-effect intent, unique per activity and kind. */
  datatype Intent = Intent(activity: nat, kind: OutboxKind)

  datatype Db = Db(
    def: Definition,
    status: WorkflowStatus,
    current: Option<nat>,
    result: Option<WorkflowResult>,
    context: Option<Context>,
    sideEffects: bool,
    activities: seq<Activity>,
    log: seq<Event>,
    timers: seq<TimerRow>,
    outbox: seq<Intent>)
  {
    /** Expressions see an absent context as the empty object. */
    function Ctx(): Context {
      if context.Some? then context.value else map[]
    }

    predicate IsActive(a: nat) {
      a < |activities| && activities[a].status.Active?
    }
  }

  // ------------------------------------------------------------------ instance row

  function NewInstance(def: Definition, context: Option<Context>): Db {
    Db(def, WorkflowStatus.Active, None, None, context, false, [], [], [], [])
  }

  function CompleteWorkflow(d: Db, result: WorkflowResult): (Db, bool) {
    if d.status.Active? then (d.(status := WorkflowStatus.Completed, result := Some(result), current := None), true)
    else (d, false)
  }

  function ReactivateWorkflow(d: Db): (Db, bool) {
    if d.status.Completed? && d.result == Some(WorkflowResult.Returned) then
      (d.(status := WorkflowStatus.Active, result := None), true)
    else (d, false)
  }

  function ErrorWorkflow(d: Db): Db {
    if d.status.Active? then d.(status := WorkflowStatus.Errored) else d
  }

  function ClearCurrent(d: Db): Db {
    d.(current := None)
  }

  function UpdateCurrent(d: Db, a: nat): Db {
    if d.status.Active? then d.(current := Some(a)) else d
  }

  function EnterReturnedWaiting(d: Db, a: nat): (Db, bool) {
    if d.status.Active? then (d.(status := WorkflowStatus.ReturnedWaiting, current := Some(a)), true) else (d, false)
  }

  function ResumeFromReturnedWaiting(d: Db): (Db, bool) {
    if d.status.ReturnedWaiting? then (d.(status := WorkflowStatus.Active), true) else (d, false)
  }

  function MergeContext(d: Db, patch: Context): Db {
    d.(context := Some(d.Ctx() + patch))
  }

  // ------------------------------------------------------------------ activity rows

  function InsertActivity(d: Db, node: NodeId, activityType: ActivityType, role: Option<Role>, round: int): (Db, nat) {
    var id := |d.activities|;
    (d.(activities := d.activities
          + [Activity(id, node, activityType, ActivityStatus.Active, role, None, None, None, None, round)]), id)
  }

  function CompleteActivity(d: Db, a: nat, result: Option<ActivityResult>, reviewer: int, notes: Option<string>)
    : (Db, bool)
  {
    if d.IsActive(a) then
      (d.(activities := d.activities[a := d.activities[a].(status := ActivityStatus.Completed, result := result,
                                                           reviewer := Some(reviewer), notes := notes)]), true)
    else (d, false)
  }

  function SkipForTimeout(d: Db, a: nat): Db {
    if d.IsActive(a) then
      d.(activities := d.activities[a := d.activities[a].(status := ActivityStatus.Skipped)])
    else d
  }

  predicate SkippedBy(acts: seq<Activity>, i: nat, exclude: Option<nat>) {
    i < |acts| && acts[i].status.Active? && exclude != Some(i)
  }

  /** Skip every active activity but one, cancelling the pending timers of those skipped. */
  function SkipOthers(d: Db, exclude: Option<nat>): Db {
    d.(timers := seq(|d.timers|, i requires 0 <= i < |d.timers| =>
                   if d.timers[i].status.Pending? && SkippedBy(d.activities, d.timers[i].activity, exclude)
                   then d.timers[i].(status := TimerStatus.Cancelled) else d.timers[i]),
       activities := seq(|d.activities|, i requires 0 <= i < |d.activities| =>
                   if SkippedBy(d.activities, i, exclude)
                   then d.activities[i].(status := ActivityStatus.Skipped) else d.activities[i]))
  }

  predicate SkipsAny(d: Db, exclude: Option<nat>) {
    exists i :: 0 <= i < |d.activities| && SkippedBy(d.activities, i, exclude)
  }

  function UpdateAssignee(d: Db, a: nat, assignee: Option<int>): Db {
    if d.IsActive(a) then d.(activities := d.activities[a := d.activities[a].(assignee := assignee)]) else d
  }

  function UpdateRole(d: Db, a: nat, role: Role): (Db, bool) {
    if d.IsActive(a) then (d.(activities := d.activities[a := d.activities[a].(role := Some(role))]), true)
    else (d, false)
  }

  function MaxRound(acts: seq<Activity>): int {
    if acts == [] then 0
    else
      var m := MaxRound(acts[..|acts| - 1]);
      if acts[|acts| - 1].round > m then acts[|acts| - 1].round else m
  }

  /** Ids of the active activities, in table order. */
  function ActiveIds(acts: seq<Activity>): (r: seq<nat>)
    ensures forall i :: 0 <= i < |r| ==> r[i] < |acts| && acts[r[i]].status.Active?
  {
    if acts == [] then []
    else
      ActiveIds(acts[..|acts| - 1]) + (if acts[|acts| - 1].status.Active? then [|acts| - 1] else [])
  }

  /** An activity that counts as a branch arrived at a join. */
  predicate Arrived(a: Activity, branches: seq<NodeId>, round: int) {
    && a.status.Completed?
    && a.result != Some(ActivityResult.Rejected) && a.result != Some(ActivityResult.Returned)
    && a.round == round
    && a.node in branches
  }

  function CountArrived(acts: seq<Activity>, branches: seq<NodeId>, round: int): nat {
    if acts == [] then 0
    else
      CountArrived(acts[..|acts| - 1], branches, round)
      + (if Arrived(acts[|acts| - 1], branches, round) then 1 else 0)
  }

  // ------------------------------------------------------------------ event log

  function MaxNumber(log: seq<Event>): int {
    if log == [] then 0
    else
      var m := MaxNumber(log[..|log| - 1]);
      if log[|log| - 1].number > m then log[|log| - 1].number else m
  }

  function Append(d: Db, fact: Fact, key: Option<string>): Db {
    d.(log := d.log + [Event(MaxNumber(d.log) + 1, fact, key)])
  }

  predicate KeySeen(d: Db, key: string) {
    exists i :: 0 <= i < |d.log| && d.log[i].key == Some(key)
  }

  /** Branch count of the latest fan-out towards a join in a round. */
  function ForEachBranchCount(log: seq<Event>, join: NodeId, round: int): Option<nat> {
    if log == [] then None
    else
      var fact := log[|log| - 1].fact;
      if fact.ForEachFannedOut? && fact.join == join && fact.round == round then Some(fact.branchCount)
      else ForEachBranchCount(log[..|log| - 1], join, round)
  }

  /** Terminal callback recorded when the instance was started. */
  function StartedCallback(log: seq<Event>): Option<string> {
    if log == [] then None
    else if log[0].fact.Started? then log[0].fact.callback
    else StartedCallback(log[1..])
  }

  // ------------------------------------------------------------------ timers and outbox

  function ScheduleTimer(d: Db, a: nat, kind: TimerKind): Db {
    if TimerRow(a, kind, TimerStatus.Pending) in d.timers then d
    else d.(timers := d.timers + [TimerRow(a, kind, TimerStatus.Pending)])
  }

  function CancelTimers(d: Db, a: nat): Db {
    d.(timers := seq(|d.timers|, i requires 0 <= i < |d.timers| =>
         if d.timers[i].status.Pending? && d.timers[i].activity == a
         then d.timers[i].(status := TimerStatus.Cancelled) else d.timers[i]))
  }

  function MarkTimerFired(d: Db, t: nat): (Db, bool) {
    if t < |d.timers| && d.timers[t].status.Pending? then
      (d.(timers := d.timers[t := d.timers[t].(status := TimerStatus.Fired)]), true)
    else (d, false)
  }

  function Enqueue(d: Db, a: nat, kind: OutboxKind): Db {
    if Intent(a, kind) in d.outbox then d else d.(outbox := d.outbox + [Intent(a, kind)])
  }
}
