/** The rows of one instance as mutable state: each method is one guarded UPDATE, INSERT or SELECT. */
module Store {
  import opened Core
  import opened Facts
  import D = Database

  class WorkflowStore {
    const def: Definition
    var status: WorkflowStatus
    var current: Option<nat>
    var result: Option<WorkflowResult>
    var context: Option<Context>
    var sideEffects: bool
    var activities: seq<Activity>
    var log: seq<Event>
    var timers: seq<D.TimerRow>
    var outbox: seq<D.Intent>

    /** The rows as one value. */
    function View(): D.Db
      reads this
    {
      D.Db(def, status, current, result, context, sideEffects, activities, log, timers, outbox)
    }

    /** INSERT of a fresh instance row. */
    constructor (def: Definition, context: Option<Context>)
      ensures View() == D.NewInstance(def, context)
    {
      this.def := def;
      this.status := WorkflowStatus.Active;
      this.current := None;
      this.result := None;
      this.context := context;
      this.sideEffects := false;
      this.activities := [];
      this.log := [];
      this.timers := [];
      this.outbox := [];
    }

    /** Rollback of a transaction to the rows it began with. */
    method Restore(d: D.Db)
      requires d.def == def
      modifies this
      ensures View() == d
    {
      status := d.status;
      current := d.current;
      result := d.result;
      context := d.context;
      sideEffects := d.sideEffects;
      activities := d.activities;
      log := d.log;
      timers := d.timers;
      outbox := d.outbox;
    }

    // ---------------------------------------------------------------- instance row

    method CompleteWorkflow(r: WorkflowResult) returns (done: bool)
      modifies `status, `result, `current
      ensures (View(), done) == D.CompleteWorkflow(old(View()), r)
    {
      done := status.Active?;
      if done {
        status := WorkflowStatus.Completed;
        result := Some(r);
        current := None;
      }
    }

    method ReactivateWorkflow() returns (done: bool)
      modifies `status, `result
      ensures (View(), done) == D.ReactivateWorkflow(old(View()))
    {
      done := status.Completed? && result == Some(WorkflowResult.Returned);
      if done {
        status := WorkflowStatus.Active;
        result := None;
      }
    }

    method ErrorWorkflow()
      modifies `status
      ensures View() == D.ErrorWorkflow(old(View()))
    {
      if status.Active? {
        status := WorkflowStatus.Errored;
      }
    }

    method ClearCurrent()
      modifies `current
      ensures View() == D.ClearCurrent(old(View()))
    {
      current := None;
    }

    method UpdateCurrent(a: nat)
      modifies `current
      ensures View() == D.UpdateCurrent(old(View()), a)
    {
      if status.Active? {
        current := Some(a);
      }
    }

    method EnterReturnedWaiting(a: nat) returns (done: bool)
      modifies `status, `current
      ensures (View(), done) == D.EnterReturnedWaiting(old(View()), a)
    {
      done := status.Active?;
      if done {
        status := WorkflowStatus.ReturnedWaiting;
        current := Some(a);
      }
    }

    method ResumeFromReturnedWaiting() returns (done: bool)
      modifies `status
      ensures (View(), done) == D.ResumeFromReturnedWaiting(old(View()))
    {
      done := status.ReturnedWaiting?;
      if done {
        status := WorkflowStatus.Active;
      }
    }

    method MergeContext(patch: Context)
      modifies `context
      ensures View() == D.MergeContext(old(View()), patch)
    {
      context := Some((if context.Some? then context.value else map[]) + patch);
    }

    method MarkSideEffects()
      modifies `sideEffects
      ensures View() == old(View()).(sideEffects := true)
    {
      sideEffects := true;
    }

    // ---------------------------------------------------------------- activity rows

    method InsertActivity(node: NodeId, activityType: ActivityType, role: Option<Role>, round: int) returns (id: nat)
      modifies `activities
      ensures (View(), id) == D.InsertActivity(old(View()), node, activityType, role, round)
    {
      id := |activities|;
      activities := activities
          + [Activity(id, node, activityType, ActivityStatus.Active, role, None, None, None, None, round)];
    }

    method CompleteActivity(a: nat, r: Option<ActivityResult>, reviewer: int, notes: Option<string>)
      returns (done: bool)
      modifies `activities
      ensures (View(), done) == D.CompleteActivity(old(View()), a, r, reviewer, notes)
    {
      done := a < |activities| && activities[a].status.Active?;
      if done {
        activities := activities[a := activities[a].(status := ActivityStatus.Completed, result := r,
                                                     reviewer := Some(reviewer), notes := notes)];
      }
    }

    method SkipForTimeout(a: nat)
      modifies `activities
      ensures View() == D.SkipForTimeout(old(View()), a)
    {
      if a < |activities| && activities[a].status.Active? {
        activities := activities[a := activities[a].(status := ActivityStatus.Skipped)];
      }
    }

    /** First the timers of the activities about to be skipped, then the activities. */
    method SkipOthers(exclude: Option<nat>) returns (any: bool)
      modifies `activities, `timers
      ensures any == D.SkipsAny(old(View()), exclude)
      ensures View() == D.SkipOthers(old(View()), exclude)
    {
      any := exists i :: 0 <= i < |activities| && D.SkippedBy(activities, i, exclude);
      timers := seq(|timers|, i requires 0 <= i < |timers| reads this =>
                  if timers[i].status.Pending? && D.SkippedBy(activities, timers[i].activity, exclude)
                  then timers[i].(status := D.TimerStatus.Cancelled) else timers[i]);
      activities := seq(|activities|, i requires 0 <= i < |activities| reads this =>
                      if D.SkippedBy(activities, i, exclude)
                      then activities[i].(status := ActivityStatus.Skipped) else activities[i]);
    }

    method UpdateAssignee(a: nat, assignee: Option<int>)
      modifies `activities
      ensures View() == D.UpdateAssignee(old(View()), a, assignee)
    {
      if a < |activities| && activities[a].status.Active? {
        activities := activities[a := activities[a].(assignee := assignee)];
      }
    }

    method UpdateRole(a: nat, role: Role) returns (done: bool)
      modifies `activities
      ensures (View(), done) == D.UpdateRole(old(View()), a, role)
    {
      done := a < |activities| && activities[a].status.Active?;
      if done {
        activities := activities[a := activities[a].(role := Some(role))];
      }
    }

    /** COALESCE(MAX(round), 0) over the activity rows. */
    method MaxRound() returns (m: int)
      ensures m == D.MaxRound(activities)
    {
      m := 0;
      for i := 0 to |activities|
        invariant m == D.MaxRound(activities[..i])
      {
        assert activities[..i + 1][..i] == activities[..i];
        if activities[i].round > m {
          m := activities[i].round;
        }
      }
      assert activities[..|activities|] == activities;
    }

    /** COUNT(*) of the branch activities that have arrived at a join in a round. */
    method CountArrived(branches: seq<NodeId>, round: int) returns (n: nat)
      ensures n == D.CountArrived(activities, branches, round)
    {
      n := 0;
      for i := 0 to |activities|
        invariant n == D.CountArrived(activities[..i], branches, round)
      {
        assert activities[..i + 1][..i] == activities[..i];
        if D.Arrived(activities[i], branches, round) {
          n := n + 1;
        }
      }
      assert activities[..|activities|] == activities;
    }

    // ---------------------------------------------------------------- log, timers, outbox

    /** Next sequence number, then the INSERT. */
    method Append(fact: Fact, key: Option<string>)
      modifies `log
      ensures View() == D.Append(old(View()), fact, key)
    {
      var number := 0;
      for i := 0 to |log|
        invariant log == old(log) && View() == old(View())
        invariant number == D.MaxNumber(log[..i])
      {
        assert log[..i + 1][..i] == log[..i];
        if log[i].number > number {
          number := log[i].number;
        }
      }
      assert log[..|log|] == log;
      log := log + [Event(number + 1, fact, key)];
    }

    method ScheduleTimer(a: nat, kind: TimerKind)
      modifies `timers
      ensures View() == D.ScheduleTimer(old(View()), a, kind)
    {
      if D.TimerRow(a, kind, D.TimerStatus.Pending) !in timers {
        timers := timers + [D.TimerRow(a, kind, D.TimerStatus.Pending)];
      }
    }

    method CancelTimers(a: nat)
      modifies `timers
      ensures View() == D.CancelTimers(old(View()), a)
    {
      timers := seq(|timers|, i requires 0 <= i < |timers| reads this =>
                  if timers[i].status.Pending? && timers[i].activity == a
                  then timers[i].(status := D.TimerStatus.Cancelled) else timers[i]);
    }

    method MarkTimerFired(t: nat) returns (won: bool)
      modifies `timers
      ensures (View(), won) == D.MarkTimerFired(old(View()), t)
    {
      won := t < |timers| && timers[t].status.Pending?;
      if won {
        timers := timers[t := timers[t].(status := D.TimerStatus.Fired)];
      }
    }

    method Enqueue(a: nat, kind: OutboxKind)
      modifies `outbox
      ensures View() == D.Enqueue(old(View()), a, kind)
    {
      if D.Intent(a, kind) !in outbox {
        outbox := outbox + [D.Intent(a, kind)];
      }
    }
  }
}
