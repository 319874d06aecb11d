/** Rebuilding the projection from the event log alone. */
module Replay {
  import opened Core
  import opened Facts

  datatype ReplayedInstance = ReplayedInstance(status: WorkflowStatus, current: Option<nat>,
                                               result: Option<WorkflowResult>)

  datatype Projection = Projection(instance: ReplayedInstance, activities: seq<Activity>)

  // ------------------------------------------------------------------ record lists

  /** Position of the first record with an id; the length of the list when there is none. */
  function FirstIndex(acts: seq<Activity>, id: nat): (k: nat)
    ensures k <= |acts|
    ensures k < |acts| ==> acts[k].id == id
    ensures forall j :: 0 <= j < k ==> acts[j].id != id
  {
    if acts == [] then 0
    else
      var k := FirstIndex(acts[..|acts| - 1], id);
      if k < |acts| - 1 then k
      else if acts[|acts| - 1].id == id then |acts| - 1
      else |acts|
  }

  predicate HasId(acts: seq<Activity>, id: nat) {
    FirstIndex(acts, id) < |acts|
  }

  /** Change the first record with an id, if there is one. */
  function UpdateFirst(acts: seq<Activity>, id: nat, change: Activity -> Activity): (r: seq<Activity>)
    ensures |r| == |acts|
  {
    var k := FirstIndex(acts, id);
    if k < |acts| then acts[k := change(acts[k])] else acts
  }

  function Skip(a: Activity): Activity {
    if a.status.Active? then a.(status := ActivityStatus.Skipped) else a
  }

  function SkipActive(acts: seq<Activity>): (r: seq<Activity>)
    ensures |r| == |acts|
  {
    seq(|acts|, i requires 0 <= i < |acts| => Skip(acts[i]))
  }

  // ------------------------------------------------------------------ the reducer

  function ApplyToInstance(instance: ReplayedInstance, fact: Fact): ReplayedInstance {
    match fact
    case Started(_) => instance.(status := WorkflowStatus.Active)
    case ActivityScheduled(id, _, _, _, via) =>
      instance.(current := if via.Linear? then Some(id) else None,
                status := if instance.status.IsTerminal() then instance.status else WorkflowStatus.Active)
    case Completed(result) => ReplayedInstance(WorkflowStatus.Completed, None, Some(result))
    case Errored => instance.(status := WorkflowStatus.Errored)
    case ReturnedToRework(_, _, _, id, _) =>
      instance.(status := WorkflowStatus.ReturnedWaiting, current := Some(id))
    case ReworkResumed(_, _) => instance.(status := WorkflowStatus.Active)
    case Reactivated(_) => instance.(status := WorkflowStatus.Active, result := None)
    case SplitScheduled(_, _, _) => instance.(current := None)
    case ForEachFannedOut(_, _, _, _) => instance.(current := None)
    case _ => instance
  }

  function OnSignal(fact: Fact): Activity -> Activity
    requires fact.SignalReceived?
  {
    if fact.signal.Claimed? || fact.signal.Reassigned? then
      (a: Activity) => a.(assignee := fact.assignee)
    else
      (a: Activity) => a.(reviewer := fact.reviewer, notes := fact.notes)
  }

  function OnCompleted(fact: Fact): Activity -> Activity
    requires fact.ActivityCompleted?
  {
    (a: Activity) => a.(status := ActivityStatus.Completed, result := fact.result,
                        reviewer := if fact.byDelivery then Some(SYSTEM_ACTOR) else a.reviewer)
  }

  function OnSkipped(): Activity -> Activity {
    (a: Activity) => a.(status := ActivityStatus.Skipped)
  }

  function OnEscalated(toRole: Role): Activity -> Activity {
    (a: Activity) => a.(role := Some(toRole))
  }

  function ApplyToActivities(def: Definition, acts: seq<Activity>, fact: Fact): seq<Activity> {
    match fact
    case ActivityScheduled(id, node, round, role, _) => acts + [Fresh(def, id, node, role, round)]
    case ReturnedToRework(_, node, round, id, role) => acts + [Fresh(def, id, node, role, round)]
    case SignalReceived(_, target, _, _, _) => UpdateFirst(acts, target, OnSignal(fact))
    case ActivityCompleted(id, _, _) => UpdateFirst(acts, id, OnCompleted(fact))
    case ActivitySkipped(only) =>
      if only.Some? then UpdateFirst(acts, only.value, OnSkipped()) else SkipActive(acts)
    case Escalated(id, _, toRole) => UpdateFirst(acts, id, OnEscalated(toRole))
    case _ => acts
  }

  function FoldInstance(log: seq<Event>): ReplayedInstance {
    if log == [] then ReplayedInstance(WorkflowStatus.Pending, None, None)
    else ApplyToInstance(FoldInstance(log[..|log| - 1]), log[|log| - 1].fact)
  }

  function FoldActivities(def: Definition, log: seq<Event>): seq<Activity> {
    if log == [] then []
    else ApplyToActivities(def, FoldActivities(def, log[..|log| - 1]), log[|log| - 1].fact)
  }

  /** The reducer as it runs: one pass over the log, updating the instance and the records in place. */
  method FoldEvents(def: Definition, log: seq<Event>) returns (p: Projection)
    ensures p == Projection(FoldInstance(log), FoldActivities(def, log))
  {
    var instance := ReplayedInstance(WorkflowStatus.Pending, None, None);
    var activities: seq<Activity> := [];
    for i := 0 to |log|
      invariant instance == FoldInstance(log[..i])
      invariant activities == FoldActivities(def, log[..i])
    {
      assert log[..i + 1][..i] == log[..i];
      assert FoldInstance(log[..i + 1]) == ApplyToInstance(instance, log[i].fact);
      assert FoldActivities(def, log[..i + 1]) == ApplyToActivities(def, activities, log[i].fact);
      match log[i].fact
      case Started(_) =>
        instance := instance.(status := WorkflowStatus.Active);
      case ActivityScheduled(id, node, round, role, via) =>
        activities := activities + [Fresh(def, id, node, role, round)];
        instance := instance.(current := if via.Linear? then Some(id) else None);
        if !instance.status.IsTerminal() {
          instance := instance.(status := WorkflowStatus.Active);
        }
      case SignalReceived(signal, target, reviewer, notes, assignee) =>
        var k := FirstIndex(activities, target);
        if k < |activities| {
          if signal.Claimed? || signal.Reassigned? {
            activities := activities[k := activities[k].(assignee := assignee)];
          } else {
            activities := activities[k := activities[k].(reviewer := reviewer, notes := notes)];
          }
        }
      case ActivityCompleted(id, result, byDelivery) =>
        var k := FirstIndex(activities, id);
        if k < |activities| {
          activities := activities[k := activities[k].(status := ActivityStatus.Completed, result := result)];
          if byDelivery {
            activities := activities[k := activities[k].(reviewer := Some(SYSTEM_ACTOR))];
          }
        }
      case ActivitySkipped(only) =>
        if only.Some? {
          var k := FirstIndex(activities, only.value);
          if k < |activities| {
            activities := activities[k := activities[k].(status := ActivityStatus.Skipped)];
          }
        } else {
          activities := SkipActive(activities);
        }
      case Completed(result) =>
        instance := ReplayedInstance(WorkflowStatus.Completed, None, Some(result));
      case Errored =>
        instance := instance.(status := WorkflowStatus.Errored);
      case ReturnedToRework(_, node, round, id, role) =>
        instance := instance.(status := WorkflowStatus.ReturnedWaiting);
        activities := activities + [Fresh(def, id, node, role, round)];
        instance := instance.(current := Some(id));
      case ReworkResumed(_, _) =>
        instance := instance.(status := WorkflowStatus.Active);
      case Reactivated(_) =>
        instance := instance.(status := WorkflowStatus.Active, result := None);
      case Escalated(id, _, toRole) =>
        var k := FirstIndex(activities, id);
        if k < |activities| {
          activities := activities[k := activities[k].(role := Some(toRole))];
        }
      case SplitScheduled(_, _, _) =>
        instance := instance.(current := None);
      case ForEachFannedOut(_, _, _, _) =>
        instance := instance.(current := None);
      case _ =>
    }
    assert log[..|log|] == log;
    p := Projection(instance, activities);
  }

  // ------------------------------------------------------------------ first and surplus records

  /** The first record of every id, in order. */
  function Primary(acts: seq<Activity>): seq<Activity> {
    if acts == [] then []
    else
      var init, last := acts[..|acts| - 1], acts[|acts| - 1];
      if HasId(init, last.id) then Primary(init) else Primary(init) + [last]
  }

  /** The records whose id an earlier record already has, in order. */
  function Surplus(acts: seq<Activity>): seq<Activity> {
    if acts == [] then []
    else
      var init, last := acts[..|acts| - 1], acts[|acts| - 1];
      if HasId(init, last.id) then Surplus(init) + [last] else Surplus(init)
  }

  /** Ids of the activities handed back for rework, one per hand-back, in order. */
  function ReworkIds(log: seq<Event>): seq<nat> {
    if log == [] then []
    else
      var fact := log[|log| - 1].fact;
      ReworkIds(log[..|log| - 1]) + (if fact.ReturnedToRework? then [fact.activity] else [])
  }

  function IdsOf(acts: seq<Activity>): (r: seq<nat>)
    ensures |r| == |acts|
  {
    seq(|acts|, i requires 0 <= i < |acts| => acts[i].id)
  }

  ghost predicate KeepsId(change: Activity -> Activity) {
    forall a: Activity :: change(a).id == a.id
  }

  predicate Dense(acts: seq<Activity>) {
    forall i :: 0 <= i < |acts| ==> acts[i].id == i
  }

  lemma {:induction false} FirstIndexByIds(a: seq<Activity>, b: seq<Activity>, id: nat)
    requires |a| == |b| && forall i :: 0 <= i < |a| ==> a[i].id == b[i].id
    ensures FirstIndex(a, id) == FirstIndex(b, id)
  {
  }

  /** A dense list of first records has exactly the ids below its length. */
  lemma {:induction false} PrimaryHasIds(acts: seq<Activity>, id: nat)
    requires Dense(Primary(acts))
    ensures HasId(acts, id) <==> id < |Primary(acts)|
  {
    if acts != [] {
      var init, last := acts[..|acts| - 1], acts[|acts| - 1];
      assert Dense(Primary(init)) by {
        forall i | 0 <= i < |Primary(init)| ensures Primary(init)[i].id == i {
          assert Primary(acts)[i] == Primary(init)[i];
        }
      }
      PrimaryHasIds(init, id);
      if !HasId(init, last.id) {
        assert Primary(acts)[|Primary(init)|] == last;
      }
    }
  }

  /** Pushing a record with the next free id extends the first records. */
  lemma PushFresh(acts: seq<Activity>, a: Activity)
    requires Dense(Primary(acts)) && a.id == |Primary(acts)|
    ensures Primary(acts + [a]) == Primary(acts) + [a]
    ensures Surplus(acts + [a]) == Surplus(acts)
  {
    PrimaryHasIds(acts, a.id);
    assert (acts + [a])[..|acts|] == acts;
  }

  /** Pushing a record whose id is taken leaves the first records alone. */
  lemma PushTaken(acts: seq<Activity>, a: Activity)
    requires Dense(Primary(acts)) && a.id < |Primary(acts)|
    ensures Primary(acts + [a]) == Primary(acts)
    ensures Surplus(acts + [a]) == Surplus(acts) + [a]
  {
    PrimaryHasIds(acts, a.id);
    assert (acts + [a])[..|acts|] == acts;
  }

  /** Updating by id changes the first record of the id and no surplus record. */
  lemma {:induction false} UpdatePrimary(acts: seq<Activity>, id: nat, change: Activity -> Activity)
    requires KeepsId(change) && Dense(Primary(acts)) && id < |Primary(acts)|
    ensures Primary(UpdateFirst(acts, id, change)) == Primary(acts)[id := change(Primary(acts)[id])]
    ensures Surplus(UpdateFirst(acts, id, change)) == Surplus(acts)
  {
    if acts != [] {
      var init, last := acts[..|acts| - 1], acts[|acts| - 1];
      var acts' := UpdateFirst(acts, id, change);
      var init' := acts'[..|acts| - 1];
      assert Dense(Primary(init)) by {
        forall i | 0 <= i < |Primary(init)| ensures Primary(init)[i].id == i {
          assert Primary(acts)[i] == Primary(init)[i];
        }
      }
      PrimaryHasIds(init, id);
      if HasId(init, id) {
        assert init' == UpdateFirst(init, id, change);
        FirstIndexByIds(init, init', last.id);
        UpdatePrimary(init, id, change);
      } else {
        assert init' == init;
        assert Primary(acts) == Primary(init) + [last];
      }
    }
  }

  lemma SkipAppend(acts: seq<Activity>, a: Activity)
    ensures SkipActive(acts + [a]) == SkipActive(acts) + [Skip(a)]
  {
  }

  lemma {:induction false} SkipPrimary(acts: seq<Activity>)
    ensures Primary(SkipActive(acts)) == SkipActive(Primary(acts))
    ensures Surplus(SkipActive(acts)) == SkipActive(Surplus(acts))
  {
    if acts != [] {
      var init, last := acts[..|acts| - 1], acts[|acts| - 1];
      assert acts == init + [last];
      SkipAppend(init, last);
      assert SkipActive(acts)[..|init|] == SkipActive(init);
      FirstIndexByIds(init, SkipActive(init), last.id);
      SkipPrimary(init);
      if HasId(init, last.id) {
        SkipAppend(Surplus(init), last);
      } else {
        SkipAppend(Primary(init), last);
      }
    }
  }

  lemma {:induction false} PrimaryAndSurplusPartition(acts: seq<Activity>)
    ensures |acts| == |Primary(acts)| + |Surplus(acts)|
    ensures multiset(acts) == multiset(Primary(acts)) + multiset(Surplus(acts))
  {
    if acts != [] {
      var init, last := acts[..|acts| - 1], acts[|acts| - 1];
      PrimaryAndSurplusPartition(init);
      assert acts == init + [last];
    }
  }

  lemma {:induction false} NoSurplusIsPrimary(acts: seq<Activity>)
    requires Surplus(acts) == []
    ensures Primary(acts) == acts
  {
    if acts != [] {
      var init, last := acts[..|acts| - 1], acts[|acts| - 1];
      assert !HasId(init, last.id);
      NoSurplusIsPrimary(init);
      assert acts == init + [last];
    }
  }
}
