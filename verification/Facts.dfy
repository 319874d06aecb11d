/** The event log: what the service appends, with the payload the reducer reads. */
module Facts {
  import opened Core

  /** How an activity came to be scheduled: on the line, or as a branch of a ParallelSplit or of a
      ForEach with the item it stands for. */
  datatype Via = Linear | Fanned(byForEach: bool, item: Option<(nat, Json)>)

  datatype TimerKind = Reminder | Escalation | Timeout

  datatype OutboxKind = Notify | NotifyReminder | NotifyEscalation | BusinessCallback

  datatype Fact =
    | Started(callback: Option<string>)
    | ActivityScheduled(activity: nat, node: NodeId, round: int, role: Option<Role>, via: Via)
    | SignalReceived(signal: SignalType, target: nat, reviewer: Option<int>, notes: Option<string>,
                     assignee: Option<int>)
    | ActivityCompleted(activity: nat, result: Option<ActivityResult>, byDelivery: bool)
    | ActivityFailed(activity: nat, intent: OutboxKind)
    | ActivitySkipped(only: Option<nat>)
    | Completed(outcome: WorkflowResult)
    | Errored
    | Reactivated(round: int)
    | TimerFired(kind: TimerKind, activity: nat)
    | SplitScheduled(from: NodeId, branches: seq<NodeId>, round: int)
    | ForEachFannedOut(forEachNode: NodeId, join: NodeId, branchCount: nat, round: int)
    | BranchReachedJoin(branch: NodeId, join: NodeId, round: int)
    | JoinSatisfied(join: NodeId, arrived: int, expected: int, round: int)
    | Escalated(activity: nat, fromRole: Option<Role>, toRole: Role)
    | MergePassed(from: NodeId, merge: NodeId, round: int)
    | ReturnedToRework(from: NodeId, reworkTarget: NodeId, round: int, activity: nat, role: Option<Role>)
    | ReworkResumed(reworkTarget: NodeId, round: int)
    | ContextUpdated(node: NodeId, keys: seq<string>, round: int)

  /** One row of the log: its sequence number, the fact, and the caller's idempotency key if any. */
  datatype Event = Event(number: int, fact: Fact, key: Option<string>)

  /** The canonical fields of an activity, as its row holds them and as replay rebuilds them.
      Ids are positions in the activity table; actor id 0 is the system. */
  datatype Activity = Activity(
    id: nat, node: NodeId, activityType: ActivityType, status: ActivityStatus, role: Option<Role>,
    assignee: Option<int>, result: Option<ActivityResult>, notes: Option<string>, reviewer: Option<int>, round: int)

  const SYSTEM_ACTOR: int := 0

  /** Activity type a node id is instantiated with under a snapshot. */
  function ActivityTypeFor(def: Definition, node: NodeId): ActivityType {
    var found := FindNode(def.nodes, node);
    if found.Some? then InstantiatedType(found.value.config) else ActivityType.Approval
  }

  /** A freshly scheduled activity. */
  function Fresh(def: Definition, id: nat, node: NodeId, role: Option<Role>, round: int): Activity {
    Activity(id, node, ActivityTypeFor(def, node), ActivityStatus.Active, role, None, None, None, None, round)
  }

  /** Facts that set the replayed status whatever it was. */
  predicate SetsStatus(fact: Fact) {
    fact.Started? || fact.Completed? || fact.ReturnedToRework? || fact.ReworkResumed? || fact.Reactivated?
  }

  /** Facts that schedule work or end the instance by an error. */
  predicate Stirs(fact: Fact) {
    fact.ActivityScheduled? || fact.Errored?
  }
}
