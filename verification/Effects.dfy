/** What a decision leaves in the rows, the log, the timers and the outbox, by the kind of node it lands at. Everything
    is said of the node's own fields. */
module Effects {
  import opened Core
  import opened Routing
  import opened Facts
  import opened Database
  import opened Engine
  import opened Invariants
  import opened Preservation

  // ------------------------------------------------------------------ one activity

  /** The role an activity of the node is for: an approval's own, nobody's for the other kinds. */
  function RoleOf(node: Node): Option<Role> {
    if node.config.Approval? then node.config.assigneeRole else None
  }

  predicate TypeFits(t: ActivityType, c: NodeConfig) {
    && (c.Approval? ==> t.Approval?) && (c.Notification? ==> t.Notification?)
    && (c.EventWait? ==> t.EventWait?) && (c.Assignment? ==> t.Assignment?)
  }

  /** A row just scheduled for the node, with nothing on it yet. */
  predicate FreshFor(row: Activity, id: nat, node: Node, round: int) {
    && row.id == id && row.node == node.id && row.round == round && row.status.Active? && row.role == RoleOf(node)
    && TypeFits(row.activityType, node.config)
    && row.assignee.None? && row.result.None? && row.notes.None? && row.reviewer.None?
  }

  /** The log grew by these facts, none of them under a caller's key. */
  predicate LogsOnly(log: seq<Event>, log': seq<Event>, facts: seq<Fact>) {
    && |log'| == |log| + |facts| && log <= log'
    && forall i :: 0 <= i < |facts| ==> log'[|log| + i].fact == facts[i] && log'[|log| + i].key.None?
  }

  /** The node's fields that call for a timer of the kind. */
  predicate AsksFor(c: NodeConfig, kind: TimerKind) {
    match kind
    case Reminder => c.Approval? && c.slaSecs.Some? && c.slaSecs.value > 0
    case Escalation =>
      && c.Approval? && c.escalationSecs.Some? && c.escalationSecs.value > 0
      && c.escalationRole.Some? && c.escalationRole.value != ""
    case Timeout => c.EventWait? && c.timeoutSecs.Some? && c.timeoutSecs.value > 0
  }

  /** Just the timers the node's fields ask for are new, all of them pending for the activity. */
  ghost predicate TimersSet(timers: seq<TimerRow>, a: nat, node: Node, timers': seq<TimerRow>) {
    && timers <= timers'
    && (forall kind :: TimerRow(a, kind, TimerStatus.Pending) in timers' <==> AsksFor(node.config, kind))
    && (forall t :: |timers| <= t < |timers'| ==> timers'[t].activity == a && timers'[t].status.Pending?)
  }

  /** Just a Notification owes a delivery. */
  predicate DeliveryOwed(outbox: seq<Intent>, a: nat, node: Node, outbox': seq<Intent>) {
    && outbox <= outbox' && |outbox'| <= |outbox| + 1
    && (if node.config.Notification? then Intent(a, OutboxKind.Notify) in outbox' else outbox' == outbox)
    && forall x :: x in outbox' ==> x in outbox || x == Intent(a, OutboxKind.Notify)
  }

  /** One activity of the node is under way; the instance row is as it was. */
  ghost predicate Opens(d: Db, node: Node, round: int, via: Via, d': Db) {
    var a := |d.activities|;
    && d' == d.(activities := d'.activities, log := d'.log, timers := d'.timers, outbox := d'.outbox)
    && |d'.activities| == a + 1 && d.activities <= d'.activities && FreshFor(d'.activities[a], a, node, round)
    && LogsOnly(d.log, d'.log, [ActivityScheduled(a, node.id, round, RoleOf(node), via)])
    && TimersSet(d.timers, a, node, d'.timers) && DeliveryOwed(d.outbox, a, node, d'.outbox)
  }

  /** Scheduling opens an activity, and refuses a SubWorkflow only. */
  lemma OpensExactly(d: Db, node: Node, round: int, via: Via)
    requires TimersOk(d.timers, d.activities) && FindNode(d.def.nodes, node.id) == Some(node)
    ensures var r := ScheduleActivity(d, node, RoleOf(node), round, via);
            if node.config.SubWorkflow? then r == Err(Validation)
            else && r.Ok? && r.value.1 == |d.activities| && Opens(d, node, round, via, r.value.0)
                 && TimersOk(r.value.0.timers, r.value.0.activities)
  {
    if !node.config.SubWorkflow? {
      ScheduleExactly(d, node, RoleOf(node), round, via);
      ScheduleShape(d, node, RoleOf(node), round, via);
      AsksIsDeclares(node);
    }
  }

  lemma AsksIsDeclares(node: Node)
    ensures forall kind :: AsksFor(node.config, kind) <==> Declares(node, kind)
  {
  }

  // ------------------------------------------------------------------ landings on the line

  /** The outcome of a decision that landed at the node, carried out. */
  function Landed(env: Env, d: Db, id: NodeId, src: nat, round: int, fuel: nat): Result<Db>
    requires src < |d.activities|
  {
    Dispatch(env, d, Landing(d.def, env.cel, d.Ctx(), id), LandingFanOut(d.def, id), src, round, fuel)
  }

  lemma AdvanceOpens(d: Db, node: Node, round: int)
    requires TimersOk(d.timers, d.activities) && FindNode(d.def.nodes, node.id) == Some(node) && node.IsActivity()
    ensures var r := AdvanceTo(d, node, RoleOf(node), round);
            && r.Ok? && Opens(d, node, round, Linear, r.value.(current := d.current))
            && r.value.current == if d.status.Active? then Some(|d.activities|) else d.current
  {
    OpensExactly(d, node, round, Linear);
  }

  /** At an activity node one activity opens and becomes the current one, unless the instance waits. */
  lemma ActivityLands(env: Env, d: Db, node: Node, src: nat, round: int, fuel: nat)
    requires src < |d.activities| && TimersOk(d.timers, d.activities) && FindNode(d.def.nodes, node.id) == Some(node)
    requires node.config.Approval? || node.config.Notification? || node.config.EventWait? || node.config.Assignment?
    ensures var r := Landed(env, d, node.id, src, round, fuel);
            && r.Ok? && Opens(d, node, round, Linear, r.value.(current := d.current))
            && r.value.current == if d.status.Active? then Some(|d.activities|) else d.current
  {
    AdvanceOpens(d, node, round);
    assert Landing(d.def, env.cel, d.Ctx(), node.id) == Advance(node.id, RoleOf(node));
    assert Landed(env, d, node.id, src, round, fuel) == AdvanceTo(d, node, RoleOf(node), round);
  }

  /** The instance fails, and that is all: it is errored if it was active, and the log says so. */
  predicate Fails(d: Db, r: Result<Db>) {
    && r.Ok? && LogsOnly(d.log, r.value.log, [Fact.Errored])
    && r.value == d.(status := if d.status.Active? then WorkflowStatus.Errored else d.status, log := r.value.log)
  }

  /** Nothing can be landed at: no such node, a Start or a kind that is not executed. */
  lemma NothingLands(env: Env, d: Db, id: NodeId, src: nat, round: int, fuel: nat)
    requires src < |d.activities|
    requires var found := FindNode(d.def.nodes, id);
             found.None? || found.value.config.Start? || found.value.config.Parallel? || found.value.config.Timer?
    ensures Fails(d, Landed(env, d, id, src, round, fuel))
  {
  }

  lemma SubWorkflowRefused(env: Env, d: Db, node: Node, src: nat, round: int, fuel: nat)
    requires src < |d.activities| && FindNode(d.def.nodes, node.id) == Some(node) && node.config.SubWorkflow?
    ensures Landed(env, d, node.id, src, round, fuel) == Err(Validation)
  {
  }

  /** The result code of an End: rejected, returned, and otherwise approved. */
  function ResultFor(code: Option<string>): WorkflowResult {
    match code
    case None => WorkflowResult.Approved
    case Some(text) =>
      if text == "rejected" then WorkflowResult.Rejected
      else if text == "returned" then WorkflowResult.Returned
      else WorkflowResult.Approved
  }

  /** The activity a callback is anchored to: the active one highest in the table, or the last if none is active. */
  predicate Anchors(acts: seq<Activity>, a: nat) {
    && a < |acts|
    && if acts[a].status.Active? then forall b :: a < b < |acts| ==> !acts[b].status.Active?
       else a == |acts| - 1 && forall b :: 0 <= b < |acts| ==> !acts[b].status.Active?
  }

  lemma {:induction false} LastActiveAnchors(acts: seq<Activity>)
    ensures var active := ActiveIds(acts);
            && (active == [] ==> forall b :: 0 <= b < |acts| ==> !acts[b].status.Active?)
            && (active != [] ==>
                  forall b :: active[|active| - 1] < b < |acts| ==> !acts[b].status.Active?)
  {
    if acts != [] {
      LastActiveAnchors(acts[..|acts| - 1]);
    }
  }

  /** The instance is completed with the result; an approval owes the callback it was started with, anchored. */
  ghost predicate Finishes(d: Db, result: WorkflowResult, d': Db) {
    && d' == d.(status := WorkflowStatus.Completed, result := Some(result), current := None, log := d'.log,
                outbox := d'.outbox)
    && LogsOnly(d.log, d'.log, [Fact.Completed(result)])
    && (if result.Approved? && StartedCallback(d.log).Some?
        then exists a: nat :: Anchors(d.activities, a) && d'.outbox == Enqueue(d, a, OutboxKind.BusinessCallback).outbox
        else d'.outbox == d.outbox)
  }

  lemma CompletionFinishes(env: Env, d: Db, result: WorkflowResult)
    ensures var r := CompleteInstance(env, d, result);
            && (r.Ok? ==> Finishes(d, result, r.value))
            && (r.Ok? <==> && d.status.Active?
                           && (result.Approved? && StartedCallback(d.log).Some? ==>
                                 d.activities != [] && StartedCallback(d.log).value in env.cfg.handlers))
  {
    CompleteExactly(env, d, result);
    CompletedLog(d, result);
    LastActiveAnchors(d.activities);
    CompleteShape(env, d, result);
    var r := CompleteInstance(env, d, result);
    if r.Ok? && result.Approved? && StartedCallback(d.log).Some? {
      var a := Anchor(d.activities).value;
      assert Anchors(d.activities, a) && r.value.outbox == Enqueue(d, a, OutboxKind.BusinessCallback).outbox;
    }
  }

  /** At an End the instance completes with the result its code stands for, if it is active. */
  lemma EndLands(env: Env, d: Db, node: Node, src: nat, round: int, fuel: nat)
    requires src < |d.activities| && FindNode(d.def.nodes, node.id) == Some(node) && node.config.End?
    ensures var r, result := Landed(env, d, node.id, src, round, fuel), ResultFor(node.config.resultCode);
            && (r.Ok? ==> Finishes(d, result, r.value))
            && (r.Ok? <==> && d.status.Active?
                           && (result.Approved? && StartedCallback(d.log).Some? ==>
                                 d.activities != [] && StartedCallback(d.log).value in env.cfg.handlers))
  {
    var result := ResultFor(node.config.resultCode);
    CompletionFinishes(env, d, result);
    assert Landing(d.def, env.cel, d.Ctx(), node.id) == Complete(result);
    assert Landed(env, d, node.id, src, round, fuel) == CompleteInstance(env, d, result);
  }
}
