/** Every building block of the orchestration keeps the invariants of the tables. */
module Preservation {
  import opened Core
  import opened Routing
  import opened Facts
  import opened Database
  import opened Engine
  import opened Invariants

  /** The invariants of every committed state. */
  ghost predicate Good(env: Env, d: Db) {
    && LogOk(d.log)
    && RowsOk(d.def, d.activities)
    && RoundsOk(RoundLimit(env, d.def), d.activities, d.log)
    && TimersOk(d.timers, d.activities)
    && StatusOk(d.status)
  }

  /** The statuses the orchestration ever writes. */
  predicate StatusOk(status: WorkflowStatus) {
    !status.Pending? && !status.Cancelled?
  }

  /** Nothing that identifies an activity ever changes, and an activity that has ended is never touched again. */
  predicate RowsExtend(acts: seq<Activity>, acts': seq<Activity>) {
    && |acts| <= |acts'|
    && forall i :: 0 <= i < |acts| ==>
         && acts'[i].node == acts[i].node && acts'[i].round == acts[i].round
         && (!acts[i].status.Active? ==> acts'[i] == acts[i])
  }

  /** `d'` may come after `d` within one call, the caller's own key aside. */
  ghost predicate Evolves(d: Db, d': Db) {
    && d'.def == d.def
    && AddsPlain(d.log, d'.log)
    && TimersEvolve(d.timers, d'.timers)
    && RowsExtend(d.activities, d'.activities)
  }

  ghost predicate Step(env: Env, d: Db, d': Db) {
    Good(env, d') && Evolves(d, d')
  }

  lemma StepThen(env: Env, d: Db, d1: Db, r: Result<Db>)
    requires Evolves(d, d1) && StepAfter(env, d1, r)
    ensures StepAfter(env, d, r)
  {
    if r.Ok? {
      EvolvesTrans(d, d1, r.value);
    }
  }

  ghost predicate StepAfter(env: Env, d: Db, r: Result<Db>) {
    r.Ok? ==> Step(env, d, r.value)
  }

  lemma EvolvesTrans(a: Db, b: Db, c: Db)
    requires Evolves(a, b) && Evolves(b, c)
    ensures Evolves(a, c)
  {
    forall i | |a.log| <= i < |c.log| ensures c.log[i].key.None? && !c.log[i].fact.TimerFired? {
      if i < |b.log| { assert c.log[i] == b.log[i]; }
    }
  }

  /** Only the instance row and the outbox differ. */
  predicate SameTables(d: Db, d': Db) {
    d'.def == d.def && d'.log == d.log && d'.activities == d.activities && d'.timers == d.timers
  }

  lemma InstanceStep(env: Env, d: Db, d': Db)
    requires Good(env, d) && SameTables(d, d') && StatusOk(d'.status)
    ensures Good(env, d') && Evolves(d, d')
  {
  }

  // ------------------------------------------------------------------ facts that change no row

  /** Appending a fact that opens no round keeps every table in order. */
  lemma FactTables(env: Env, d: Db, fact: Fact)
    requires Good(env, d) && !OpensRound(fact)
    ensures Good(env, Append(d, fact, None))
    ensures !fact.TimerFired? ==> Evolves(d, Append(d, fact, None))
  {
    AppendLog(d, fact, None);
    OpenedPush(d.log, Event(MaxNumber(d.log) + 1, fact, None));
  }

  predicate Marker(fact: Fact) {
    !OpensRound(fact) && !fact.TimerFired?
  }

  lemma MarkerStep(env: Env, d: Db, fact: Fact)
    requires Good(env, d) && Marker(fact)
    ensures Step(env, d, Append(d, fact, None))
  {
    FactTables(env, d, fact);
  }

  lemma {:induction false} MergesStep(env: Env, d: Db, from: NodeId, merges: seq<NodeId>, round: int)
    requires Good(env, d)
    ensures Step(env, d, AppendMerges(d, from, merges, round))
    decreases |merges|
  {
    if merges != [] {
      var d1 := Append(d, MergePassed(from, merges[0], round), None);
      MarkerStep(env, d, MergePassed(from, merges[0], round));
      MergesStep(env, d1, from, merges[1..], round);
      EvolvesTrans(d, d1, AppendMerges(d, from, merges, round));
    }
  }

  lemma ClearCurrentStep(env: Env, d: Db)
    requires Good(env, d)
    ensures Step(env, d, ClearCurrent(d))
  {
  }

  // ------------------------------------------------------------------ scheduling

  predicate NoTimer(timers: seq<TimerRow>, a: nat, kind: TimerKind) {
    forall t :: 0 <= t < |timers| ==> timers[t].activity != a || timers[t].kind != kind
  }

  lemma TimerStep(d: Db, a: nat, kind: TimerKind)
    requires TimersOk(d.timers, d.activities) && d.IsActive(a) && NoTimer(d.timers, a, kind)
    ensures var d' := ScheduleTimer(d, a, kind);
            && d' == d.(timers := d'.timers) && TimersOk(d'.timers, d.activities) && TimersEvolve(d.timers, d'.timers)
            && (forall k :: k != kind && NoTimer(d.timers, a, k) ==> NoTimer(d'.timers, a, k))
  {
  }

  lemma NodeTimersStep(d: Db, a: nat, node: Node)
    requires TimersOk(d.timers, d.activities) && d.IsActive(a)
    requires forall t :: 0 <= t < |d.timers| ==> d.timers[t].activity != a
    ensures var d' := ScheduleNodeTimers(d, a, node);
            d' == d.(timers := d'.timers) && TimersOk(d'.timers, d.activities) && TimersEvolve(d.timers, d'.timers)
  {
    TimerStep(d, a, TimerKind.Reminder);
    var d1 := if node.SlaSeconds().Some? then ScheduleTimer(d, a, TimerKind.Reminder) else d;
    TimerStep(d1, a, TimerKind.Escalation);
    var d2 := if node.EscalationConfig().Some? then ScheduleTimer(d1, a, TimerKind.Escalation) else d1;
    TimerStep(d2, a, TimerKind.Timeout);
  }

  /** What scheduling does to the tables it touches; the instance row stays. */
  predicate Scheduled(d: Db, node: NodeId, role: Option<Role>, round: int, via: Via, d': Db) {
    var a := |d.activities|;
    && d' == d.(activities := d'.activities, log := d'.log, timers := d'.timers, outbox := d'.outbox)
    && d'.activities == d.activities + [Fresh(d.def, a, node, role, round)]
    && d'.log == d.log + [Event(MaxNumber(d.log) + 1, ActivityScheduled(a, node, round, role, via), None)]
  }

  lemma ScheduleShape(d: Db, node: Node, role: Option<Role>, round: int, via: Via)
    requires FindNode(d.def.nodes, node.id) == Some(node) && !node.config.SubWorkflow?
    ensures ScheduleActivity(d, node, role, round, via).Ok?
    ensures var (d', a) := ScheduleActivity(d, node, role, round, via).value;
            a == |d.activities| && Scheduled(d, node.id, role, round, via, d')
    ensures TimersOk(d.timers, d.activities) ==>
            var d' := ScheduleActivity(d, node, role, round, via).value.0;
            TimersOk(d'.timers, d'.activities) && TimersEvolve(d.timers, d'.timers)
  {
    var (d1, a) := InsertActivity(d, node.id, InstantiatedType(node.config), role, round);
    var d2 := Append(d1, ActivityScheduled(a, node.id, round, role, via), None);
    if TimersOk(d.timers, d.activities) {
      assert TimersOk(d2.timers, d2.activities);
      NodeTimersStep(d2, a, node);
    } else {
      NodeTimersShape(d2, a, node);
    }
  }

  lemma NodeTimersShape(d: Db, a: nat, node: Node)
    ensures var d' := ScheduleNodeTimers(d, a, node); d' == d.(timers := d'.timers)
  {
  }

  /** The timers a node declares for an activity of its own. */
  predicate Declares(node: Node, kind: TimerKind) {
    match kind
    case Reminder => node.SlaSeconds().Some?
    case Escalation => node.EscalationConfig().Some?
    case Timeout => node.TimeoutSeconds().Some?
  }

  lemma DeclaredTimers(d: Db, a: nat, node: Node)
    requires forall t :: 0 <= t < |d.timers| ==> d.timers[t].activity != a
    ensures var timers := ScheduleNodeTimers(d, a, node).timers;
            && d.timers <= timers
            && (forall kind :: TimerRow(a, kind, TimerStatus.Pending) in timers <==> Declares(node, kind))
            && (forall t :: |d.timers| <= t < |timers| ==> timers[t].activity == a && timers[t].status.Pending?)
  {
  }

  /** Scheduling exactly: only a SubWorkflow is refused; otherwise there is one fresh active row and its fact, the
      timers the node declares and no others, and for a Notification its delivery intent. */
  lemma ScheduleExactly(d: Db, node: Node, role: Option<Role>, round: int, via: Via)
    requires TimersOk(d.timers, d.activities) && FindNode(d.def.nodes, node.id) == Some(node)
    ensures var r := ScheduleActivity(d, node, role, round, via);
            && (r.Ok? <==> !node.config.SubWorkflow?)
            && (r.Ok? ==> ScheduledExactly(d, node, role, round, via, r.value.0) && r.value.1 == |d.activities|)
  {
    if !node.config.SubWorkflow? {
      ScheduleShape(d, node, role, round, via);
      var (d1, a) := InsertActivity(d, node.id, InstantiatedType(node.config), role, round);
      DeclaredTimers(Append(d1, ActivityScheduled(a, node.id, round, role, via), None), a, node);
    }
  }

  ghost predicate ScheduledExactly(d: Db, node: Node, role: Option<Role>, round: int, via: Via, d': Db) {
    var a := |d.activities|;
    && Scheduled(d, node.id, role, round, via, d')
    && d.timers <= d'.timers
    && (forall kind :: TimerRow(a, kind, TimerStatus.Pending) in d'.timers <==> Declares(node, kind))
    && (forall t :: |d.timers| <= t < |d'.timers| ==> d'.timers[t].activity == a && d'.timers[t].status.Pending?)
    && d'.outbox == if node.config.Notification? then Enqueue(d, a, OutboxKind.Notify).outbox else d.outbox
  }

  lemma RowsPush(def: Definition, acts: seq<Activity>, node: NodeId, role: Option<Role>, round: int)
    requires RowsOk(def, acts) && FindNode(def.nodes, node).Some?
    ensures var acts' := acts + [Fresh(def, |acts|, node, role, round)];
            && RowsOk(def, acts') && RowsExtend(acts, acts')
            && MaxRound(acts') == (if round > MaxRound(acts) then round else MaxRound(acts))
  {
    var a := Fresh(def, |acts|, node, role, round);
    MaxRoundPush(acts, a);
    FreshRowOk(def, acts, a);
  }

  lemma FreshRowOk(def: Definition, acts: seq<Activity>, a: Activity)
    requires RowsOk(def, acts) && a.id == |acts| && FindNode(def.nodes, a.node).Some?
    requires a.activityType == ActivityTypeFor(def, a.node) && a.result.None? && a.notes.None? && a.reviewer.None?
    ensures RowsOk(def, acts + [a]) && RowsExtend(acts, acts + [a])
  {
    var acts' := acts + [a];
    assert acts'[|acts|] == a;
    forall i | 0 <= i < |acts| ensures acts'[i] == acts[i] {
    }
  }

  lemma ScheduleLog(d: Db, node: NodeId, role: Option<Role>, round: int, via: Via, d': Db)
    requires LogOk(d.log) && Scheduled(d, node, role, round, via, d')
    ensures LogOk(d'.log) && AddsPlain(d.log, d'.log) && RoundsOpened(d'.log) == RoundsOpened(d.log)
  {
    var fact := ActivityScheduled(|d.activities|, node, round, role, via);
    AppendLog(d, fact, None);
    OpenedPush(d.log, Event(MaxNumber(d.log) + 1, fact, None));
  }

  /** Scheduling keeps every table in order; the round it opens, if any, still needs its fact. */
  lemma ScheduleTables(env: Env, d: Db, node: NodeId, role: Option<Role>, round: int, via: Via, d': Db)
    requires Good(env, d) && Scheduled(d, node, role, round, via, d') && FindNode(d.def.nodes, node).Some?
    requires 1 <= round <= RoundLimit(env, d.def)
    requires TimersEvolve(d.timers, d'.timers)
    ensures Evolves(d, d') && LogOk(d'.log) && RowsOk(d.def, d'.activities)
    ensures RoundsIn(d'.activities, 1, RoundLimit(env, d.def))
    ensures RoundsOpened(d'.log) == RoundsOpened(d.log)
    ensures MaxRound(d'.activities) == if round > MaxRound(d.activities) then round else MaxRound(d.activities)
  {
    RowsPush(d.def, d.activities, node, role, round);
    ScheduleLog(d, node, role, round, via, d');
  }

  /** One activity scheduled on the line or as a branch, in a round already open. */
  lemma ScheduleStep(env: Env, d: Db, node: Node, role: Option<Role>, round: int, via: Via)
    requires Good(env, d) && FindNode(d.def.nodes, node.id) == Some(node)
    requires 1 <= round <= MaxRound(d.activities)
    ensures var r := ScheduleActivity(d, node, role, round, via);
            r.Ok? ==>
              && var (d1, a) := r.value;
                 var d' := if via.Linear? then UpdateCurrent(d1, a) else d1;
                 Step(env, d, d') && d'.status == d.status && (via.Fanned? ==> d'.current == d.current)
  {
    if !node.config.SubWorkflow? {
      var d1 := ScheduleActivity(d, node, role, round, via).value.0;
      ScheduleShape(d, node, role, round, via);
      MaxRoundIsMax(d.activities);
      ScheduleTables(env, d, node.id, role, round, via, d1);
    }
  }

  lemma {:induction false} TargetsStep(env: Env, d: Db, targets: seq<ParallelTarget>, round: int, byForEach: bool)
    requires Good(env, d) && 1 <= round <= MaxRound(d.activities)
    ensures StepAfter(env, d, ScheduleTargets(d, targets, round, byForEach))
    decreases |targets|
  {
    var r := ScheduleTargets(d, targets, round, byForEach);
    if targets != [] && r.Ok? {
      var node := FindNode(d.def.nodes, targets[0].node).value;
      var via := Fanned(byForEach, targets[0].item);
      var d1 := ScheduleActivity(d, node, targets[0].role, round, via).value.0;
      ScheduleStep(env, d, node, targets[0].role, round, via);
      ScheduleShape(d, node, targets[0].role, round, via);
      RowsPush(d.def, d.activities, node.id, targets[0].role, round);
      TargetsStep(env, d1, targets[1..], round, byForEach);
      EvolvesTrans(d, d1, r.value);
    }
  }

  // ------------------------------------------------------------------ fan-out marks, joins, terminal facts

  lemma FanOutMarkStep(env: Env, d: Db, fact: Fact)
    requires Good(env, d) && (fact.SplitScheduled? || fact.ForEachFannedOut?)
    ensures Step(env, d, Append(ClearCurrent(d), fact, None))
  {
    InstanceStep(env, d, ClearCurrent(d));
    FactTables(env, ClearCurrent(d), fact);
  }

  lemma MarkFanOutStep(env: Env, d: Db, targets: seq<ParallelTarget>, forEach: Option<FanOut>, src: nat, round: int)
    requires Good(env, d) && src < |d.activities|
    ensures var d' := MarkFanOut(d, targets, forEach, src, round);
            Step(env, d, d') && d'.current.None? && d'.status == d.status && d'.activities == d.activities
  {
    if forEach.Some? {
      FanOutMarkStep(env, d, ForEachFannedOut(forEach.value.forEachNode, forEach.value.joinTarget, |targets|, round));
    } else {
      FanOutMarkStep(env, d, SplitScheduled(d.activities[src].node, NodesOf(targets), round));
    }
  }

  lemma SkipOthersRows(d: Db, exclude: Option<nat>)
    requires RowsOk(d.def, d.activities)
    ensures var acts := SkipOthers(d, exclude).activities;
            && RowsOk(d.def, acts) && RowsExtend(d.activities, acts) && |acts| == |d.activities|
            && MaxRound(acts) == MaxRound(d.activities)
  {
    MaxRoundByRounds(d.activities, SkipOthers(d, exclude).activities);
  }

  lemma SkipOthersTimers(d: Db, exclude: Option<nat>)
    requires TimersOk(d.timers, d.activities)
    ensures var d' := SkipOthers(d, exclude);
            TimersOk(d'.timers, d'.activities) && TimersEvolve(d.timers, d'.timers)
  {
  }

  lemma SkipOthersTables(env: Env, d: Db, exclude: Option<nat>)
    requires Good(env, d)
    ensures Good(env, SkipOthers(d, exclude)) && Evolves(d, SkipOthers(d, exclude))
  {
    SkipOthersRows(d, exclude);
    SkipOthersTimers(d, exclude);
  }

  lemma SkipOthersStep(env: Env, d: Db, exclude: Option<nat>)
    requires Good(env, d)
    ensures var d' := Append(SkipOthers(d, exclude), ActivitySkipped(None), None);
            Step(env, d, d') && d'.status == d.status
  {
    SkipOthersTables(env, d, exclude);
    var d1 := SkipOthers(d, exclude);
    FactTables(env, d1, ActivitySkipped(None));
    EvolvesTrans(d, d1, Append(d1, ActivitySkipped(None), None));
  }

  lemma FailStep(env: Env, d: Db)
    requires Good(env, d)
    ensures Step(env, d, FailInstance(d))
  {
    var d1 := ErrorWorkflow(d);
    InstanceStep(env, d, d1);
    FactTables(env, d1, Fact.Errored);
    EvolvesTrans(d, d1, FailInstance(d));
  }

  lemma CompleteShape(env: Env, d: Db, result: WorkflowResult)
    ensures var r := CompleteInstance(env, d, result);
            r.Ok? ==>
              && d.status.Active?
              && r.value == Append(CompleteWorkflow(d, result).0, Fact.Completed(result),
                                   None).(outbox := r.value.outbox)
  {
  }

  lemma {:induction false} CallbackStays(log: seq<Event>, e: Event)
    requires !e.fact.Started?
    ensures StartedCallback(log + [e]) == StartedCallback(log)
  {
    if log != [] {
      assert (log + [e])[1..] == log[1..] + [e];
      CallbackStays(log[1..], e);
    } else {
      assert ([e])[1..] == [];
    }
  }

  /** The callback intent an approval owes, anchored to an activity. */
  predicate OwesCallback(d: Db, result: WorkflowResult) {
    result.Approved? && StartedCallback(d.log).Some?
  }

  lemma CompletedLog(d: Db, result: WorkflowResult)
    ensures StartedCallback(Append(CompleteWorkflow(d, result).0, Fact.Completed(result), None).log)
            == StartedCallback(d.log)
  {
    CallbackStays(d.log, Event(MaxNumber(d.log) + 1, Fact.Completed(result), None));
  }

  /** Completion exactly: it goes through if and only if the instance is active and, for an approval with a
      terminal callback, there is an activity to anchor it to and its handler is registered; it then finishes the
      instance with the result, logs that and nothing else, and owes the callback's intent just in that case. */
  lemma CompleteExactly(env: Env, d: Db, result: WorkflowResult)
    ensures var r := CompleteInstance(env, d, result);
            && (r.Ok? <==>
                  && d.status.Active?
                  && (OwesCallback(d, result) ==>
                      d.activities != [] && StartedCallback(d.log).value in env.cfg.handlers))
            && (r.Ok? ==>
                  && r.value.status.Completed? && r.value.result == Some(result) && r.value.current.None?
                  && r.value.log == d.log + [Event(MaxNumber(d.log) + 1, Fact.Completed(result), None)]
                  && r.value.activities == d.activities && r.value.timers == d.timers
                  && (!OwesCallback(d, result) ==> r.value.outbox == d.outbox)
                  && (OwesCallback(d, result) ==>
                      exists a :: r.value.outbox == Enqueue(d, a, OutboxKind.BusinessCallback).outbox))
  {
    CompletedLog(d, result);
    if CompleteInstance(env, d, result).Ok? && OwesCallback(d, result) {
      var a := Anchor(d.activities).value;
      assert CompleteInstance(env, d, result).value.outbox == Enqueue(d, a, OutboxKind.BusinessCallback).outbox;
    }
  }

  lemma CompletedStep(env: Env, d: Db, result: WorkflowResult)
    requires Good(env, d) && d.status.Active?
    ensures Step(env, d, Append(CompleteWorkflow(d, result).0, Fact.Completed(result), None))
  {
    var d1 := CompleteWorkflow(d, result).0;
    FactTables(env, d1, Fact.Completed(result));
  }

  lemma CompleteStep(env: Env, d: Db, result: WorkflowResult)
    requires Good(env, d)
    ensures StepAfter(env, d, CompleteInstance(env, d, result))
  {
    CompleteShape(env, d, result);
    if CompleteInstance(env, d, result).Ok? {
      CompletedStep(env, d, result);
    }
  }

  // ------------------------------------------------------------------ rework

  /** A committed hand-back: one activity in a new round, the waiting status, and its fact. */
  predicate HandedBack(d: Db, node: NodeId, role: Option<Role>, from: NodeId, d1: Db, d': Db) {
    var round := MaxRound(d.activities) + 1;
    && Scheduled(d, node, role, round, Linear, d1)
    && d' == Append(d1.(status := WorkflowStatus.ReturnedWaiting, current := Some(|d.activities|)),
                    ReturnedToRework(from, node, round, |d.activities|, role), None)
  }

  /** What a hand-back needs: a round left, a target that can be scheduled, an active instance. */
  predicate CanHandBack(env: Env, d: Db, target: NodeId) {
    && MaxRound(d.activities) + 1 <= RoundLimit(env, d.def)
    && FindNode(d.def.nodes, target).Some? && !FindNode(d.def.nodes, target).value.config.SubWorkflow?
    && d.status.Active?
  }

  lemma HandBackRefused(env: Env, d: Db, target: NodeId, role: Option<Role>, src: nat)
    requires src < |d.activities|
    requires MaxRound(d.activities) + 1 > RoundLimit(env, d.def) || FindNode(d.def.nodes, target).None?
    ensures HandBack(env, d, target, role, src).Err?
  {
  }

  lemma HandBackEnters(env: Env, d: Db, target: NodeId, role: Option<Role>, src: nat, node: Node)
    requires src < |d.activities| && FindNode(d.def.nodes, target) == Some(node)
    requires MaxRound(d.activities) + 1 <= RoundLimit(env, d.def)
    ensures HandBack(env, d, target, role, src)
         == EnterRework(d, node, role, MaxRound(d.activities) + 1, d.activities[src].node)
  {
    InEnters(d, target, role, MaxRound(d.activities) + 1, d.activities[src].node, node);
  }

  lemma InEnters(d: Db, target: NodeId, role: Option<Role>, round: int, from: NodeId, node: Node)
    requires FindNode(d.def.nodes, target) == Some(node)
    ensures HandBackIn(d, target, role, round, from) == EnterRework(d, node, role, round, from)
  {
  }

  lemma EnterReworkRefused(d: Db, node: Node, role: Option<Role>, round: int, from: NodeId)
    requires node.config.SubWorkflow? || !d.status.Active?
    ensures EnterRework(d, node, role, round, from).Err?
  {
  }

  lemma EnterReworkShape(d: Db, node: Node, role: Option<Role>, from: NodeId) returns (d1: Db, d': Db)
    requires FindNode(d.def.nodes, node.id) == Some(node) && !node.config.SubWorkflow? && d.status.Active?
    ensures EnterRework(d, node, role, MaxRound(d.activities) + 1, from) == Ok(d')
    ensures HandedBack(d, node.id, role, from, d1, d')
    ensures ScheduleActivity(d, node, role, MaxRound(d.activities) + 1, Linear) == Ok((d1, |d.activities|))
    ensures TimersOk(d.timers, d.activities) ==> TimersOk(d1.timers, d1.activities) && TimersEvolve(d.timers, d1.timers)
  {
    ScheduleShape(d, node, role, MaxRound(d.activities) + 1, Linear);
    d1 := ScheduleActivity(d, node, role, MaxRound(d.activities) + 1, Linear).value.0;
    d' := EnterRework(d, node, role, MaxRound(d.activities) + 1, from).value;
  }

  lemma HandBackStops(env: Env, d: Db, target: NodeId, role: Option<Role>, src: nat)
    requires src < |d.activities| && !CanHandBack(env, d, target)
    ensures HandBack(env, d, target, role, src).Err?
  {
    if MaxRound(d.activities) + 1 > RoundLimit(env, d.def) || FindNode(d.def.nodes, target).None? {
      HandBackRefused(env, d, target, role, src);
    } else {
      var node := FindNode(d.def.nodes, target).value;
      HandBackEnters(env, d, target, role, src, node);
      EnterReworkRefused(d, node, role, MaxRound(d.activities) + 1, d.activities[src].node);
    }
  }

  lemma HandBackGoes(env: Env, d: Db, target: NodeId, role: Option<Role>, src: nat) returns (d1: Db, d': Db)
    requires src < |d.activities| && CanHandBack(env, d, target)
    ensures HandBack(env, d, target, role, src) == Ok(d') && HandedBack(d, target, role, d.activities[src].node, d1, d')
    ensures ScheduleActivity(d, FindNode(d.def.nodes, target).value, role, MaxRound(d.activities) + 1, Linear)
         == Ok((d1, |d.activities|))
    ensures TimersOk(d.timers, d.activities) ==> TimersOk(d1.timers, d1.activities) && TimersEvolve(d.timers, d1.timers)
  {
    var node := FindNode(d.def.nodes, target).value;
    d1, d' := EnterReworkShape(d, node, role, d.activities[src].node);
    HandBackEnters(env, d, target, role, src, node);
  }

  /** A hand-back goes through exactly when it has what it needs, and then has this shape. */
  lemma HandBackShape(env: Env, d: Db, target: NodeId, role: Option<Role>, src: nat) returns (d1: Db)
    requires src < |d.activities|
    ensures HandBack(env, d, target, role, src).Ok? <==> CanHandBack(env, d, target)
    ensures CanHandBack(env, d, target) ==>
              && HandedBack(d, target, role, d.activities[src].node, d1, HandBack(env, d, target, role, src).value)
              && (TimersOk(d.timers, d.activities) ==>
                    TimersOk(d1.timers, d1.activities) && TimersEvolve(d.timers, d1.timers))
  {
    d1 := d;
    if CanHandBack(env, d, target) {
      var d';
      d1, d' := HandBackGoes(env, d, target, role, src);
    } else {
      HandBackStops(env, d, target, role, src);
    }
  }

  lemma HandedBackTables(env: Env, d: Db, node: NodeId, role: Option<Role>, from: NodeId, d1: Db, d': Db)
    requires Good(env, d) && HandedBack(d, node, role, from, d1, d') && FindNode(d.def.nodes, node).Some?
    requires 1 <= MaxRound(d.activities) + 1 <= RoundLimit(env, d.def)
    requires TimersOk(d1.timers, d1.activities) && TimersEvolve(d.timers, d1.timers)
    ensures Good(env, d') && Evolves(d, d')
  {
    var round := MaxRound(d.activities) + 1;
    ScheduleTables(env, d, node, role, round, Linear, d1);
    var fact := ReturnedToRework(from, node, round, |d.activities|, role);
    AppendLog(d1, fact, None);
    OpenedPush(d1.log, Event(MaxNumber(d1.log) + 1, fact, None));
    EvolvesTrans(d, d1, d');
  }

  lemma HandBackStep(env: Env, d: Db, target: NodeId, role: Option<Role>, src: nat)
    requires Good(env, d) && src < |d.activities|
    ensures StepAfter(env, d, HandBack(env, d, target, role, src))
  {
    var d1 := HandBackShape(env, d, target, role, src);
    if CanHandBack(env, d, target) {
      HandedBackStep(env, d, target, role, d.activities[src].node, d1, HandBack(env, d, target, role, src).value);
    }
  }

  lemma HandedBackStep(env: Env, d: Db, node: NodeId, role: Option<Role>, from: NodeId, d1: Db, d': Db)
    requires Good(env, d) && HandedBack(d, node, role, from, d1, d') && CanHandBack(env, d, node)
    requires TimersOk(d1.timers, d1.activities) && TimersEvolve(d.timers, d1.timers)
    ensures Step(env, d, d')
  {
    HandedBackTables(env, d, node, role, from, d1, d');
  }

  // ------------------------------------------------------------------ the outcome recursion

  /** A call that moves the graph from activity `src`, which has ended, in its round. */
  predicate Moves(d: Db, src: nat, round: int) {
    src < |d.activities| && !d.IsActive(src) && d.activities[src].round == round
  }

  lemma SatisfyStep(env: Env, d: Db, join: Node, arrived: int, expected: int, round: int, exclude: Option<nat>)
    requires Good(env, d)
    ensures var d' := SatisfyJoin(d, join, arrived, expected, round, exclude);
            Step(env, d, d') && d'.status == d.status
            && forall src: nat, r: int :: Moves(d, src, r) ==> Moves(d', src, r)
  {
    var d1 := Append(d, JoinSatisfied(join.id, arrived, expected, round), None);
    MarkerStep(env, d, JoinSatisfied(join.id, arrived, expected, round));
    if StrategyOf(join).SkipsRemaining() && SkipsAny(d1, exclude) {
      SkipOthersStep(env, d1, exclude);
      EvolvesTrans(d, d1, SatisfyJoin(d, join, arrived, expected, round, exclude));
    }
  }

  lemma RoundBounds(env: Env, d: Db, src: nat)
    requires Good(env, d) && src < |d.activities|
    ensures 1 <= d.activities[src].round <= MaxRound(d.activities) <= RoundLimit(env, d.def)
  {
    MaxRoundIsMax(d.activities);
  }

  /** Trying a join, case by case. */
  lemma TryIs(env: Env, d: Db, join: Node, src: nat, round: int, exclude: Option<nat>, fuel: nat, expected: int,
              branches: seq<NodeId>)
    requires src < |d.activities| && Expectation(d, join.id, round) == Ok((expected, branches))
    ensures var arrived := CountArrived(d.activities, branches, round);
            var d1 := SatisfyJoin(d, join, arrived, expected, round, exclude);
            && |d1.activities| == |d.activities|
            && TrySatisfyJoin(env, d, join, src, round, exclude, fuel)
            == if !StrategyOf(join).IsSatisfied(arrived, expected) then Ok(ClearCurrent(d))
               else if fuel == 0 then Err(Diverges)
               else PassJoin(env, d1, join.id, src, round, fuel - 1)
  {
  }

  lemma {:induction false} TrySatisfyStep(env: Env, d: Db, join: Node, src: nat, round: int, exclude: Option<nat>,
                                          fuel: nat)
    requires Good(env, d) && Moves(d, src, round)
    requires exclude.Some? ==> exclude.value == src
    ensures StepAfter(env, d, TrySatisfyJoin(env, d, join, src, round, exclude, fuel))
    decreases fuel, 1
  {
    var expectation := Expectation(d, join.id, round);
    if expectation.Ok? {
      var (expected, branches) := expectation.value;
      var arrived := CountArrived(d.activities, branches, round);
      if !StrategyOf(join).IsSatisfied(arrived, expected) {
        ClearCurrentStep(env, d);
      } else if fuel > 0 {
        var d1 := SatisfyJoin(d, join, arrived, expected, round, exclude);
        SatisfyStep(env, d, join, arrived, expected, round, exclude);
        PassJoinStep(env, d1, join.id, src, round, fuel - 1);
        StepThen(env, d, d1, PassJoin(env, d1, join.id, src, round, fuel - 1));
      }
    }
  }

  lemma {:induction false} PassJoinStep(env: Env, d: Db, join: NodeId, src: nat, round: int, fuel: nat)
    requires Good(env, d) && Moves(d, src, round)
    ensures StepAfter(env, d, PassJoin(env, d, join, src, round, fuel))
    decreases fuel, 5
  {
    var (outcome, trace) := DecideAdvance(d.def, env.cel, d.Ctx(), join, SignalType.Approved);
    ApplyStep(env, d, outcome, trace, src, round, fuel);
  }

  lemma {:induction false} BranchStep(env: Env, d: Db, join: Node, src: nat, round: int, fuel: nat)
    requires Good(env, d) && Moves(d, src, round)
    ensures StepAfter(env, d, ReachJoin(env, d, join, src, round, fuel))
    decreases fuel, 2
  {
    var fact := Fact.BranchReachedJoin(d.activities[src].node, join.id, round);
    var d1 := Append(d, fact, None);
    MarkerStep(env, d, fact);
    TrySatisfyStep(env, d1, join, src, round, Some(src), fuel);
    var r := ReachJoin(env, d, join, src, round, fuel);
    if r.Ok? {
      EvolvesTrans(d, d1, r.value);
    }
  }

  lemma {:induction false} FanOutStep(env: Env, d: Db, targets: seq<ParallelTarget>, forEach: Option<FanOut>,
                                      src: nat, round: int, fuel: nat)
    requires Good(env, d) && Moves(d, src, round)
    ensures StepAfter(env, d, FanOutTo(env, d, targets, forEach, src, round, fuel))
    decreases fuel, 2
  {
    var d1 := MarkFanOut(d, targets, forEach, src, round);
    MarkFanOutStep(env, d, targets, forEach, src, round);
    var r := FanOutTo(env, d, targets, forEach, src, round, fuel);
    if r.Ok? {
      if targets == [] && forEach.Some? {
        var join := NodeOf(d1, forEach.value.joinTarget).value;
        TrySatisfyStep(env, d1, join, src, round, None, fuel);
      } else {
        RoundBounds(env, d1, src);
        TargetsStep(env, d1, targets, round, forEach.Some?);
      }
      EvolvesTrans(d, d1, r.value);
    }
  }

  lemma {:induction false} DispatchStep(env: Env, d: Db, outcome: AdvanceOutcome, forEach: Option<FanOut>,
                                        src: nat, round: int, fuel: nat)
    requires Good(env, d) && Moves(d, src, round)
    ensures StepAfter(env, d, Dispatch(env, d, outcome, forEach, src, round, fuel))
    decreases fuel, 3
  {
    if Dispatch(env, d, outcome, forEach, src, round, fuel).Ok? {
      match outcome
      case Advance(target, role) =>
        var node := NodeOf(d, target).value;
        if node.config.ParallelJoin? {
          BranchStep(env, d, node, src, round, fuel);
        } else {
          RoundBounds(env, d, src);
          ScheduleStep(env, d, node, role, round, Linear);
        }
      case AdvanceMulti(targets) => FanOutStep(env, d, targets, forEach, src, round, fuel);
      case Complete(result) => CompleteStep(env, d, result);
      case Rework(target, role) => HandBackStep(env, d, target, role, src);
      case Error => FailStep(env, d);
    }
  }

  /** Applying any outcome keeps every invariant. */
  lemma {:induction false} ApplyStep(env: Env, d: Db, outcome: AdvanceOutcome, trace: ResolveTrace,
                                     src: nat, round: int, fuel: nat)
    requires Good(env, d) && Moves(d, src, round)
    ensures StepAfter(env, d, ApplyOutcome(env, d, outcome, trace, src, round, fuel))
    decreases fuel, 4
  {
    var d1 := AppendMerges(d, d.activities[src].node, trace.merges, round);
    MergesKeepRows(d, d.activities[src].node, trace.merges, round);
    MergesStep(env, d, d.activities[src].node, trace.merges, round);
    DispatchStep(env, d1, outcome, trace.forEach, src, round, fuel);
    var r := ApplyOutcome(env, d, outcome, trace, src, round, fuel);
    if r.Ok? {
      EvolvesTrans(d, d1, r.value);
    }
  }
}
