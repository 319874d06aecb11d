/** In every run, what stands in the tables was asked for by a node: the roles of activities, the timers and the intents
    owed; and what the publish gate makes of that. */
module Obligations {
  import opened Core
  import opened Walk
  import opened Routing
  import opened Validation
  import opened Progress
  import opened Facts
  import opened Database
  import opened Engine
  import opened Invariants
  import opened Preservation
  import opened Calls
  import opened Runs
  import opened Effects
  import opened SignalEffects
  import opened CallEffects

  // ------------------------------------------------------------------ what is asked for

  /** The row fits its node: its kind, and the role declared for it, or the one declared for its escalation. */
  predicate RowAsked(def: Definition, row: Activity) {
    FindNode(def.nodes, row.node).Some? &&
    var node := FindNode(def.nodes, row.node).value;
    && TypeFits(row.activityType, node.config)
    && (row.role == RoleOf(node) || (row.role.Some? && row.role == EscalatesTo(node.config)))
  }

  predicate TimerAsked(def: Definition, acts: seq<Activity>, timer: TimerRow) {
    && timer.activity < |acts| && FindNode(def.nodes, acts[timer.activity].node).Some?
    && AsksFor(FindNode(def.nodes, acts[timer.activity].node).value.config, timer.kind)
  }

  /** What a node's fields call for in the outbox; callbacks are anchored to any activity. */
  predicate CallsFor(c: NodeConfig, kind: OutboxKind) {
    match kind
    case Notify => c.Notification?
    case NotifyReminder => AsksFor(c, TimerKind.Reminder)
    case NotifyEscalation => AsksFor(c, TimerKind.Escalation)
    case BusinessCallback => true
  }

  predicate IntentAsked(def: Definition, acts: seq<Activity>, x: Intent) {
    && x.activity < |acts| && FindNode(def.nodes, acts[x.activity].node).Some?
    && CallsFor(FindNode(def.nodes, acts[x.activity].node).value.config, x.kind)
  }

  predicate Asked(d: Db) {
    && TimersOk(d.timers, d.activities)
    && (forall i :: 0 <= i < |d.activities| ==> RowAsked(d.def, d.activities[i]))
    && (forall t :: 0 <= t < |d.timers| ==> TimerAsked(d.def, d.activities, d.timers[t]))
    && (forall x :: x in d.outbox ==> IntentAsked(d.def, d.activities, x))
  }

  predicate AskedAfter(r: Result<Db>) {
    match r
    case Ok(d) => Asked(d)
    case Err(_) => true
  }

  /** Rows may settle and be handed on, but they stay where they are. */
  predicate SameNodes(acts: seq<Activity>, acts': seq<Activity>) {
    |acts| <= |acts'| && forall i :: 0 <= i < |acts| ==> acts'[i].node == acts[i].node
  }

  lemma AskedStays(d: Db, d': Db)
    requires Asked(d) && d'.def == d.def && SameNodes(d.activities, d'.activities)
    requires TimersOk(d'.timers, d'.activities)
    requires forall i :: 0 <= i < |d'.activities| ==> RowAsked(d.def, d'.activities[i])
    requires forall t :: 0 <= t < |d'.timers| ==>
               || TimerAsked(d.def, d'.activities, d'.timers[t])
               || (t < |d.timers| && d'.timers[t].activity == d.timers[t].activity
                   && d'.timers[t].kind == d.timers[t].kind)
    requires forall x :: x in d'.outbox && x !in d.outbox ==> IntentAsked(d.def, d'.activities, x)
    ensures Asked(d')
  {
    forall t | 0 <= t < |d'.timers| ensures TimerAsked(d'.def, d'.activities, d'.timers[t]) {
      if t < |d.timers| {
        assert TimerAsked(d.def, d.activities, d.timers[t]);
      }
    }
    forall x | x in d'.outbox ensures IntentAsked(d'.def, d'.activities, x) {
      if x in d.outbox {
        assert IntentAsked(d.def, d.activities, x);
      }
    }
  }

  // ------------------------------------------------------------------ scheduling

  lemma OpenedAsked(d: Db, node: Node, round: int, via: Via, d': Db)
    requires Asked(d) && FindNode(d.def.nodes, node.id) == Some(node)
    requires Opens(d, node, round, via, d') && TimersOk(d'.timers, d'.activities)
    ensures Asked(d')
  {
    var a := |d.activities|;
    forall i | 0 <= i < |d'.activities| ensures RowAsked(d.def, d'.activities[i]) {
      if i < a {
        assert RowAsked(d.def, d.activities[i]);
      }
    }
    forall t | 0 <= t < |d'.timers|
      ensures || TimerAsked(d.def, d'.activities, d'.timers[t])
              || (t < |d.timers| && d'.timers[t].activity == d.timers[t].activity
                  && d'.timers[t].kind == d.timers[t].kind)
    {
      if t >= |d.timers| {
        assert d'.timers[t] == TimerRow(a, d'.timers[t].kind, TimerStatus.Pending);
        assert d'.timers[t] in d'.timers;
      }
    }
    AskedStays(d, d');
  }

  /** The role a decision names is the one its target declares. */
  predicate NamesRole(def: Definition, target: NodeId, role: Option<Role>) {
    FindNode(def.nodes, target).Some? ==> role == RoleOf(FindNode(def.nodes, target).value)
  }

  predicate NamesRoles(def: Definition, outcome: AdvanceOutcome) {
    match outcome
    case Advance(target, role) => NamesRole(def, target, role)
    case Rework(target, role) => NamesRole(def, target, role)
    case AdvanceMulti(targets) => forall i :: 0 <= i < |targets| ==> NamesRole(def, targets[i].node, targets[i].role)
    case _ => true
  }

  lemma AdvanceAsked(d: Db, node: Node, round: int)
    requires Asked(d) && FindNode(d.def.nodes, node.id) == Some(node)
    ensures AskedAfter(AdvanceTo(d, node, RoleOf(node), round))
  {
    OpensExactly(d, node, round, Linear);
    if !node.config.SubWorkflow? {
      var d1 := ScheduleActivity(d, node, RoleOf(node), round, Linear).value.0;
      OpenedAsked(d, node, round, Linear, d1);
      assert AdvanceTo(d, node, RoleOf(node), round) == Ok(UpdateCurrent(d1, |d.activities|));
    }
  }

  lemma {:induction false} TargetsAsked(d: Db, targets: seq<ParallelTarget>, round: int, byForEach: bool)
    requires Asked(d) && forall i :: 0 <= i < |targets| ==> NamesRole(d.def, targets[i].node, targets[i].role)
    ensures AskedAfter(ScheduleTargets(d, targets, round, byForEach))
    decreases |targets|
  {
    if targets != [] && FindNode(d.def.nodes, targets[0].node).Some? {
      var node, via := FindNode(d.def.nodes, targets[0].node).value, Fanned(byForEach, targets[0].item);
      assert NamesRole(d.def, targets[0].node, targets[0].role);
      OpensExactly(d, node, round, via);
      if !node.config.SubWorkflow? {
        var d1 := ScheduleActivity(d, node, RoleOf(node), round, via).value.0;
        OpenedAsked(d, node, round, via, d1);
        TargetsAsked(d1, targets[1..], round, byForEach);
      }
    }
  }

  lemma HandBackAsked(env: Env, d: Db, target: NodeId, role: Option<Role>, src: nat)
    requires Asked(d) && src < |d.activities| && NamesRole(d.def, target, role)
    ensures AskedAfter(HandBack(env, d, target, role, src))
  {
    if CanHandBack(env, d, target) {
      var node := FindNode(d.def.nodes, target).value;
      var d1, d' := HandBackGoes(env, d, target, role, src);
      HandedBackAsked(d, node, MaxRound(d.activities) + 1, d1, d');
    } else {
      HandBackStops(env, d, target, role, src);
    }
  }

  lemma HandedBackAsked(d: Db, node: Node, round: int, d1: Db, d': Db)
    requires Asked(d) && FindNode(d.def.nodes, node.id) == Some(node) && !node.config.SubWorkflow?
    requires ScheduleActivity(d, node, RoleOf(node), round, Linear) == Ok((d1, |d.activities|))
    requires d'.activities == d1.activities && d'.timers == d1.timers && d'.outbox == d1.outbox && d'.def == d1.def
    ensures Asked(d')
  {
    OpensExactly(d, node, round, Linear);
    OpenedAsked(d, node, round, Linear, d1);
  }

  lemma EnqueuedAsked(d: Db, a: nat, kind: OutboxKind, d': Db)
    requires Asked(d) && IntentAsked(d.def, d.activities, Intent(a, kind))
    requires d'.def == d.def && d'.activities == d.activities && d'.timers == d.timers
    requires d'.outbox == Enqueue(d, a, kind).outbox
    ensures Asked(d')
  {
  }

  lemma CompletionAsked(env: Env, d: Db, result: WorkflowResult)
    requires Asked(d)
    ensures AskedAfter(CompleteInstance(env, d, result))
  {
    CompletionFinishes(env, d, result);
    var r := CompleteInstance(env, d, result);
    if r.Ok? {
      FinishedAsked(d, result, r.value);
    }
  }

  lemma FinishedAsked(d: Db, result: WorkflowResult, d': Db)
    requires Asked(d) && Finishes(d, result, d')
    ensures Asked(d')
  {
    if result.Approved? && StartedCallback(d.log).Some? {
      var a: nat :| Anchors(d.activities, a) && d'.outbox == Enqueue(d, a, OutboxKind.BusinessCallback).outbox;
      assert RowAsked(d.def, d.activities[a]);
      EnqueuedAsked(d, a, OutboxKind.BusinessCallback, d');
    }
  }

  // ------------------------------------------------------------------ moving the graph

  lemma SatisfyAsked(d: Db, join: Node, arrived: int, expected: int, round: int, exclude: Option<nat>)
    requires Asked(d)
    ensures Asked(SatisfyJoin(d, join, arrived, expected, round, exclude))
  {
    var d1 := Append(d, JoinSatisfied(join.id, arrived, expected, round), None);
    if StrategyOf(join).SkipsRemaining() && SkipsAny(d1, exclude) {
      SkipOthersTimers(d1, exclude);
      SkippedAsked(d1, SkipOthers(d1, exclude));
    }
  }

  /** Rows and timers may be settled, as long as roles and nodes stay. */
  lemma SkippedAsked(d: Db, d': Db)
    requires Asked(d) && d'.def == d.def && d'.outbox == d.outbox && TimersOk(d'.timers, d'.activities)
    requires |d'.activities| == |d.activities| && |d'.timers| == |d.timers|
    requires forall i :: 0 <= i < |d.activities| ==>
               && d'.activities[i].node == d.activities[i].node && d'.activities[i].role == d.activities[i].role
               && d'.activities[i].activityType == d.activities[i].activityType
    requires forall t :: 0 <= t < |d.timers| ==>
               d'.timers[t].activity == d.timers[t].activity && d'.timers[t].kind == d.timers[t].kind
    ensures Asked(d')
  {
    forall i | 0 <= i < |d'.activities| ensures RowAsked(d.def, d'.activities[i]) {
      assert RowAsked(d.def, d.activities[i]);
    }
    AskedStays(d, d');
  }

  lemma LandingNames(def: Definition, cel: Cel, ctx: Context, id: NodeId)
    ensures NamesRoles(def, Landing(def, cel, ctx, id))
  {
    var found := FindNode(def.nodes, id);
    if found.Some? && found.value.config.ParallelSplit? {
      SplitNames(def, found.value.config.branchTargets);
      var targets := SplitTargets(def.nodes, found.value.config.branchTargets);
      assert Landing(def, cel, ctx, id) == if targets.Some? then AdvanceMulti(targets.value) else AdvanceOutcome.Error;
    } else if found.Some? && found.value.config.ForEach? && Landing(def, cel, ctx, id).AdvanceMulti? {
      var template := FindNode(def.nodes, found.value.config.branchTemplate).value;
      ForEachNames(def, template, cel.items(found.value.config.itemsPath, ctx).value);
    }
  }

  lemma ForEachNames(def: Definition, template: Node, items: seq<Json>)
    requires FindNode(def.nodes, template.id) == Some(template)
    ensures NamesRoles(def, AdvanceMulti(ForEachTargets(template, items)))
  {
    var targets := ForEachTargets(template, items);
    forall i | 0 <= i < |targets| ensures NamesRole(def, targets[i].node, targets[i].role) {
      assert targets[i].node == template.id && targets[i].role == template.AssigneeRole();
    }
  }

  lemma {:induction false} SplitNames(def: Definition, branches: seq<NodeId>)
    ensures var r := SplitTargets(def.nodes, branches);
            r.Some? ==> NamesRoles(def, AdvanceMulti(r.value))
  {
    if branches != [] && SplitTargets(def.nodes, branches).Some? {
      SplitNames(def, branches[1..]);
      var targets, rest := SplitTargets(def.nodes, branches).value, SplitTargets(def.nodes, branches[1..]).value;
      forall i | 0 <= i < |targets| ensures NamesRole(def, targets[i].node, targets[i].role) {
        assert i > 0 ==> targets[i] == rest[i - 1];
      }
    }
  }

  lemma ResolveNames(def: Definition, cel: Cel, ctx: Context, target: NodeId)
    ensures NamesRoles(def, Resolve(def, cel, ctx, target).0)
  {
    var w := RouterOf(def, cel, ctx);
    ResolverExact(def, cel, ctx, target);
    if StopsWithin(w, target, MAX_RESOLVE_DEPTH) {
      var n: nat :| n <= MAX_RESOLVE_DEPTH && StopsAfter(w, target, n);
      LandingNames(def, cel, ctx, WalkTo(w, target, n).value);
    }
  }

  lemma DecisionNames(def: Definition, cel: Cel, ctx: Context, at: NodeId, signal: SignalType)
    ensures NamesRoles(def, DecideAdvance(def, cel, ctx, at, signal).0)
    ensures NamesRoles(def, DecideTimeout(def, cel, ctx, at).0)
  {
    var edge := FindTransition(def.transitions, at, signal);
    if edge.Some? {
      ResolveNames(def, cel, ctx, edge.value.to);
    }
    var found := FindNode(def.nodes, at);
    if found.Some? && found.value.TimeoutTarget().Some? {
      ResolveNames(def, cel, ctx, found.value.TimeoutTarget().value);
    }
  }

  lemma DispatchAsked(env: Env, d: Db, outcome: AdvanceOutcome, forEach: Option<FanOut>, src: nat, round: int,
                      fuel: nat)
    requires Asked(d) && src < |d.activities| && NamesRoles(d.def, outcome)
    ensures AskedAfter(Dispatch(env, d, outcome, forEach, src, round, fuel))
    decreases fuel, 3
  {
    match outcome
    case Advance(target, role) =>
      if FindNode(d.def.nodes, target).Some? {
        var node := FindNode(d.def.nodes, target).value;
        if node.config.ParallelJoin? {
          var d1 := Append(d, Fact.BranchReachedJoin(d.activities[src].node, node.id, round), None);
          TryAsked(env, d1, node, src, round, Some(src), fuel);
        } else {
          AdvanceAsked(d, node, round);
        }
      }
    case AdvanceMulti(targets) => FanOutAsked(env, d, targets, forEach, src, round, fuel);
    case Complete(result) => CompletionAsked(env, d, result);
    case Rework(target, role) => HandBackAsked(env, d, target, role, src);
    case Error =>
  }

  lemma FanOutAsked(env: Env, d: Db, targets: seq<ParallelTarget>, forEach: Option<FanOut>, src: nat, round: int,
                    fuel: nat)
    requires Asked(d) && src < |d.activities|
    requires forall i :: 0 <= i < |targets| ==> NamesRole(d.def, targets[i].node, targets[i].role)
    ensures AskedAfter(FanOutTo(env, d, targets, forEach, src, round, fuel))
    decreases fuel, 2
  {
    var d1 := MarkFanOut(d, targets, forEach, src, round);
    assert Asked(d1);
    if targets == [] && forEach.Some? {
      if NodeOf(d1, forEach.value.joinTarget).Ok? {
        TryAsked(env, d1, NodeOf(d1, forEach.value.joinTarget).value, src, round, None, fuel);
      }
    } else {
      TargetsAsked(d1, targets, round, forEach.Some?);
    }
  }

  lemma TryAsked(env: Env, d: Db, join: Node, src: nat, round: int, exclude: Option<nat>, fuel: nat)
    requires Asked(d) && src < |d.activities|
    ensures AskedAfter(TrySatisfyJoin(env, d, join, src, round, exclude, fuel))
    decreases fuel, 1
  {
    if Expectation(d, join.id, round).Ok? && fuel > 0 {
      var (expected, branches) := Expectation(d, join.id, round).value;
      var arrived := CountArrived(d.activities, branches, round);
      if StrategyOf(join).IsSatisfied(arrived, expected) {
        var d1 := SatisfyJoin(d, join, arrived, expected, round, exclude);
        SatisfyAsked(d, join, arrived, expected, round, exclude);
        PassAsked(env, d1, join.id, src, round, fuel - 1);
      }
    }
  }

  lemma PassAsked(env: Env, d: Db, join: NodeId, src: nat, round: int, fuel: nat)
    requires Asked(d) && src < |d.activities|
    ensures AskedAfter(PassJoin(env, d, join, src, round, fuel))
    decreases fuel, 5
  {
    DecisionNames(d.def, env.cel, d.Ctx(), join, SignalType.Approved);
    var (outcome, trace) := DecideAdvance(d.def, env.cel, d.Ctx(), join, SignalType.Approved);
    ApplyAsked(env, d, outcome, trace, src, round, fuel);
  }

  lemma ApplyAsked(env: Env, d: Db, outcome: AdvanceOutcome, trace: ResolveTrace, src: nat, round: int, fuel: nat)
    requires Asked(d) && src < |d.activities| && NamesRoles(d.def, outcome)
    ensures AskedAfter(ApplyOutcome(env, d, outcome, trace, src, round, fuel))
    decreases fuel, 4
  {
    MergesKeepRows(d, d.activities[src].node, trace.merges, round);
    DispatchAsked(env, AppendMerges(d, d.activities[src].node, trace.merges, round), outcome, trace.forEach, src, round,
                  fuel);
  }

  // ------------------------------------------------------------------ the calls

  /** An activity settled, with its timers: nothing new is asked for. */
  lemma SettledAsked(d: Db, timers: seq<TimerRow>, a: nat, row: Activity, d': Db)
    requires Asked(d) && d.IsActive(a) && d'.def == d.def && d'.outbox == d.outbox
    requires row.node == d.activities[a].node && row.role == d.activities[a].role
    requires row.activityType == d.activities[a].activityType && d'.activities == d.activities[a := row]
    requires |timers| == |d.timers| && TimersOk(timers, d.activities) && TimersCancelled(timers, a, d'.timers)
    requires forall t :: 0 <= t < |timers| ==>
               timers[t].activity == d.timers[t].activity && timers[t].kind == d.timers[t].kind
    ensures Asked(d')
  {
    SkippedAsked(d, d');
  }

  lemma MoveAsked(env: Env, d: Db, a: nat, signal: SignalType, fuel: nat)
    requires Asked(d) && a < |d.activities|
    ensures AskedAfter(MoveOn(env, d, a, signal, fuel))
  {
    DecisionNames(d.def, env.cel, d.Ctx(), d.activities[a].node, signal);
    var (outcome, trace) := DecideAdvance(d.def, env.cel, d.Ctx(), d.activities[a].node, signal);
    ApplyAsked(env, d, outcome, trace, a, d.activities[a].round, fuel);
  }

  lemma SignalAsked(env: Env, d: Db, cmd: SignalCommand, fuel: nat)
    requires Asked(d) && Signal(env, d, cmd, fuel).Ok? && !Signal(env, d, cmd, fuel).value.1
    ensures Asked(Signal(env, d, cmd, fuel).value.0)
  {
    if cmd.signal.Claimed? || cmd.signal.Reassigned? {
      var a, node := ClaimActs(env, d, cmd, fuel);
      ClaimedAsked(d, a, cmd.assignee, Signal(env, d, cmd, fuel).value.0);
    } else {
      var a, node, d1 := SignalActs(env, d, cmd, fuel);
      SettledAsked(d, d.timers, a, d1.activities[a], d1);
      MoveAsked(env, d1, a, cmd.signal, fuel);
    }
  }

  lemma ClaimedAsked(d: Db, a: nat, assignee: Option<int>, d': Db)
    requires Asked(d) && d.IsActive(a)
    requires d' == d.(activities := d.activities[a := d.activities[a].(assignee := assignee)], log := d'.log)
    ensures Asked(d')
  {
    SkippedAsked(d, d');
  }

  lemma MarkedAsked(d: Db, t: nat)
    requires Asked(d) && t < |d.timers|
    ensures Asked(d.(timers := TimerMarked(d, t))) && TimersOk(TimerMarked(d, t), d.activities)
  {
    SkippedAsked(d, d.(timers := TimerMarked(d, t)));
  }

  lemma ReminderAsked(d: Db, t: nat, a: nat, node: Node, d': Db)
    requires Asked(d) && DueFor(d, t, TimerKind.Reminder, a, node)
    requires d' == d.(timers := TimerMarked(d, t), log := d'.log, outbox := d'.outbox)
    requires IntentAdded(d.outbox, Intent(a, OutboxKind.NotifyReminder), d'.outbox)
    ensures Asked(d')
  {
    MarkedAsked(d, t);
    assert TimerAsked(d.def, d.activities, d.timers[t]);
    EnqueuedAsked(d.(timers := TimerMarked(d, t)), a, OutboxKind.NotifyReminder, d');
  }

  lemma EscalationAsked(d: Db, t: nat, a: nat, node: Node, role: Role, d': Db)
    requires Asked(d) && DueFor(d, t, TimerKind.Escalation, a, node) && EscalatesTo(node.config) == Some(role)
    requires d' == d.(activities := d.activities[a := d.activities[a].(role := Some(role))],
                      timers := TimerMarked(d, t), log := d'.log, outbox := d'.outbox)
    requires IntentAdded(d.outbox, Intent(a, OutboxKind.NotifyEscalation), d'.outbox)
    ensures Asked(d')
  {
    MarkedAsked(d, t);
    var d1 := d.(activities := d'.activities, timers := d'.timers);
    EscalatedAsked(d.(timers := d'.timers), a, role, d1);
    assert TimerAsked(d.def, d.activities, d.timers[t]);
    EnqueuedAsked(d1, a, OutboxKind.NotifyEscalation, d');
  }

  lemma EscalatedAsked(d: Db, a: nat, role: Role, d': Db)
    requires Asked(d) && d.IsActive(a) && FindNode(d.def.nodes, d.activities[a].node).Some?
    requires EscalatesTo(FindNode(d.def.nodes, d.activities[a].node).value.config) == Some(role)
    requires d' == d.(activities := d.activities[a := d.activities[a].(role := Some(role))])
    ensures Asked(d')
  {
    forall i | 0 <= i < |d'.activities| ensures RowAsked(d.def, d'.activities[i]) {
      assert RowAsked(d.def, d.activities[i]);
    }
    AskedStays(d, d');
  }

  lemma FireAsked(env: Env, d: Db, t: nat, fuel: nat)
    requires Asked(d) && FireTimer(env, d, t, fuel).Ok?
    ensures Asked(FireTimer(env, d, t, fuel).value.0)
  {
    OverdueActs(env, d, t, fuel);
    if t < |d.timers| && d.timers[t].status.Pending? {
      var a := d.timers[t].activity;
      MarkedAsked(d, t);
      if !d.status.IsTerminal() && d.IsActive(a) {
        assert RowAsked(d.def, d.activities[a]);
        DueAsked(env, d, t, a, FindNode(d.def.nodes, d.activities[a].node).value, fuel);
      }
    }
  }

  lemma DueAsked(env: Env, d: Db, t: nat, a: nat, node: Node, fuel: nat)
    requires Asked(d) && t < |d.timers| && DueFor(d, t, d.timers[t].kind, a, node) && FireTimer(env, d, t, fuel).Ok?
    ensures Asked(FireTimer(env, d, t, fuel).value.0)
  {
    var d' := FireTimer(env, d, t, fuel).value.0;
    MarkedAsked(d, t);
    match d.timers[t].kind
    case Reminder =>
      ReminderActs(env, d, t, a, node, fuel);
      ReminderAsked(d, t, a, node, d');
    case Escalation =>
      EscalationActs(env, d, t, a, node, fuel);
      if EscalatesTo(node.config).Some? {
        EscalationAsked(d, t, a, node, EscalatesTo(node.config).value, d');
      }
    case Timeout => TimeoutAsked(env, d, t, a, node, fuel);
  }

  lemma TimeoutAsked(env: Env, d: Db, t: nat, a: nat, node: Node, fuel: nat)
    requires Asked(d) && DueFor(d, t, TimerKind.Timeout, a, node) && FireTimer(env, d, t, fuel).Ok?
    ensures Asked(FireTimer(env, d, t, fuel).value.0)
  {
    var d1 := DeadlineActs(env, d, t, a, node, fuel);
    MarkedAsked(d, t);
    SettledAsked(d, TimerMarked(d, t), a, d1.activities[a], d1);
    DecisionNames(d.def, env.cel, d.Ctx(), d.activities[a].node, SignalType.Approved);
    var (outcome, trace) := DecideTimeout(d.def, env.cel, d.Ctx(), d.activities[a].node);
    ApplyAsked(env, d1, outcome, trace, a, d.activities[a].round, fuel);
  }

  lemma DeliverAsked(env: Env, d: Db, a: nat, fuel: nat)
    requires Asked(d)
    ensures AskedAfter(OnNotificationDelivered(env, d, a, fuel))
  {
    if !d.status.IsTerminal() && d.IsActive(a) && d.activities[a].activityType.Notification? {
      var d1 := DeliveryActs(env, d, a, fuel);
      SettledAsked(d, d.timers, a, d1.activities[a], d1);
      MoveAsked(env, d1, a, SignalType.Completed, fuel);
    }
  }

  lemma ReopenAsked(d: Db, key: string, round: int)
    requires Asked(d) && UniqueIds(d.def.nodes)
    ensures AskedAfter(Reopen(d, key, round))
  {
    var d1 := Append(ReactivateWorkflow(d).0, Reactivated(round), Some(key));
    var start := DecideStart(d.def.nodes);
    if start.Some? {
      FindNodeIsNode(d.def.nodes, start.value);
      AdvanceAsked(d1, start.value, round);
    }
  }

  lemma StepAsked(env: Env, d: Db, step: Step, fuel: nat)
    requires Asked(d) && UniqueIds(d.def.nodes)
    ensures Asked(Commit(env, d, step, fuel))
  {
    match step
    case SignalStep(cmd) =>
      if Signal(env, d, cmd, fuel).Ok? && !Signal(env, d, cmd, fuel).value.1 {
        SignalAsked(env, d, cmd, fuel);
      }
    case ResubmitStep(key, visible) =>
      if NextRound(env, d).Ok? {
        ReopenAsked(d, key, NextRound(env, d).value);
      }
    case FireStep(t) =>
      if FireTimer(env, d, t, fuel).Ok? {
        FireAsked(env, d, t, fuel);
      }
    case DeliverStep(a) => DeliverAsked(env, d, a, fuel);
    case CallbackStep =>
    case DeadLetterStep(_, _) =>
  }

  lemma {:induction false} RunAsked(env: Env, d: Db, steps: seq<Step>, fuel: nat)
    requires Asked(d) && Good(env, d) && UniqueIds(d.def.nodes)
    ensures Asked(RunAll(env, d, steps, fuel))
  {
    if steps != [] {
      var init := steps[..|steps| - 1];
      RunAsked(env, d, init, fuel);
      RunGood(env, d, init, fuel);
      StepAsked(env, RunAll(env, d, init, fuel), steps[|steps| - 1], fuel);
    }
  }

  lemma StartAsked(env: Env, cmd: StartCommand)
    requires StartInstance(env, cmd).Ok?
    ensures Asked(Began(env, cmd)) && Began(env, cmd).def == cmd.def
  {
    var entry := DecideStart(cmd.def.nodes).value;
    FindNodeIsNode(cmd.def.nodes, entry);
    StartEnters(env, cmd, entry);
    AdvanceAsked(Append(NewInstance(cmd.def, cmd.context), Started(cmd.callback), None), entry, 1);
    StartGood(env, cmd);
  }

  lemma AskedInRuns(env: Env, cmd: StartCommand, steps: seq<Step>, fuel: nat)
    requires StartInstance(env, cmd).Ok?
    ensures var d := RunAll(env, Began(env, cmd), steps, fuel);
            Asked(d) && d.def == cmd.def && ValidDefinition(cmd.def, env.cel)
  {
    StartAsked(env, cmd);
    StartGood(env, cmd);
    RunGood(env, Began(env, cmd), steps, fuel);
    RunAsked(env, Began(env, cmd), steps, fuel);
  }

  // ------------------------------------------------------------------ what acceptance makes of it

  function ConfigOf(d: Db, a: nat): NodeConfig
    requires a < |d.activities| && FindNode(d.def.nodes, d.activities[a].node).Some?
  {
    FindNode(d.def.nodes, d.activities[a].node).value.config
  }

  lemma ConfigIsValid(env: Env, d: Db, a: nat)
    requires ValidDefinition(d.def, env.cel) && a < |d.activities| && FindNode(d.def.nodes, d.activities[a].node).Some?
    ensures ConfigValid(d.def, env.cel, FindNode(d.def.nodes, d.activities[a].node).value)
  {
    FoundIsValid(d.def, env.cel, d.activities[a].node);
  }

  /** In every run an approval is for someone: its activities have a role, the node's own or the one it escalates to,
      and it is not blank. */
  lemma ApprovalsHaveRoles(env: Env, cmd: StartCommand, steps: seq<Step>, fuel: nat, a: nat)
    requires StartInstance(env, cmd).Ok? && a < |RunAll(env, Began(env, cmd), steps, fuel).activities|
    ensures var d := RunAll(env, Began(env, cmd), steps, fuel);
            && FindNode(d.def.nodes, d.activities[a].node).Some?
            && var c, role := ConfigOf(d, a), d.activities[a].role;
               if c.Approval? then role.Some? && role.value != ""
                   && (role == c.assigneeRole || role == c.escalationRole)
               else role.None?
  {
    AskedInRuns(env, cmd, steps, fuel);
    var d := RunAll(env, Began(env, cmd), steps, fuel);
    assert RowAsked(d.def, d.activities[a]);
    ConfigIsValid(env, d, a);
  }

  /** In every run an activity that has a reminder and an escalation is escalated later than it is reminded of: the
      delay its node declares for the escalation is above the one it declares for the reminder. */
  lemma EscalationAfterReminder(env: Env, cmd: StartCommand, steps: seq<Step>, fuel: nat, t: nat, u: nat)
    requires StartInstance(env, cmd).Ok?
    requires var d := RunAll(env, Began(env, cmd), steps, fuel);
             && t < |d.timers| && u < |d.timers| && d.timers[t].activity == d.timers[u].activity
             && d.timers[t].kind.Reminder? && d.timers[u].kind.Escalation?
    ensures var d := RunAll(env, Began(env, cmd), steps, fuel);
            var a := d.timers[t].activity;
            && a < |d.activities| && FindNode(d.def.nodes, d.activities[a].node).Some?
            && var c := ConfigOf(d, a);
               && c.Approval? && c.slaSecs.Some? && c.escalationSecs.Some?
               && 0 < c.slaSecs.value < c.escalationSecs.value
               && c.escalationRole.Some? && c.escalationRole.value != ""
  {
    AskedInRuns(env, cmd, steps, fuel);
    var d := RunAll(env, Began(env, cmd), steps, fuel);
    assert TimerAsked(d.def, d.activities, d.timers[t]) && TimerAsked(d.def, d.activities, d.timers[u]);
    ConfigIsValid(env, d, d.timers[t].activity);
  }

  /** In every run what the outbox owes was asked for: a notification by a Notification with a template and a recipient,
      a reminder by an approval with an SLA, an escalation by one with an escalation role. */
  lemma IntentsAreAskedFor(env: Env, cmd: StartCommand, steps: seq<Step>, fuel: nat, x: Intent)
    requires StartInstance(env, cmd).Ok? && x in RunAll(env, Began(env, cmd), steps, fuel).outbox
    ensures var d := RunAll(env, Began(env, cmd), steps, fuel);
            && x.activity < |d.activities| && FindNode(d.def.nodes, d.activities[x.activity].node).Some?
            && var c := ConfigOf(d, x.activity);
               match x.kind
               case Notify =>
                 && c.Notification? && c.templateCode.Some? && c.templateCode.value != "" && c.recipient.Some?
               case NotifyReminder => c.Approval? && c.slaSecs.Some? && c.slaSecs.value > 0
               case NotifyEscalation => c.Approval? && c.escalationRole.Some? && c.escalationRole.value != ""
               case BusinessCallback => true
  {
    AskedInRuns(env, cmd, steps, fuel);
    var d := RunAll(env, Began(env, cmd), steps, fuel);
    assert IntentAsked(d.def, d.activities, x);
    ConfigIsValid(env, d, x.activity);
  }
}
