/** Where the work of a run can be: regions of the graph that no decision leaves. */
module Regions {
  import opened Core
  import opened Routing
  import opened Facts
  import opened Database
  import opened Engine
  import opened Preservation
  import opened Calls
  import opened Runs

  /** Every node a decision names lies in the region. */
  predicate OutcomeIn(region: iset<NodeId>, outcome: AdvanceOutcome) {
    match outcome
    case Advance(target, _) => target in region
    case Rework(target, _) => target in region
    case AdvanceMulti(targets) => forall i :: 0 <= i < |targets| ==> targets[i].node in region
    case _ => true
  }

  predicate Stays(region: iset<NodeId>, outcome: AdvanceOutcome, trace: ResolveTrace) {
    OutcomeIn(region, outcome)
        && (outcome.AdvanceMulti? && trace.forEach.Some? ==> trace.forEach.value.joinTarget in region)
  }

  /** The entry is in the region and no decision taken in the region leaves it. */
  ghost predicate Sealed(def: Definition, cel: Cel, region: iset<NodeId>) {
    && (DecideStart(def.nodes).Some? ==> DecideStart(def.nodes).value.id in region)
    && (forall ctx, at, signal :: at in region && FindNode(def.nodes, at).Some? ==>
          Stays(region, DecideAdvance(def, cel, ctx, at, signal).0, DecideAdvance(def, cel, ctx, at, signal).1))
    && (forall ctx, at :: at in region && FindNode(def.nodes, at).Some? ==>
          Stays(region, DecideTimeout(def, cel, ctx, at).0, DecideTimeout(def, cel, ctx, at).1))
  }

  /** Every activity sits at an existing node of the region. */
  ghost predicate Placed(d: Db, region: iset<NodeId>) {
    forall i :: 0 <= i < |d.activities| ==>
        FindNode(d.def.nodes, d.activities[i].node).Some? && d.activities[i].node in region
  }

  /** Every activity stands in the region. */
  ghost predicate StandsIn(d: Db, region: iset<NodeId>) {
    forall i :: 0 <= i < |d.activities| ==> d.activities[i].node in region
  }

  ghost predicate PlacedAfter(d: Db, r: Result<Db>, region: iset<NodeId>) {
    r.Ok? ==> Placed(r.value, region) && r.value.def == d.def
  }

  /** Same definition, the same activities at the same nodes. */
  predicate SamePlaces(d: Db, d': Db) {
    && d'.def == d.def && |d'.activities| == |d.activities|
    && forall i :: 0 <= i < |d.activities| ==> d'.activities[i].node == d.activities[i].node
  }

  lemma ScheduledPlaced(d: Db, node: NodeId, role: Option<Role>, round: int, via: Via, d': Db, region: iset<NodeId>)
    requires Placed(d, region) && FindNode(d.def.nodes, node).Some? && node in region
    requires Scheduled(d, node, role, round, via, d')
    ensures Placed(d', region) && d'.def == d.def
  {
  }

  lemma SchedulePlaced(d: Db, node: Node, role: Option<Role>, round: int, via: Via, region: iset<NodeId>)
    requires Placed(d, region) && FindNode(d.def.nodes, node.id) == Some(node) && node.id in region
    ensures var r := ScheduleActivity(d, node, role, round, via);
            r.Ok? ==> Placed(r.value.0, region) && r.value.0.def == d.def
  {
    if !node.config.SubWorkflow? {
      ScheduleShape(d, node, role, round, via);
      ScheduledPlaced(d, node.id, role, round, via, ScheduleActivity(d, node, role, round, via).value.0, region);
    }
  }

  lemma {:induction false} TargetsPlaced(d: Db, targets: seq<ParallelTarget>, round: int, byForEach: bool,
                                         region: iset<NodeId>)
    requires Placed(d, region) && forall i :: 0 <= i < |targets| ==> targets[i].node in region
    ensures PlacedAfter(d, ScheduleTargets(d, targets, round, byForEach), region)
    decreases |targets|
  {
    if targets != [] && ScheduleTargets(d, targets, round, byForEach).Ok? {
      var node := FindNode(d.def.nodes, targets[0].node).value;
      assert targets[0].node in region;
      var via := Fanned(byForEach, targets[0].item);
      SchedulePlaced(d, node, targets[0].role, round, via, region);
      TargetsPlaced(ScheduleActivity(d, node, targets[0].role, round, via).value.0, targets[1..], round, byForEach,
                    region);
    }
  }

  lemma AdvancePlaced(d: Db, node: Node, role: Option<Role>, round: int, region: iset<NodeId>)
    requires Placed(d, region) && FindNode(d.def.nodes, node.id) == Some(node) && node.id in region
    ensures PlacedAfter(d, AdvanceTo(d, node, role, round), region)
  {
    SchedulePlaced(d, node, role, round, Linear, region);
  }

  lemma CompletePlaced(env: Env, d: Db, result: WorkflowResult)
    ensures var r := CompleteInstance(env, d, result);
            r.Ok? ==> SamePlaces(d, r.value)
  {
  }

  lemma HandedBackPlaced(d: Db, node: NodeId, role: Option<Role>, from: NodeId, d1: Db, d': Db, region: iset<NodeId>)
    requires Placed(d, region) && FindNode(d.def.nodes, node).Some? && node in region
    requires HandedBack(d, node, role, from, d1, d')
    ensures Placed(d', region) && d'.def == d.def
  {
    ScheduledPlaced(d, node, role, MaxRound(d.activities) + 1, Linear, d1, region);
  }

  lemma HandBackPlaced(env: Env, d: Db, target: NodeId, role: Option<Role>, src: nat, region: iset<NodeId>)
    requires Placed(d, region) && src < |d.activities| && target in region
    ensures PlacedAfter(d, HandBack(env, d, target, role, src), region)
  {
    var d1 := HandBackShape(env, d, target, role, src);
    if CanHandBack(env, d, target) {
      HandedBackPlaced(d, target, role, d.activities[src].node, d1, HandBack(env, d, target, role, src).value, region);
    }
  }

  lemma SatisfyKeepsPlaces(d: Db, join: Node, arrived: int, expected: int, round: int, exclude: Option<nat>)
    ensures SamePlaces(d, SatisfyJoin(d, join, arrived, expected, round, exclude))
  {
  }

  lemma DispatchPlaced(env: Env, d: Db, outcome: AdvanceOutcome, forEach: Option<FanOut>, src: nat, round: int,
                       fuel: nat, region: iset<NodeId>)
    requires Sealed(d.def, env.cel, region) && Placed(d, region) && src < |d.activities|
    requires OutcomeIn(region, outcome)
    requires outcome.AdvanceMulti? && forEach.Some? ==> forEach.value.joinTarget in region
    ensures PlacedAfter(d, Dispatch(env, d, outcome, forEach, src, round, fuel), region)
    decreases fuel, 1
  {
    match outcome
    case Advance(target, role) =>
      if FindNode(d.def.nodes, target).Some? {
        var node := FindNode(d.def.nodes, target).value;
        if node.config.ParallelJoin? {
          var d1 := Append(d, Fact.BranchReachedJoin(d.activities[src].node, node.id, round), None);
          JoinPlaced(env, d1, node, src, round, Some(src), fuel, region);
        } else {
          AdvancePlaced(d, node, role, round, region);
        }
      }
    case AdvanceMulti(targets) =>
      FanOutPlaced(env, d, targets, forEach, src, round, fuel, region);
    case Complete(result) => CompletePlaced(env, d, result);
    case Rework(target, role) => HandBackPlaced(env, d, target, role, src, region);
    case Error =>
  }

  lemma FanOutPlaced(env: Env, d: Db, targets: seq<ParallelTarget>, forEach: Option<FanOut>, src: nat, round: int,
                     fuel: nat, region: iset<NodeId>)
    requires Sealed(d.def, env.cel, region) && Placed(d, region) && src < |d.activities|
    requires forall i :: 0 <= i < |targets| ==> targets[i].node in region
    requires forEach.Some? ==> forEach.value.joinTarget in region
    ensures PlacedAfter(d, FanOutTo(env, d, targets, forEach, src, round, fuel), region)
    decreases fuel, 1, 0
  {
    var d1 := MarkFanOut(d, targets, forEach, src, round);
    if targets == [] && forEach.Some? {
      if NodeOf(d1, forEach.value.joinTarget).Ok? {
        JoinPlaced(env, d1, NodeOf(d1, forEach.value.joinTarget).value, src, round, None, fuel, region);
      }
    } else {
      TargetsPlaced(d1, targets, round, forEach.Some?, region);
    }
  }

  lemma JoinPlaced(env: Env, d: Db, join: Node, src: nat, round: int, exclude: Option<nat>, fuel: nat,
                   region: iset<NodeId>)
    requires Sealed(d.def, env.cel, region) && Placed(d, region) && src < |d.activities|
    requires FindNode(d.def.nodes, join.id).Some? && join.id in region
    ensures PlacedAfter(d, TrySatisfyJoin(env, d, join, src, round, exclude, fuel), region)
    decreases fuel, 0
  {
    var expectation := Expectation(d, join.id, round);
    if expectation.Ok? && fuel > 0 {
      var (expected, branches) := expectation.value;
      var arrived := CountArrived(d.activities, branches, round);
      SatisfyKeepsPlaces(d, join, arrived, expected, round, exclude);
      PassPlaced(env, SatisfyJoin(d, join, arrived, expected, round, exclude), join.id, src, round, fuel - 1, region);
    }
  }

  lemma PassPlaced(env: Env, d: Db, join: NodeId, src: nat, round: int, fuel: nat, region: iset<NodeId>)
    requires Sealed(d.def, env.cel, region) && Placed(d, region) && src < |d.activities|
    requires FindNode(d.def.nodes, join).Some? && join in region
    ensures PlacedAfter(d, PassJoin(env, d, join, src, round, fuel), region)
    decreases fuel, 3
  {
    var (outcome, trace) := DecideAdvance(d.def, env.cel, d.Ctx(), join, SignalType.Approved);
    AppliedPlaced(env, d, outcome, trace, src, round, fuel, region);
  }

  lemma AppliedPlaced(env: Env, d: Db, outcome: AdvanceOutcome, trace: ResolveTrace, src: nat, round: int, fuel: nat,
                      region: iset<NodeId>)
    requires Sealed(d.def, env.cel, region) && Placed(d, region) && src < |d.activities|
    requires Stays(region, outcome, trace)
    ensures PlacedAfter(d, ApplyOutcome(env, d, outcome, trace, src, round, fuel), region)
    decreases fuel, 2
  {
    MergesKeepRows(d, d.activities[src].node, trace.merges, round);
    DispatchPlaced(env, AppendMerges(d, d.activities[src].node, trace.merges, round), outcome, trace.forEach, src,
                   round, fuel, region);
  }

  lemma MoveOnPlaced(env: Env, d: Db, a: nat, signal: SignalType, fuel: nat, region: iset<NodeId>)
    requires Sealed(d.def, env.cel, region) && Placed(d, region) && a < |d.activities|
    ensures PlacedAfter(d, MoveOn(env, d, a, signal, fuel), region)
  {
    var (outcome, trace) := DecideAdvance(d.def, env.cel, d.Ctx(), d.activities[a].node, signal);
    AppliedPlaced(env, d, outcome, trace, a, d.activities[a].round, fuel, region);
  }

  lemma SettleKeepsPlaces(d: Db, a: nat, node: Node, cmd: SignalCommand)
    requires a < |d.activities|
    ensures var r := SettleSignal(d, a, node, cmd);
            r.Ok? ==> SamePlaces(d, r.value)
  {
    var written := ApplyContextWrites(d, node, d.activities[a].round, cmd.patch);
    if written.Ok? {
      assert written.value.activities == d.activities && written.value.def == d.def;
      ReviewKeepsPlaces(written.value, a, cmd);
    }
  }

  lemma ReviewKeepsPlaces(d: Db, a: nat, cmd: SignalCommand)
    requires a < |d.activities|
    ensures Review(d, a, cmd).Ok? ==> SamePlaces(d, Review(d, a, cmd).value)
  {
    if d.IsActive(a) {
      var _ := ReviewShape(d, a, cmd);
    }
  }

  lemma SignalPlaced(env: Env, d: Db, cmd: SignalCommand, fuel: nat, region: iset<NodeId>)
    requires Sealed(d.def, env.cel, region) && Placed(d, region)
    ensures var r := Signal(env, d, cmd, fuel);
            r.Ok? ==> Placed(r.value.0, region) && r.value.0.def == d.def
  {
    var r := Signal(env, d, cmd, fuel);
    if r.Ok? && !r.value.1 {
      var a := TargetActivity(d, cmd.activity).value;
      var node := NodeOf(d, d.activities[a].node).value;
      if !IsClaim(cmd.signal) {
        SettleKeepsPlaces(d, a, node, cmd);
        assert r.value.0 == MoveOn(env, SettleSignal(d, a, node, cmd).value, a, cmd.signal, fuel).value;
        MoveOnPlaced(env, SettleSignal(d, a, node, cmd).value, a, cmd.signal, fuel, region);
      }
    }
  }

  lemma ResubmittedPlaced(env: Env, d: Db, key: string, entry: Node, node: Node, d1: Db, d': Db, region: iset<NodeId>)
    requires Placed(d, region) && Calls.Resubmitted(env, d, key, entry, node, d1, d') && node.id in region
    ensures Placed(d', region) && d'.def == d.def
  {
    AdvancePlaced(d1, node, entry.AssigneeRole(), MaxRound(d.activities) + 1, region);
  }

  lemma ResubmitPlaced(env: Env, d: Db, key: string, visible: bool, region: iset<NodeId>)
    requires Placed(d, region) && Sealed(d.def, env.cel, region)
    ensures var r := Resubmit(env, d, key, visible);
            r.Ok? ==> Placed(r.value.0, region) && r.value.0.def == d.def
  {
    var r := Resubmit(env, d, key, visible);
    if r.Ok? && !r.value.1 {
      var d1, entry, node := ResubmitShape(env, d, key, visible);
      ResubmittedPlaced(env, d, key, entry, node, d1, r.value.0, region);
    }
  }

  lemma TimeoutPlaced(env: Env, d: Db, a: nat, fuel: nat, region: iset<NodeId>)
    requires Sealed(d.def, env.cel, region) && Placed(d, region) && a < |d.activities|
    ensures PlacedAfter(d, FireTimeout(env, d, a, fuel), region)
  {
    var d1 := Append(CancelTimers(SkipForTimeout(d, a), a), ActivitySkipped(Some(a)), None);
    assert SamePlaces(d, d1);
    var (outcome, trace) := DecideTimeout(d1.def, env.cel, d1.Ctx(), d.activities[a].node);
    AppliedPlaced(env, d1, outcome, trace, a, d.activities[a].round, fuel, region);
  }

  lemma FirePlaced(env: Env, d: Db, t: nat, fuel: nat, region: iset<NodeId>)
    requires Sealed(d.def, env.cel, region) && Placed(d, region)
    ensures var r := FireTimer(env, d, t, fuel);
            r.Ok? ==> Placed(r.value.0, region) && r.value.0.def == d.def
  {
    var (d1, won) := MarkTimerFired(d, t);
    if won && FireTimer(env, d, t, fuel).Ok? {
      var kind, a := d.timers[t].kind, d.timers[t].activity;
      if !d1.status.IsTerminal() && d1.IsActive(a) {
        OnTimerPlaced(env, Append(d1, Fact.TimerFired(kind, a), None), kind, a, NodeOf(d1, d1.activities[a].node).value,
                      fuel, region);
      }
    }
  }

  lemma OnTimerPlaced(env: Env, d: Db, kind: TimerKind, a: nat, node: Node, fuel: nat, region: iset<NodeId>)
    requires Sealed(d.def, env.cel, region) && Placed(d, region) && a < |d.activities|
    ensures var r := OnTimer(env, d, kind, a, node, fuel);
            r.Ok? ==> Placed(r.value.0, region) && r.value.0.def == d.def
  {
    match kind
    case Reminder =>
    case Escalation => assert SamePlaces(d, FireEscalation(d, a, node).0);
    case Timeout => TimeoutPlaced(env, d, a, fuel, region);
  }

  lemma DeliverPlaced(env: Env, d: Db, a: nat, fuel: nat, region: iset<NodeId>)
    requires Sealed(d.def, env.cel, region) && Placed(d, region)
    ensures PlacedAfter(d, OnNotificationDelivered(env, d, a, fuel), region)
  {
    if d.IsActive(a) {
      var d1 := SettleDelivery(d, a);
      assert SamePlaces(d, d1);
      MoveOnPlaced(env, d1, a, SignalType.Completed, fuel, region);
    }
  }

  lemma {:induction false} RunPlaced(env: Env, d: Db, steps: seq<Step>, fuel: nat, region: iset<NodeId>)
    requires Sealed(d.def, env.cel, region) && Placed(d, region)
    ensures var d' := RunAll(env, d, steps, fuel);
            Placed(d', region) && d'.def == d.def
  {
    if steps != [] {
      var init, step := steps[..|steps| - 1], steps[|steps| - 1];
      RunPlaced(env, d, init, fuel, region);
      StepPlaced(env, RunAll(env, d, init, fuel), step, fuel, region);
    }
  }

  lemma StepPlaced(env: Env, d: Db, step: Step, fuel: nat, region: iset<NodeId>)
    requires Sealed(d.def, env.cel, region) && Placed(d, region)
    ensures var d' := Commit(env, d, step, fuel);
            Placed(d', region) && d'.def == d.def
  {
    match step
    case SignalStep(cmd) => SignalPlaced(env, d, cmd, fuel, region);
    case ResubmitStep(key, visible) => ResubmitPlaced(env, d, key, visible, region);
    case FireStep(t) => FirePlaced(env, d, t, fuel, region);
    case DeliverStep(a) => DeliverPlaced(env, d, a, fuel, region);
    case CallbackStep =>
    case DeadLetterStep(a, kind) =>
  }

  /** Region invariance: a set of nodes that holds the entry and that no decision leaves holds the node of
      every activity of every run. */
  lemma RegionHolds(env: Env, cmd: StartCommand, steps: seq<Step>, fuel: nat, region: iset<NodeId>)
    requires StartInstance(env, cmd).Ok? && Sealed(cmd.def, env.cel, region)
    ensures StandsIn(RunAll(env, Began(env, cmd), steps, fuel), region)
  {
    var entry := DecideStart(cmd.def.nodes).value;
    var d := Append(NewInstance(cmd.def, cmd.context), Started(cmd.callback), None);
    AdvancePlaced(d, NodeOf(d, entry.id).value, entry.AssigneeRole(), 1, region);
    RunPlaced(env, Began(env, cmd), steps, fuel, region);
  }
}
