/** Calls that reach an instance waiting for rework without a signal: they leave its status alone, and the log
    drifts from the row unless the move ends at a join that still waits. */
module LateSteps {
  import opened Core
  import opened Walk
  import opened Routing
  import opened Validation
  import opened Progress
  import opened Facts
  import opened Replay
  import opened Database
  import opened Engine
  import opened Invariants
  import opened Preservation
  import opened Calls
  import opened Agreement
  import opened Runs
  import opened Trails

  predicate MildSuffix(log: seq<Event>, log': seq<Event>) {
    log <= log' && forall i :: |log| <= i < |log'| ==> !SetsStatus(log'[i].fact)
  }

  /** A waiting instance goes on waiting. */
  predicate Lingers(d: Db, d': Db) {
    && d.status.ReturnedWaiting? && d'.status.ReturnedWaiting?
    && d'.def == d.def && |d.activities| <= |d'.activities| && MildSuffix(d.log, d'.log)
  }

  predicate LingersAfter(d: Db, r: Result<Db>) {
    r.Ok? ==> Lingers(d, r.value)
  }

  lemma LingersTrans(a: Db, b: Db, c: Db)
    requires Lingers(a, b) && Lingers(b, c)
    ensures Lingers(a, c)
  {
    forall i | |a.log| <= i < |c.log| ensures !SetsStatus(c.log[i].fact) {
      if i < |b.log| { assert c.log[i] == b.log[i]; }
    }
  }

  // ------------------------------------------------------------------ what replay makes of it

  /** Once a waiting instance is stirred, mild facts never make it wait again. */
  lemma {:induction false} FoldStirred(log: seq<Event>, log': seq<Event>)
    requires MildSuffix(log, log') && FoldInstance(log).status.ReturnedWaiting?
    ensures FoldInstance(log').status.ReturnedWaiting? <==> !StirsIn(log, log')
    decreases |log'|
  {
    if log' != log {
      var init, last := log'[..|log'| - 1], log'[|log'| - 1].fact;
      FoldStirred(log, init);
      assert !SetsStatus(last);
      assert FoldInstance(log') == ApplyToInstance(FoldInstance(init), last);
      if StirsIn(log, init) {
        var i :| |log| <= i < |init| && Stirs(init[i].fact);
        assert Stirs(log'[i].fact);
      }
      if StirsIn(log, log') && !Stirs(last) {
        var i :| |log| <= i < |log'| && Stirs(log'[i].fact);
        assert Stirs(init[i].fact);
      }
    }
  }

  // ------------------------------------------------------------------ building blocks

  lemma ScheduledLingers(d: Db, node: NodeId, role: Option<Role>, round: int, via: Via, d': Db)
    requires d.status.ReturnedWaiting? && Scheduled(d, node, role, round, via, d')
    ensures Lingers(d, d')
  {
  }

  lemma ScheduleLingers(d: Db, node: Node, role: Option<Role>, round: int, via: Via)
    requires d.status.ReturnedWaiting? && FindNode(d.def.nodes, node.id) == Some(node)
    ensures var r := ScheduleActivity(d, node, role, round, via);
            r.Ok? ==> Lingers(d, r.value.0)
  {
    if !node.config.SubWorkflow? {
      ScheduleShape(d, node, role, round, via);
      ScheduledLingers(d, node.id, role, round, via, ScheduleActivity(d, node, role, round, via).value.0);
    }
  }

  lemma AdvanceLingers(d: Db, node: Node, role: Option<Role>, round: int)
    requires d.status.ReturnedWaiting? && FindNode(d.def.nodes, node.id) == Some(node)
    ensures LingersAfter(d, AdvanceTo(d, node, role, round))
  {
    ScheduleLingers(d, node, role, round, Linear);
  }

  lemma {:induction false} TargetsLinger(d: Db, targets: seq<ParallelTarget>, round: int, byForEach: bool)
    requires d.status.ReturnedWaiting?
    ensures LingersAfter(d, ScheduleTargets(d, targets, round, byForEach))
    decreases |targets|
  {
    var r := ScheduleTargets(d, targets, round, byForEach);
    if targets != [] && r.Ok? {
      var node := FindNode(d.def.nodes, targets[0].node).value;
      var via := Fanned(byForEach, targets[0].item);
      ScheduleLingers(d, node, targets[0].role, round, via);
      var d1 := ScheduleActivity(d, node, targets[0].role, round, via).value.0;
      TargetsLinger(d1, targets[1..], round, byForEach);
      LingersTrans(d, d1, r.value);
    }
  }

  /** Completion and hand-back need an active instance. */
  lemma WaitingCannotEnd(env: Env, d: Db, result: WorkflowResult, target: NodeId, role: Option<Role>, src: nat)
    requires d.status.ReturnedWaiting? && src < |d.activities|
    ensures CompleteInstance(env, d, result) == Err(Conflict)
    ensures HandBack(env, d, target, role, src).Err?
  {
    var _ := HandBackShape(env, d, target, role, src);
  }

  lemma SatisfyLingers(d: Db, join: Node, arrived: int, expected: int, round: int, exclude: Option<nat>)
    requires d.status.ReturnedWaiting?
    ensures Lingers(d, SatisfyJoin(d, join, arrived, expected, round, exclude))
  {
  }

  // ------------------------------------------------------------------ moving on

  lemma DispatchLingers(env: Env, d: Db, outcome: AdvanceOutcome, forEach: Option<FanOut>, src: nat, round: int,
                        fuel: nat)
    requires d.status.ReturnedWaiting? && src < |d.activities|
    ensures LingersAfter(d, Dispatch(env, d, outcome, forEach, src, round, fuel))
    decreases fuel, 1
  {
    match outcome
    case Advance(target, role) =>
      if NodeOf(d, target).Ok? {
        var node := NodeOf(d, target).value;
        if node.config.ParallelJoin? {
          ReachLingers(env, d, node, src, round, fuel);
        } else {
          AdvanceLingers(d, node, role, round);
        }
      }
    case AdvanceMulti(targets) => FanOutLingers(env, d, targets, forEach, src, round, fuel);
    case Complete(result) => WaitingCannotEnd(env, d, result, "", None, src);
    case Rework(target, role) => WaitingCannotEnd(env, d, WorkflowResult.Approved, target, role, src);
    case Error =>
  }

  lemma ReachLingers(env: Env, d: Db, join: Node, src: nat, round: int, fuel: nat)
    requires d.status.ReturnedWaiting? && src < |d.activities|
    ensures LingersAfter(d, ReachJoin(env, d, join, src, round, fuel))
    decreases fuel, 0, 1
  {
    var d1 := Append(d, Fact.BranchReachedJoin(d.activities[src].node, join.id, round), None);
    JoinLingers(env, d1, join, src, round, Some(src), fuel);
    if ReachJoin(env, d, join, src, round, fuel).Ok? {
      LingersTrans(d, d1, ReachJoin(env, d, join, src, round, fuel).value);
    }
  }

  lemma FanOutLingers(env: Env, d: Db, targets: seq<ParallelTarget>, forEach: Option<FanOut>, src: nat, round: int,
                      fuel: nat)
    requires d.status.ReturnedWaiting? && src < |d.activities|
    ensures LingersAfter(d, FanOutTo(env, d, targets, forEach, src, round, fuel))
    decreases fuel, 0, 1
  {
    var d1 := MarkFanOut(d, targets, forEach, src, round);
    assert Lingers(d, d1);
    if targets == [] && forEach.Some? {
      if NodeOf(d1, forEach.value.joinTarget).Ok? {
        JoinLingers(env, d1, NodeOf(d1, forEach.value.joinTarget).value, src, round, None, fuel);
      }
    } else {
      TargetsLinger(d1, targets, round, forEach.Some?);
    }
    if FanOutTo(env, d, targets, forEach, src, round, fuel).Ok? {
      LingersTrans(d, d1, FanOutTo(env, d, targets, forEach, src, round, fuel).value);
    }
  }

  lemma JoinLingers(env: Env, d: Db, join: Node, src: nat, round: int, exclude: Option<nat>, fuel: nat)
    requires d.status.ReturnedWaiting? && src < |d.activities|
    ensures LingersAfter(d, TrySatisfyJoin(env, d, join, src, round, exclude, fuel))
    decreases fuel, 0, 0
  {
    var expectation := Expectation(d, join.id, round);
    if expectation.Ok? && fuel > 0 {
      var (expected, branches) := expectation.value;
      var arrived := CountArrived(d.activities, branches, round);
      var d1 := SatisfyJoin(d, join, arrived, expected, round, exclude);
      SatisfyLingers(d, join, arrived, expected, round, exclude);
      PassLingers(env, d1, join.id, src, round, fuel - 1);
      if PassJoin(env, d1, join.id, src, round, fuel - 1).Ok? {
        LingersTrans(d, d1, PassJoin(env, d1, join.id, src, round, fuel - 1).value);
      }
    }
  }

  lemma PassLingers(env: Env, d: Db, join: NodeId, src: nat, round: int, fuel: nat)
    requires d.status.ReturnedWaiting? && src < |d.activities|
    ensures LingersAfter(d, PassJoin(env, d, join, src, round, fuel))
    decreases fuel, 3
  {
    var (outcome, trace) := DecideAdvance(d.def, env.cel, d.Ctx(), join, SignalType.Approved);
    ApplyLingers(env, d, outcome, trace, src, round, fuel);
  }

  lemma {:induction false} MergesLinger(d: Db, from: NodeId, merges: seq<NodeId>, round: int)
    requires d.status.ReturnedWaiting?
    ensures Lingers(d, AppendMerges(d, from, merges, round))
    decreases |merges|
  {
    if merges != [] {
      var d1 := Append(d, MergePassed(from, merges[0], round), None);
      MergesLinger(d1, from, merges[1..], round);
      LingersTrans(d, d1, AppendMerges(d, from, merges, round));
    }
  }

  lemma ApplyLingers(env: Env, d: Db, outcome: AdvanceOutcome, trace: ResolveTrace, src: nat, round: int, fuel: nat)
    requires d.status.ReturnedWaiting? && src < |d.activities|
    ensures LingersAfter(d, ApplyOutcome(env, d, outcome, trace, src, round, fuel))
    decreases fuel, 2
  {
    var d1 := AppendMerges(d, d.activities[src].node, trace.merges, round);
    MergesLinger(d, d.activities[src].node, trace.merges, round);
    DispatchLingers(env, d1, outcome, trace.forEach, src, round, fuel);
    if ApplyOutcome(env, d, outcome, trace, src, round, fuel).Ok? {
      LingersTrans(d, d1, ApplyOutcome(env, d, outcome, trace, src, round, fuel).value);
    }
  }

  // ------------------------------------------------------------------ late calls

  lemma DeliveryLingers(env: Env, d: Db, a: nat, fuel: nat)
    requires LateDelivery(d, a)
    ensures LingersAfter(d, OnNotificationDelivered(env, d, a, fuel))
  {
    var d1 := SettleDelivery(d, a);
    assert Lingers(d, d1);
    var (outcome, trace) := DecideAdvance(d1.def, env.cel, d1.Ctx(), d1.activities[a].node, SignalType.Completed);
    ApplyLingers(env, d1, outcome, trace, a, d1.activities[a].round, fuel);
    var r := OnNotificationDelivered(env, d, a, fuel);
    if r.Ok? {
      LingersTrans(d, d1, r.value);
    }
  }

  lemma TimeoutLingers(env: Env, d: Db, a: nat, fuel: nat)
    requires d.status.ReturnedWaiting? && a < |d.activities|
    ensures LingersAfter(d, FireTimeout(env, d, a, fuel))
  {
    var d1 := Append(CancelTimers(SkipForTimeout(d, a), a), ActivitySkipped(Some(a)), None);
    assert Lingers(d, d1);
    var (outcome, trace) := DecideTimeout(d1.def, env.cel, d1.Ctx(), d.activities[a].node);
    ApplyLingers(env, d1, outcome, trace, a, d.activities[a].round, fuel);
    if FireTimeout(env, d, a, fuel).Ok? {
      LingersTrans(d, d1, FireTimeout(env, d, a, fuel).value);
    }
  }

  lemma FireLingers(env: Env, d: Db, t: nat, fuel: nat)
    requires LateTimer(d, t)
    ensures var r := FireTimer(env, d, t, fuel);
            r.Ok? ==> Lingers(d, r.value.0)
  {
    var (d1, won) := MarkTimerFired(d, t);
    var r := FireTimer(env, d, t, fuel);
    if won && r.Ok? {
      var kind, a := d.timers[t].kind, d.timers[t].activity;
      if d1.IsActive(a) {
        var d2 := Append(d1, Fact.TimerFired(kind, a), None);
        assert Lingers(d, d2);
        TimeoutLingers(env, d2, a, fuel);
        LingersTrans(d, d2, r.value.0);
      }
    }
  }

  // ------------------------------------------------------------------ where a late call ends up

  /** The decision a late call takes, and the rows it takes it on. */
  function LateMove(env: Env, d: Db, step: Step): ((AdvanceOutcome, ResolveTrace), Db, nat)
    requires Late(d, step) && TimersOk(d.timers, d.activities)
  {
    if step.FireStep? then
      var a := d.timers[step.timer].activity;
      (DecideTimeout(d.def, env.cel, d.Ctx(), d.activities[a].node), d, a)
    else
      var a := step.activity;
      (DecideAdvance(d.def, env.cel, d.Ctx(), d.activities[a].node, SignalType.Completed), SettleDelivery(d, a), a)
  }

  /** Where the decision of a late call, followed through the joins it satisfies, comes to a stop. */
  function LateStop(env: Env, d: Db, step: Step, fuel: nat): Stop
    requires Late(d, step) && TimersOk(d.timers, d.activities)
  {
    var (decision, rows, a) := LateMove(env, d, step);
    Trail(env.cel, rows, LeadOf(d.def, decision.0, decision.1.forEach), {}, d.activities[a].round, fuel)
  }

  lemma LateDeliveryGoes(env: Env, d: Db, a: nat, fuel: nat)
    requires LateDelivery(d, a) && TimersOk(d.timers, d.activities)
    ensures Goes(d.def, d.log, LateStop(env, d, DeliverStep(a), fuel), OnNotificationDelivered(env, d, a, fuel))
    ensures CurrentGoes(d, LateStop(env, d, DeliverStep(a), fuel), OnNotificationDelivered(env, d, a, fuel))
  {
    var d1 := SettleDelivery(d, a);
    CurrentPush(d.log, d1.log[|d.log|]);
    var (outcome, trace) := DecideAdvance(d1.def, env.cel, d1.Ctx(), d1.activities[a].node, SignalType.Completed);
    TrailIsExact(env, d1, outcome, trace, a, d1.activities[a].round, fuel);
    assert Calm(d.log, d1.log);
    GoesThen(d.def, d.log, d1.log, LateStop(env, d, DeliverStep(a), fuel), OnNotificationDelivered(env, d, a, fuel));
  }

  /** Skipping the activity whose deadline passed changes no count. */
  lemma TimedOutMidway(d: Db, a: nat, t: nat, round: int)
    requires d.IsActive(a) && t < |d.timers|
    ensures var d1 := TimedOutDb(Append(MarkTimerFired(d, t).0, Fact.TimerFired(d.timers[t].kind, a), None), a);
            Midway(d, d1, {}, round) && Calm(d.log, d1.log)
  {
    var d0 := MarkTimerFired(d, t).0;
    var fired := Append(d0, Fact.TimerFired(d.timers[t].kind, a), None);
    var skipped := CancelTimers(SkipForTimeout(fired, a), a);
    MidwayStart(d, round);
    assert Midway(d, d0, {}, round);
    MidwayFact(d, d0, {}, round, Fact.TimerFired(d.timers[t].kind, a));
    assert Midway(d, skipped, {}, round);
    MidwayFact(d, skipped, {}, round, ActivitySkipped(Some(a)));
    CalmFact(d0, Fact.TimerFired(d.timers[t].kind, a));
    CalmFact(skipped, ActivitySkipped(Some(a)));
  }

  lemma TimeoutIs(env: Env, d: Db, a: nat, node: Node, fuel: nat)
    requires a < |d.activities|
    ensures OnTimer(env, d, TimerKind.Timeout, a, node, fuel)
         == match FireTimeout(env, d, a, fuel) case Ok(moved) => Ok((moved, true)) case Err(e) => Err(e)
  {
  }

  lemma FireIsTimeout(env: Env, d: Db, t: nat, fired: Db, a: nat, fuel: nat)
    requires LateTimer(d, t) && a == d.timers[t].activity && d.IsActive(a)
    requires FindNode(d.def.nodes, d.activities[a].node).Some?
    requires fired == Append(MarkTimerFired(d, t).0, Fact.TimerFired(TimerKind.Timeout, a), None)
    ensures fired.activities == d.activities && fired.def == d.def && fired.Ctx() == d.Ctx()
    ensures FireTimer(env, d, t, fuel)
         == match FireTimeout(env, fired, a, fuel) case Ok(moved) => Ok((moved, true)) case Err(e) => Err(e)
  {
    TimeoutIs(env, fired, a, NodeOf(d, d.activities[a].node).value, fuel);
  }

  lemma LateTimerGoes(env: Env, d: Db, t: nat, fuel: nat)
    requires LateTimer(d, t) && TimersOk(d.timers, d.activities) && RowsOk(d.def, d.activities)
    ensures var r := FireTimer(env, d, t, fuel);
            && Goes(d.def, d.log, LateStop(env, d, FireStep(t), fuel), if r.Ok? then Ok(r.value.0) else Err(r.error))
            && CurrentGoes(d, LateStop(env, d, FireStep(t), fuel), if r.Ok? then Ok(r.value.0) else Err(r.error))
  {
    var a := d.timers[t].activity;
    var fired := Append(MarkTimerFired(d, t).0, Fact.TimerFired(TimerKind.Timeout, a), None);
    FireIsTimeout(env, d, t, fired, a, fuel);
    TimedOutMidway(d, a, t, d.activities[a].round);
    TimedOutGoes(env, d, t, fired, a, fuel);
  }

  lemma TimedOutGoes(env: Env, d: Db, t: nat, fired: Db, a: nat, fuel: nat)
    requires LateTimer(d, t) && TimersOk(d.timers, d.activities) && a == d.timers[t].activity
    requires fired.activities == d.activities && fired.def == d.def && fired.Ctx() == d.Ctx()
    requires Midway(d, TimedOutDb(fired, a), {}, d.activities[a].round) && Calm(d.log, TimedOutDb(fired, a).log)
    ensures Goes(d.def, d.log, LateStop(env, d, FireStep(t), fuel), FireTimeout(env, fired, a, fuel))
    ensures CurrentGoes(d, LateStop(env, d, FireStep(t), fuel), FireTimeout(env, fired, a, fuel))
  {
    var d1 := TimedOutDb(fired, a);
    var round := d.activities[a].round;
    var (outcome, trace) := DecideTimeout(d.def, env.cel, d.Ctx(), d.activities[a].node);
    ApplyGoes(env, d, d1, {}, outcome, trace, a, round, fuel);
    GoesThen(d.def, d.log, d1.log, LateStop(env, d, FireStep(t), fuel),
             ApplyOutcome(env, d1, outcome, trace, a, round, fuel));
  }

  // ------------------------------------------------------------------ fan-outs of accepted definitions

  lemma LandingFans(def: Definition, cel: Cel, ctx: Context, id: NodeId)
    requires ValidDefinition(def, cel)
    ensures Landing(def, cel, ctx, id) == AdvanceMulti([]) ==> LandingFanOut(def, id).Some?
  {
    if FindNode(def.nodes, id).Some? && FindNode(def.nodes, id).value.config.ParallelSplit? {
      FoundIsValid(def, cel, id);
      SplitTargetsExist(def, FindNode(def.nodes, id).value.config.branchTargets);
    }
  }

  /** In an accepted definition only a ForEach fans out over nothing. */
  lemma ResolvedFans(def: Definition, cel: Cel, ctx: Context, target: NodeId)
    requires ValidDefinition(def, cel)
    ensures var (outcome, trace) := Resolve(def, cel, ctx, target);
            outcome == AdvanceMulti([]) ==> trace.forEach.Some?
  {
    var w := RouterOf(def, cel, ctx);
    ResolverExact(def, cel, ctx, target);
    if StopsWithin(w, target, MAX_RESOLVE_DEPTH) {
      var n: nat :| n <= MAX_RESOLVE_DEPTH && StopsAfter(w, target, n);
      LandingFans(def, cel, ctx, WalkTo(w, target, n).value);
    }
  }

  lemma DecidedFans(def: Definition, cel: Cel, ctx: Context, at: NodeId, signal: SignalType)
    requires ValidDefinition(def, cel)
    ensures var (outcome, trace) := DecideAdvance(def, cel, ctx, at, signal);
            outcome == AdvanceMulti([]) ==> trace.forEach.Some?
  {
    var edge := FindTransition(def.transitions, at, signal);
    if edge.Some? {
      ResolvedFans(def, cel, ctx, edge.value.to);
    }
  }

  lemma PastFans(def: Definition, cel: Cel, ctx: Context, join: NodeId)
    requires ValidDefinition(def, cel)
    ensures LeadPast(def, cel, ctx, join) != Ends(AdvanceMulti([]))
  {
    DecidedFans(def, cel, ctx, join, SignalType.Approved);
  }

  /** A trail rests on no fan-out over nothing if nothing past a join is one. */
  lemma {:induction false} TrailFans(cel: Cel, d: Db, lead: Lead, emptied: set<NodeId>, round: int, fuel: nat)
    requires lead != Ends(AdvanceMulti([]))
    requires forall join :: LeadPast(d.def, cel, d.Ctx(), join) != Ends(AdvanceMulti([]))
    ensures Trail(cel, d, lead, emptied, round, fuel) != Rests(AdvanceMulti([]))
    decreases fuel
  {
    if lead.ToJoin? && fuel > 0 {
      TrailFans(cel, d, LeadPast(d.def, cel, d.Ctx(), lead.join.id), emptied + Emptied(lead), round, fuel - 1);
    }
  }

  lemma LateStopFans(env: Env, d: Db, step: Step, fuel: nat)
    requires Late(d, step) && TimersOk(d.timers, d.activities) && ValidDefinition(d.def, env.cel)
    ensures LateStop(env, d, step, fuel) != Rests(AdvanceMulti([]))
  {
    var (decision, rows, a) := LateMove(env, d, step);
    if step.FireStep? {
      var target := FindNode(d.def.nodes, d.activities[a].node);
      if target.Some? && target.value.TimeoutTarget().Some? {
        ResolvedFans(d.def, env.cel, d.Ctx(), target.value.TimeoutTarget().value);
      }
    } else {
      DecidedFans(d.def, env.cel, d.Ctx(), d.activities[a].node, SignalType.Completed);
    }
    forall join ensures LeadPast(rows.def, env.cel, rows.Ctx(), join) != Ends(AdvanceMulti([])) {
      PastFans(rows.def, env.cel, rows.Ctx(), join);
    }
    TrailFans(env.cel, rows, LeadOf(d.def, decision.0, decision.1.forEach), {}, d.activities[a].round, fuel);
  }

  // ------------------------------------------------------------------ the exact condition

  lemma LateGoes(env: Env, d: Db, step: Step, fuel: nat)
    requires Late(d, step) && TimersOk(d.timers, d.activities) && RowsOk(d.def, d.activities)
    ensures Goes(d.def, d.log, LateStop(env, d, step, fuel), Run(env, d, step, fuel))
    ensures CurrentGoes(d, LateStop(env, d, step, fuel), Run(env, d, step, fuel))
    ensures LingersAfter(d, Run(env, d, step, fuel))
  {
    if step.FireStep? {
      LateTimerGoes(env, d, step.timer, fuel);
      FireLingers(env, d, step.timer, fuel);
    } else {
      LateDeliveryGoes(env, d, step.activity, fuel);
      DeliveryLingers(env, d, step.activity, fuel);
    }
  }

  lemma StirsUnlessWaiting(d: Db, stop: Stop, d': Db)
    requires Goes(d.def, d.log, stop, Ok(d')) && Lingers(d, d') && stop != Rests(AdvanceMulti([]))
    ensures StirsIn(d.log, d'.log) <==> !stop.Waits?
  {
  }

  /** Where the current activity of a waiting instance still agrees with the log: a join goes on waiting and there was
      none before, or a fan-out over no items has cleared it in both; a fan-out clears it in both; an error leaves
      it. */
  predicate CurrentAgrees(d: Db, stop: Stop) {
    match stop
    case Waits(_, emptied) => d.current.None? || emptied != {}
    case Rests(outcome) => outcome.AdvanceMulti? || outcome.Error?
    case _ => false
  }

  lemma CurrentAgreesExactly(d: Db, stop: Stop, d': Db)
    requires d.status.ReturnedWaiting? && CurrentGoes(d, stop, Ok(d')) && FoldInstance(d.log).current == d.current
    requires d.current.Some? ==> d.current.value < |d.activities|
    ensures FoldInstance(d'.log).current == d'.current <==> CurrentAgrees(d, stop)
  {
    assert CurrentAt(d, stop, d');
  }

  lemma CurrentIsKnown(d: Db)
    requires Told(d)
    ensures d.current.Some? ==> d.current.value < |d.activities|
  {
    RowCurrentNamed(d.log);
    if d.current.Some? {
      var p: nat :| p < |d.log| && Named(d.log[p].fact) == d.current;
      assert Sensible(d.def, d.activities, d.log[p].fact);
    }
  }

  /** Late steps, exactly: a timeout or a delivered notification that reaches an instance waiting for rework never
      changes its status. What agreed before it agrees after it by where the decision, followed through the joins it
      satisfies, comes to a stop: the status if and only if that is a join that still waits; the current activity if
      and only if that is a fan-out or an error, or such a join and the current activity was none or cleared on the
      way. */
  lemma LateStepDrift(env: Env, d: Db, step: Step, fuel: nat)
    requires Good(env, d) && Told(d) && ValidDefinition(d.def, env.cel)
    requires Late(d, step) && Run(env, d, step, fuel).Ok?
    ensures var d', stop := Commit(env, d, step, fuel), LateStop(env, d, step, fuel);
            && d'.status == d.status && d.log <= d'.log
            && (FoldInstance(d.log).status == d.status ==> (FoldInstance(d'.log).status == d'.status <==> stop.Waits?))
            && (FoldInstance(d.log).current == d.current ==>
                  (FoldInstance(d'.log).current == d'.current <==> CurrentAgrees(d, stop)))
  {
    var d' := Commit(env, d, step, fuel);
    LateGoes(env, d, step, fuel);
    if FoldInstance(d.log).status == d.status {
      LateStopFans(env, d, step, fuel);
      FoldStirred(d.log, d'.log);
      StirsUnlessWaiting(d, LateStop(env, d, step, fuel), d');
    }
    if FoldInstance(d.log).current == d.current {
      CurrentIsKnown(d);
      CurrentAgreesExactly(d, LateStop(env, d, step, fuel), d');
    }
  }

  /** A move a waiting instance cannot make: it breaks off, never ends, or would complete the instance. */
  predicate NoWay(stop: Stop) {
    stop.Breaks? || stop.Endless? || (stop.Rests? && stop.outcome.Complete?)
  }

  lemma LateRefused(env: Env, d: Db, step: Step, fuel: nat)
    requires Late(d, step) && TimersOk(d.timers, d.activities) && RowsOk(d.def, d.activities)
    requires NoWay(LateStop(env, d, step, fuel))
    ensures Run(env, d, step, fuel).Err?
  {
    LateGoes(env, d, step, fuel);
  }

  /** A call that would complete a waiting instance is rolled back however often it is made: such a notification, once
      delivered, can only be settled after some other call. */
  lemma {:induction false} RefusedEveryTime(env: Env, d: Db, step: Step, n: nat, fuel: nat)
    requires Late(d, step) && TimersOk(d.timers, d.activities) && RowsOk(d.def, d.activities)
    requires NoWay(LateStop(env, d, step, fuel))
    ensures Run(env, d, step, fuel).Err? && RunAll(env, d, seq(n, _ => step), fuel) == d
    decreases n
  {
    LateRefused(env, d, step, fuel);
    if n > 0 {
      RefusedEveryTime(env, d, step, n - 1, fuel);
      var steps := seq(n, _ => step);
      assert steps[..n - 1] == seq(n - 1, _ => step) && steps[n - 1] == step;
    }
  }
}
