/** Domain-driven definitions: one token, moved by signals alone. */
module SingleToken {
  import opened Core
  import opened Walk
  import opened Routing
  import opened Validation
  import opened Facts
  import opened Replay
  import opened Database
  import opened Engine
  import opened Invariants
  import opened Preservation
  import opened Calls
  import opened Agreement
  import opened Runs

  predicate NoneActive(d: Db) {
    forall b :: 0 <= b < |d.activities| ==> !d.activities[b].status.Active?
  }

  predicate OnlyActive(d: Db, a: nat) {
    d.IsActive(a) && forall b :: 0 <= b < |d.activities| && d.activities[b].status.Active? ==> b == a
  }

  predicate NoTimeouts(timers: seq<TimerRow>) {
    forall t :: 0 <= t < |timers| ==> !timers[t].kind.Timeout?
  }

  /** A live instance has one active activity, the current one; a finished one has none. */
  predicate Token(d: Db) {
    && (d.status.Active? || d.status.ReturnedWaiting? ==> d.current.Some? && OnlyActive(d, d.current.value))
    && (d.status.Completed? || d.status.Errored? ==> NoneActive(d))
    && NoTimeouts(d.timers)
  }

  /** Between the completion of an activity and the move. */
  predicate Idle(d: Db) {
    d.status.Active? && NoneActive(d) && NoTimeouts(d.timers)
  }

  // ------------------------------------------------------------------ decisions

  lemma DomainNode(def: Definition, id: NodeId)
    requires DomainDriven(def) && FindNode(def.nodes, id).Some?
    ensures var c := FindNode(def.nodes, id).value.config;
            c.Start? || c.Approval? || c.Condition? || c.End? || c.Merge?
  {
    var node := FindNode(def.nodes, id).value;
    var i :| 0 <= i < |def.nodes| && def.nodes[i] == node;
  }

  lemma DomainLanding(def: Definition, cel: Cel, ctx: Context, id: NodeId)
    requires DomainDriven(def)
    ensures !Landing(def, cel, ctx, id).AdvanceMulti?
  {
    if FindNode(def.nodes, id).Some? {
      DomainNode(def, id);
    }
  }

  lemma DomainResolve(def: Definition, cel: Cel, ctx: Context, target: NodeId)
    requires DomainDriven(def)
    ensures !Resolve(def, cel, ctx, target).0.AdvanceMulti?
  {
    var w := RouterOf(def, cel, ctx);
    ResolverExact(def, cel, ctx, target);
    if StopsWithin(w, target, MAX_RESOLVE_DEPTH) {
      var n: nat :| n <= MAX_RESOLVE_DEPTH && StopsAfter(w, target, n);
      DomainLanding(def, cel, ctx, WalkTo(w, target, n).value);
    }
  }

  lemma DomainDecision(def: Definition, cel: Cel, ctx: Context, node: NodeId, signal: SignalType)
    requires DomainDriven(def)
    ensures !DecideAdvance(def, cel, ctx, node, signal).0.AdvanceMulti?
  {
    var edge := FindTransition(def.transitions, node, signal);
    if edge.Some? {
      DomainResolve(def, cel, ctx, edge.value.to);
    }
  }

  // ------------------------------------------------------------------ moves

  lemma ScheduleKeepsTimeouts(d: Db, node: Node, role: Option<Role>, round: int, via: Via)
    requires NoTimeouts(d.timers) && !node.config.EventWait? && ScheduleActivity(d, node, role, round, via).Ok?
    ensures NoTimeouts(ScheduleActivity(d, node, role, round, via).value.0.timers)
  {
  }

  predicate TokenAfter(r: Result<Db>) {
    r.Ok? ==> Token(r.value)
  }

  lemma AdvanceToken(d: Db, target: NodeId, node: Node, role: Option<Role>, round: int)
    requires Idle(d) && DomainDriven(d.def) && FindNode(d.def.nodes, target) == Some(node)
    ensures TokenAfter(AdvanceTo(d, node, role, round))
  {
    DomainNode(d.def, target);
    ScheduleShape(d, node, role, round, Linear);
    ScheduleKeepsTimeouts(d, node, role, round, Linear);
  }

  lemma HandedBackToken(d: Db, node: NodeId, role: Option<Role>, from: NodeId, d1: Db, d': Db)
    requires Idle(d) && HandedBack(d, node, role, from, d1, d') && NoTimeouts(d1.timers)
    ensures Token(d')
  {
  }

  lemma HandBackToken(env: Env, d: Db, target: NodeId, role: Option<Role>, src: nat)
    requires Idle(d) && DomainDriven(d.def) && src < |d.activities|
    ensures TokenAfter(HandBack(env, d, target, role, src))
  {
    if CanHandBack(env, d, target) {
      HandBackGoesToken(env, d, target, role, src);
    } else {
      HandBackStops(env, d, target, role, src);
    }
  }

  lemma HandBackGoesToken(env: Env, d: Db, target: NodeId, role: Option<Role>, src: nat)
    requires Idle(d) && DomainDriven(d.def) && src < |d.activities| && CanHandBack(env, d, target)
    ensures TokenAfter(HandBack(env, d, target, role, src))
  {
    DomainNode(d.def, target);
    var d1, d' := HandBackGoes(env, d, target, role, src);
    ScheduleKeepsTimeouts(d, FindNode(d.def.nodes, target).value, role, MaxRound(d.activities) + 1, Linear);
    HandedBackToken(d, target, role, d.activities[src].node, d1, d');
  }

  lemma CompleteToken(env: Env, d: Db, result: WorkflowResult)
    requires Idle(d)
    ensures TokenAfter(CompleteInstance(env, d, result))
  {
    CompleteShape(env, d, result);
  }

  lemma DispatchToken(env: Env, d: Db, outcome: AdvanceOutcome, forEach: Option<FanOut>, src: nat, round: int,
                      fuel: nat)
    requires Idle(d) && DomainDriven(d.def) && src < |d.activities| && !outcome.AdvanceMulti?
    ensures TokenAfter(Dispatch(env, d, outcome, forEach, src, round, fuel))
  {
    match outcome
    case Advance(target, role) =>
      if FindNode(d.def.nodes, target).Some? {
        DomainNode(d.def, target);
        AdvanceToken(d, target, FindNode(d.def.nodes, target).value, role, round);
      }
    case Complete(result) => CompleteToken(env, d, result);
    case Rework(target, role) => HandBackToken(env, d, target, role, src);
    case Error =>
  }

  lemma MoveOnToken(env: Env, d: Db, a: nat, signal: SignalType, fuel: nat)
    requires Idle(d) && DomainDriven(d.def) && a < |d.activities|
    ensures TokenAfter(MoveOn(env, d, a, signal, fuel))
  {
    var (outcome, trace) := DecideAdvance(d.def, env.cel, d.Ctx(), d.activities[a].node, signal);
    DomainDecision(d.def, env.cel, d.Ctx(), d.activities[a].node, signal);
    var round := d.activities[a].round;
    MergesKeepRows(d, d.activities[a].node, trace.merges, round);
    DispatchToken(env, AppendMerges(d, d.activities[a].node, trace.merges, round), outcome, trace.forEach, a, round,
                  fuel);
  }

  // ------------------------------------------------------------------ calls

  lemma SettleIdle(env: Env, d: Db, a: nat, node: Node, cmd: SignalCommand)
    requires Token(d) && !d.status.IsTerminal() && StatusOk(d.status) && OnlyActive(d, a)
    ensures var r := SettleSignal(d, a, node, cmd);
            r.Ok? ==> Idle(r.value) && r.value.def == d.def && |r.value.activities| == |d.activities|
  {
    var r1 := ApplyContextWrites(d, node, d.activities[a].round, cmd.patch);
    if r1.Ok? {
      var d1 := r1.value;
      var _ := ReviewShape(d1, a, cmd);
      var d2 := Review(d1, a, cmd).value;
      assert NoneActive(d2);
      assert NoTimeouts(d2.timers);
    }
  }

  lemma SignalToken(env: Env, d: Db, cmd: SignalCommand, fuel: nat)
    requires Token(d) && DomainDriven(d.def) && StatusOk(d.status)
    ensures var r := Signal(env, d, cmd, fuel);
            r.Ok? ==> Token(r.value.0)
  {
    var r := Signal(env, d, cmd, fuel);
    if r.Ok? && !r.value.1 {
      var a := TargetActivity(d, cmd.activity).value;
      var node := NodeOf(d, d.activities[a].node).value;
      if !IsClaim(cmd.signal) {
        SettleIdle(env, d, a, node, cmd);
        MoveOnToken(env, SettleSignal(d, a, node, cmd).value, a, cmd.signal, fuel);
      }
    }
  }

  lemma ResubmittedToken(env: Env, d: Db, key: string, entry: Node, node: Node, d1: Db, d': Db)
    requires Token(d) && DomainDriven(d.def) && Calls.Resubmitted(env, d, key, entry, node, d1, d')
    ensures Token(d')
  {
    AdvanceToken(d1, node.id, node, entry.AssigneeRole(), MaxRound(d.activities) + 1);
  }

  lemma ResubmitToken(env: Env, d: Db, key: string, visible: bool)
    requires Token(d) && DomainDriven(d.def)
    ensures var r := Resubmit(env, d, key, visible);
            r.Ok? ==> Token(r.value.0)
  {
    var r := Resubmit(env, d, key, visible);
    if r.Ok? && !r.value.1 {
      var d1, entry, node := ResubmitShape(env, d, key, visible);
      ResubmittedToken(env, d, key, entry, node, d1, r.value.0);
    }
  }

  /** Same instance status, result and current activity, the same activities in the same statuses. */
  predicate SamePosition(d: Db, d': Db) {
    && d'.status == d.status && d'.current == d.current && d'.result == d.result
    && |d'.activities| == |d.activities|
    && forall i :: 0 <= i < |d.activities| ==>
         d'.activities[i].(role := d.activities[i].role) == d.activities[i]
  }

  /** The calls the engine makes on its own account. */
  predicate IsInternal(step: Step) {
    step.FireStep? || step.DeliverStep? || step.CallbackStep? || step.DeadLetterStep?
  }

  predicate AllApprovals(d: Db) {
    forall i :: 0 <= i < |d.activities| ==> d.activities[i].activityType.Approval?
  }

  lemma DomainRows(d: Db)
    requires DomainDriven(d.def) && RowsOk(d.def, d.activities)
    ensures AllApprovals(d)
  {
    forall i | 0 <= i < |d.activities| ensures d.activities[i].activityType.Approval? {
      DomainNode(d.def, d.activities[i].node);
    }
  }

  lemma EscalationStaysPut(d: Db, a: nat, node: Node)
    requires Token(d) && a < |d.activities|
    ensures SamePosition(d, FireEscalation(d, a, node).0) && Token(FireEscalation(d, a, node).0)
  {
  }

  lemma OnTimerStaysPut(env: Env, d: Db, kind: TimerKind, a: nat, node: Node, fuel: nat)
    requires Token(d) && a < |d.activities| && !kind.Timeout?
    ensures var r := OnTimer(env, d, kind, a, node, fuel);
            r.Ok? && SamePosition(d, r.value.0) && Token(r.value.0)
  {
    EscalationStaysPut(d, a, node);
  }

  lemma FireStaysPut(env: Env, d: Db, t: nat, fuel: nat)
    requires Token(d)
    ensures var r := FireTimer(env, d, t, fuel);
            r.Ok? ==> SamePosition(d, r.value.0) && Token(r.value.0)
  {
    var (d1, won) := MarkTimerFired(d, t);
    if won {
      var kind, a := d.timers[t].kind, d.timers[t].activity;
      assert Token(d1);
      if !d1.status.IsTerminal() && d1.IsActive(a) && NodeOf(d1, d1.activities[a].node).Ok? {
        OnTimerStaysPut(env, Append(d1, Fact.TimerFired(kind, a), None), kind, a,
                        NodeOf(d1, d1.activities[a].node).value, fuel);
      }
    }
  }

  lemma InternalStaysPut(env: Env, d: Db, step: Step, fuel: nat)
    requires Token(d) && AllApprovals(d) && IsInternal(step)
    ensures var d' := Commit(env, d, step, fuel);
            SamePosition(d, d') && Token(d')
  {
    if step.FireStep? {
      FireStaysPut(env, d, step.timer, fuel);
    }
  }

  lemma {:induction false} RunToken(env: Env, d: Db, steps: seq<Step>, fuel: nat)
    requires Good(env, d) && Token(d) && DomainDriven(d.def)
    ensures Token(RunAll(env, d, steps, fuel))
  {
    if steps != [] {
      var init, step := steps[..|steps| - 1], steps[|steps| - 1];
      var d1 := RunAll(env, d, init, fuel);
      RunToken(env, d, init, fuel);
      RunGood(env, d, init, fuel);
      if step.SignalStep? {
        SignalToken(env, d1, step.cmd, fuel);
      } else if step.ResubmitStep? {
        ResubmitToken(env, d1, step.key, step.visible);
      } else {
        DomainRows(d1);
        InternalStaysPut(env, d1, step, fuel);
      }
    }
  }

  lemma BeganToken(env: Env, cmd: StartCommand)
    requires StartInstance(env, cmd).Ok? && DomainDriven(cmd.def)
    ensures Token(Began(env, cmd))
  {
    var d := StartedDb(env, cmd);
    var entry := DecideStart(cmd.def.nodes).value;
    AdvanceToken(d, entry.id, FindNode(cmd.def.nodes, entry.id).value, entry.AssigneeRole(), 1);
  }

  /** Single token: in every reachable state of a domain-driven definition a live instance has exactly
      one active activity and its current activity is that one; a finished instance has none. */
  lemma SingleTokenInvariant(env: Env, cmd: StartCommand, steps: seq<Step>, fuel: nat)
    requires StartInstance(env, cmd).Ok? && DomainDriven(cmd.def)
    ensures Token(RunAll(env, Began(env, cmd), steps, fuel))
  {
    StartGood(env, cmd);
    BeganToken(env, cmd);
    RunToken(env, Began(env, cmd), steps, fuel);
  }

  /** Signal-only movement: in every reachable state of a domain-driven definition a fired timer, a
      delivered intent or a dead letter leaves the instance status, the current activity, the set of
      activities and every activity's status as they were. */
  lemma SignalOnlyMovement(env: Env, cmd: StartCommand, steps: seq<Step>, step: Step, fuel: nat)
    requires StartInstance(env, cmd).Ok? && DomainDriven(cmd.def) && IsInternal(step)
    ensures var d := RunAll(env, Began(env, cmd), steps, fuel);
            SamePosition(d, Commit(env, d, step, fuel))
  {
    StartGood(env, cmd);
    BeganToken(env, cmd);
    RunToken(env, Began(env, cmd), steps, fuel);
    RunGood(env, Began(env, cmd), steps, fuel);
    DomainRows(RunAll(env, Began(env, cmd), steps, fuel));
    InternalStaysPut(env, RunAll(env, Began(env, cmd), steps, fuel), step, fuel);
  }

  lemma TokenNeverLate(d: Db, step: Step)
    requires Token(d) && AllApprovals(d)
    ensures !Late(d, step)
  {
  }

  lemma NeverLate(env: Env, cmd: StartCommand, steps: seq<Step>, step: Step, fuel: nat)
    requires StartInstance(env, cmd).Ok? && DomainDriven(cmd.def)
    ensures !Late(RunAll(env, Began(env, cmd), steps, fuel), step)
  {
    SingleTokenInvariant(env, cmd, steps, fuel);
    StartGood(env, cmd);
    RunGood(env, Began(env, cmd), steps, fuel);
    DomainRows(RunAll(env, Began(env, cmd), steps, fuel));
    TokenNeverLate(RunAll(env, Began(env, cmd), steps, fuel), step);
  }

  lemma DomainHasNoJoin(def: Definition)
    requires DomainDriven(def)
    ensures !HasJoin(def)
  {
  }

  /** Every run of a domain-driven definition is without late calls and without joins, so its rows rebuild
      through any rework and resubmit, the whole instance row included. */
  lemma DomainDrivenRebuilds(env: Env, cmd: StartCommand, steps: seq<Step>, fuel: nat)
    requires StartInstance(env, cmd).Ok? && DomainDriven(cmd.def)
    ensures var d := RunAll(env, Began(env, cmd), steps, fuel);
            var records := FoldActivities(d.def, d.log);
            && FoldInstance(d.log) == ReplayedInstance(d.status, d.current, d.result)
            && Primary(records) == d.activities
            && Surplus(records) == Extras(d.def, d.log)
  {
    forall i | 0 <= i < |steps| ensures !Late(RunAll(env, Began(env, cmd), steps[..i], fuel), steps[i]) {
      NeverLate(env, cmd, steps[..i], steps[i], fuel);
    }
    DomainHasNoJoin(cmd.def);
    ReplayWithRework(env, cmd, steps, fuel);
  }
}
