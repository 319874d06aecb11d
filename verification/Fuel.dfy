/** What the fuel of the join recursion stands for: a call that ends does not depend on it, and a call never ends
    exactly when the joins it satisfies come round in a circle. */
module Fuel {
  import opened Core
  import opened Walk
  import opened Routing
  import opened Validation
  import opened Progress
  import opened Facts
  import opened Database
  import opened Engine
  import opened Trails
  import opened Circuits

  /** More fuel changes nothing about a result that is not a divergence. */
  predicate Stable<T(==)>(r: Result<T>, more: Result<T>) {
    r == Err(Diverges) || more == r
  }

  lemma JoinStable(env: Env, d: Db, join: Node, src: nat, round: int, exclude: Option<nat>, fuel: nat, extra: nat)
    requires src < |d.activities|
    ensures Stable(TrySatisfyJoin(env, d, join, src, round, exclude, fuel),
                   TrySatisfyJoin(env, d, join, src, round, exclude, fuel + extra))
    decreases fuel, 0
  {
    var expectation := Expectation(d, join.id, round);
    if expectation.Ok? && fuel > 0 {
      var (expected, branches) := expectation.value;
      var arrived := CountArrived(d.activities, branches, round);
      var d1 := SatisfyJoin(d, join, arrived, expected, round, exclude);
      PassStable(env, d1, join.id, src, round, fuel - 1, extra);
    }
  }

  lemma PassStable(env: Env, d: Db, join: NodeId, src: nat, round: int, fuel: nat, extra: nat)
    requires src < |d.activities|
    ensures Stable(PassJoin(env, d, join, src, round, fuel), PassJoin(env, d, join, src, round, fuel + extra))
    decreases fuel, 3
  {
    var (outcome, trace) := DecideAdvance(d.def, env.cel, d.Ctx(), join, SignalType.Approved);
    ApplyStable(env, d, outcome, trace, src, round, fuel, extra);
  }

  lemma ApplyStable(env: Env, d: Db, outcome: AdvanceOutcome, trace: ResolveTrace, src: nat, round: int, fuel: nat,
                    extra: nat)
    requires src < |d.activities|
    ensures Stable(ApplyOutcome(env, d, outcome, trace, src, round, fuel),
                   ApplyOutcome(env, d, outcome, trace, src, round, fuel + extra))
    decreases fuel, 2
  {
    MergesKeepRows(d, d.activities[src].node, trace.merges, round);
    DispatchStable(env, AppendMerges(d, d.activities[src].node, trace.merges, round), outcome, trace.forEach, src,
                   round, fuel, extra);
  }

  lemma DispatchStable(env: Env, d: Db, outcome: AdvanceOutcome, forEach: Option<FanOut>, src: nat, round: int,
                       fuel: nat, extra: nat)
    requires src < |d.activities|
    ensures Stable(Dispatch(env, d, outcome, forEach, src, round, fuel),
                   Dispatch(env, d, outcome, forEach, src, round, fuel + extra))
    decreases fuel, 1
  {
    match outcome
    case Advance(target, role) =>
      var node := NodeOf(d, target);
      if node.Ok? && node.value.config.ParallelJoin? {
        var d1 := Append(d, Fact.BranchReachedJoin(d.activities[src].node, node.value.id, round), None);
        JoinStable(env, d1, node.value, src, round, Some(src), fuel, extra);
      }
    case AdvanceMulti(targets) =>
      var d1 := MarkFanOut(d, targets, forEach, src, round);
      if targets == [] && forEach.Some? && NodeOf(d1, forEach.value.joinTarget).Ok? {
        JoinStable(env, d1, NodeOf(d1, forEach.value.joinTarget).value, src, round, None, fuel, extra);
      }
    case _ =>
  }

  lemma MoveOnStable(env: Env, d: Db, a: nat, signal: SignalType, fuel: nat, extra: nat)
    requires a < |d.activities|
    ensures Stable(MoveOn(env, d, a, signal, fuel), MoveOn(env, d, a, signal, fuel + extra))
  {
    var (outcome, trace) := DecideAdvance(d.def, env.cel, d.Ctx(), d.activities[a].node, signal);
    ApplyStable(env, d, outcome, trace, a, d.activities[a].round, fuel, extra);
  }

  lemma SignalStable(env: Env, d: Db, cmd: SignalCommand, fuel: nat, extra: nat)
    ensures Stable(Signal(env, d, cmd, fuel), Signal(env, d, cmd, fuel + extra))
  {
    var target := TargetActivity(d, cmd.activity);
    if target.Ok? {
      var a := target.value;
      var node := NodeOf(d, d.activities[a].node);
      if node.Ok? {
        var settled := SettleSignal(d, a, node.value, cmd);
        if settled.Ok? {
          SettleEnds(d, a, node.value, cmd);
          MoveOnStable(env, settled.value, a, cmd.signal, fuel, extra);
        }
      }
    }
  }

  lemma TimeoutStable(env: Env, d: Db, a: nat, fuel: nat, extra: nat)
    requires a < |d.activities|
    ensures Stable(FireTimeout(env, d, a, fuel), FireTimeout(env, d, a, fuel + extra))
  {
    var d1 := Append(CancelTimers(SkipForTimeout(d, a), a), ActivitySkipped(Some(a)), None);
    var (outcome, trace) := DecideTimeout(d1.def, env.cel, d1.Ctx(), d.activities[a].node);
    ApplyStable(env, d1, outcome, trace, a, d.activities[a].round, fuel, extra);
  }

  lemma FireStable(env: Env, d: Db, t: nat, fuel: nat, extra: nat)
    ensures Stable(FireTimer(env, d, t, fuel), FireTimer(env, d, t, fuel + extra))
  {
    var (d1, won) := MarkTimerFired(d, t);
    if won {
      var kind, a := d.timers[t].kind, d.timers[t].activity;
      if d1.IsActive(a) && NodeOf(d1, d1.activities[a].node).Ok? {
        var d2 := Append(d1, Fact.TimerFired(kind, a), None);
        TimeoutStable(env, d2, a, fuel, extra);
      }
    }
  }

  lemma DeliverStable(env: Env, d: Db, a: nat, fuel: nat, extra: nat)
    ensures Stable(OnNotificationDelivered(env, d, a, fuel), OnNotificationDelivered(env, d, a, fuel + extra))
  {
    if d.IsActive(a) {
      MoveOnStable(env, SettleDelivery(d, a), a, SignalType.Completed, fuel, extra);
    }
  }

  /** Fuel does not matter: a call that ends with some fuel, in success or in an error of its own, ends the same
      with any more. */
  lemma FuelIsIrrelevant(env: Env, d: Db, step: Step, fuel: nat, extra: nat)
    requires Run(env, d, step, fuel) != Err(Diverges)
    ensures Run(env, d, step, fuel + extra) == Run(env, d, step, fuel)
    ensures Commit(env, d, step, fuel + extra) == Commit(env, d, step, fuel)
  {
    match step
    case SignalStep(cmd) => SignalStable(env, d, cmd, fuel, extra);
    case ResubmitStep(_, _) =>
    case FireStep(t) => FireStable(env, d, t, fuel, extra);
    case DeliverStep(a) => DeliverStable(env, d, a, fuel, extra);
    case CallbackStep =>
    case DeadLetterStep(_, _) =>
  }

  // ------------------------------------------------------------------ trails as chains of joins

  /** Where each join leads under the definition, and which are satisfied in the rows. */
  function TrackOf(cel: Cel, d: Db, round: int): Track {
    Track(id => LeadPast(d.def, cel, d.Ctx(), id), (at: Place) => Satisfies(d, at.emptied, at.join, round))
  }

  lemma AtJoinPasses(cel: Cel, d: Db, at: Place, round: int, fuel: nat)
    ensures var w := TrackOf(cel, d, round);
            AtJoin(cel, d, at.join, at.emptied, round, fuel).Endless? <==>
            && w.ok(at)
            && (fuel > 0 ==>
                  && NextPlace(w, at).Some?
                  && AtJoin(cel, d, NextPlace(w, at).value.join, NextPlace(w, at).value.emptied, round,
                            fuel - 1).Endless?)
  {
  }

  /** The trail runs out of fuel exactly if that many joins and one more are satisfied. */
  lemma {:induction false} EndlessPasses(cel: Cel, d: Db, at: Place, round: int, fuel: nat)
    ensures AtJoin(cel, d, at.join, at.emptied, round, fuel).Endless? <==> PassesUpTo(TrackOf(cel, d, round), at, fuel)
    decreases fuel
  {
    var w := TrackOf(cel, d, round);
    AtJoinPasses(cel, d, at, round, fuel);
    if fuel == 0 {
      assert PlaceAfter(w, at, 0) == Some(at);
      assert PassedAfter(w, at, 0) <==> w.ok(at);
    } else {
      PassesStep(w, at, fuel);
      if NextPlace(w, at).Some? {
        EndlessPasses(cel, d, NextPlace(w, at).value, round, fuel - 1);
      }
    }
  }

  // ------------------------------------------------------------------ the joins of an accepted definition

  function JoinNodes(def: Definition): set<Node> {
    set n | n in def.nodes && n.config.ParallelJoin?
  }

  predicate KnownLead(def: Definition, lead: Lead) {
    lead.ToJoin? ==> lead.join in JoinNodes(def)
  }

  lemma LandingLead(def: Definition, cel: Cel, ctx: Context, id: NodeId)
    requires ValidDefinition(def, cel)
    ensures KnownLead(def, LeadOf(def, Landing(def, cel, ctx, id), LandingFanOut(def, id)))
  {
    if FindNode(def.nodes, id).Some? && FindNode(def.nodes, id).value.config.ForEach? {
      FoundIsValid(def, cel, id);
    }
  }

  /** In an accepted definition every lead is to a join of it. */
  lemma ResolvedLead(def: Definition, cel: Cel, ctx: Context, target: NodeId)
    requires ValidDefinition(def, cel)
    ensures var (outcome, trace) := Resolve(def, cel, ctx, target);
            KnownLead(def, LeadOf(def, outcome, trace.forEach))
  {
    var w := RouterOf(def, cel, ctx);
    ResolverExact(def, cel, ctx, target);
    if StopsWithin(w, target, MAX_RESOLVE_DEPTH) {
      var n: nat :| n <= MAX_RESOLVE_DEPTH && StopsAfter(w, target, n);
      LandingLead(def, cel, ctx, WalkTo(w, target, n).value);
    }
  }

  lemma DecidedLead(def: Definition, cel: Cel, ctx: Context, at: NodeId, signal: SignalType)
    requires ValidDefinition(def, cel)
    ensures var (outcome, trace) := DecideAdvance(def, cel, ctx, at, signal);
            KnownLead(def, LeadOf(def, outcome, trace.forEach))
  {
    var edge := FindTransition(def.transitions, at, signal);
    if edge.Some? {
      ResolvedLead(def, cel, ctx, edge.value.to);
    }
  }

  lemma AcceptedLeads(cel: Cel, d: Db, round: int)
    requires ValidDefinition(d.def, cel)
    ensures Within(TrackOf(cel, d, round), JoinNodes(d.def))
  {
    var w := TrackOf(cel, d, round);
    forall id | w.lead(id).ToJoin? ensures w.lead(id).join in JoinNodes(d.def) {
      DecidedLead(d.def, cel, d.Ctx(), id, SignalType.Approved);
    }
  }

  // ------------------------------------------------------------------ calls that never end

  /** The joins a move satisfies come round in a circle. */
  ghost predicate Circles(cel: Cel, d: Db, lead: Lead, round: int) {
    lead.ToJoin? && exists m: nat, n: nat :: ComesRound(TrackOf(cel, d, round), PlaceOf(lead, {}), m, n)
  }

  lemma CircleIsEndless(cel: Cel, d: Db, lead: Lead, round: int, fuel: nat)
    requires Circles(cel, d, lead, round)
    ensures Trail(cel, d, lead, {}, round, fuel).Endless?
  {
    var w, at := TrackOf(cel, d, round), PlaceOf(lead, {});
    var m: nat, n: nat :| ComesRound(w, at, m, n);
    forall k: nat | k <= fuel ensures PassedAfter(w, at, k) {
      RoundAndRound(w, at, m, n, k);
    }
    EndlessPasses(cel, d, at, round, fuel);
  }

  lemma EndlessIsCircle(cel: Cel, d: Db, lead: Lead, round: int, fuel: nat)
    requires Within(TrackOf(cel, d, round), JoinNodes(d.def)) && KnownLead(d.def, lead)
    requires fuel >= 2 * |JoinNodes(d.def)|
    requires Trail(cel, d, lead, {}, round, fuel).Endless?
    ensures Circles(cel, d, lead, round)
  {
    var w, at := TrackOf(cel, d, round), PlaceOf(lead, {});
    EndlessPasses(cel, d, at, round, fuel);
    var m, n := LongChainComesRound(w, JoinNodes(d.def), at, fuel);
    assert ComesRound(w, at, m, n);
  }

  function MoveLead(env: Env, d: Db, a: nat, signal: SignalType): Lead
    requires a < |d.activities|
  {
    var (outcome, trace) := DecideAdvance(d.def, env.cel, d.Ctx(), d.activities[a].node, signal);
    LeadOf(d.def, outcome, trace.forEach)
  }

  lemma MoveDiverges(env: Env, d: Db, a: nat, signal: SignalType, fuel: nat)
    requires a < |d.activities|
    ensures MoveOn(env, d, a, signal, fuel) == Err(Diverges) <==>
            Trail(env.cel, d, MoveLead(env, d, a, signal), {}, d.activities[a].round, fuel).Endless?
  {
    var (outcome, trace) := DecideAdvance(d.def, env.cel, d.Ctx(), d.activities[a].node, signal);
    TrailIsExact(env, d, outcome, trace, a, d.activities[a].round, fuel);
  }

  // ------------------------------------------------------------------ the move of a call

  /** What a call moves, if it comes to that: the rows once its activity is settled, where its decision leads, and the
      round. */
  datatype Move = Move(rows: Db, lead: Lead, round: int)

  function SettledMove(env: Env, d: Db, a: nat, signal: SignalType): Move
    requires a < |d.activities|
  {
    Move(d, MoveLead(env, d, a, signal), d.activities[a].round)
  }

  function HeedMove(env: Env, d: Db, a: nat, node: Node, cmd: SignalCommand): Option<Move>
    requires a < |d.activities|
  {
    if IsClaim(cmd.signal) then None
    else
      match SettleSignal(d, a, node, cmd)
      case Err(_) => None
      case Ok(d1) => if a < |d1.activities| then Some(SettledMove(env, d1, a, cmd.signal)) else None
  }

  function SignalMove(env: Env, d: Db, cmd: SignalCommand): Option<Move> {
    if Blank(cmd.key) || !cmd.visible || KeySeen(d, cmd.key) || d.status.IsTerminal() then None
    else
      match TargetActivity(d, cmd.activity)
      case Err(_) => None
      case Ok(a) =>
        var node := NodeOf(d, d.activities[a].node);
        if node.Err? || !SignalFits(node.value, cmd.signal, cmd.eventType) then None
        else HeedMove(env, d, a, node.value, cmd)
  }

  function DeadlineMove(env: Env, d: Db, a: nat): Move
    requires a < |d.activities|
  {
    var d1 := TimedOutDb(d, a);
    var (outcome, trace) := DecideTimeout(d1.def, env.cel, d1.Ctx(), d.activities[a].node);
    Move(d1, LeadOf(d1.def, outcome, trace.forEach), d.activities[a].round)
  }

  function TimerMove(env: Env, d: Db, t: nat): Option<Move> {
    var (d1, won) := MarkTimerFired(d, t);
    if !won || d1.status.IsTerminal() || !d1.IsActive(d.timers[t].activity) then None
    else
      var a := d.timers[t].activity;
      if NodeOf(d1, d1.activities[a].node).Err? || !d.timers[t].kind.Timeout? then None
      else Some(DeadlineMove(env, Append(d1, Fact.TimerFired(d.timers[t].kind, a), None), a))
  }

  function CallMove(env: Env, d: Db, step: Step): Option<Move> {
    match step
    case SignalStep(cmd) => SignalMove(env, d, cmd)
    case FireStep(t) => TimerMove(env, d, t)
    case DeliverStep(a) =>
      if d.status.IsTerminal() || !d.IsActive(a) || !d.activities[a].activityType.Notification? then None
      else Some(SettledMove(env, SettleDelivery(d, a), a, SignalType.Completed))
    case _ => None
  }

  predicate MoveIsEndless(cel: Cel, move: Option<Move>, fuel: nat) {
    match move
    case None => false
    case Some(m) => Trail(cel, m.rows, m.lead, {}, m.round, fuel).Endless?
  }

  lemma SettleEnds(d: Db, a: nat, node: Node, cmd: SignalCommand)
    requires a < |d.activities|
    ensures var r := SettleSignal(d, a, node, cmd);
            r != Err(Diverges) && (r.Ok? ==> |r.value.activities| == |d.activities| && r.value.def == d.def)
  {
  }

  lemma HeedDiverges(env: Env, d: Db, a: nat, node: Node, cmd: SignalCommand, fuel: nat)
    requires a < |d.activities|
    ensures Heed(env, d, a, node, cmd, fuel) == Err(Diverges)
            <==> MoveIsEndless(env.cel, HeedMove(env, d, a, node, cmd), fuel)
  {
    SettleEnds(d, a, node, cmd);
    if !IsClaim(cmd.signal) && SettleSignal(d, a, node, cmd).Ok? {
      MoveDiverges(env, SettleSignal(d, a, node, cmd).value, a, cmd.signal, fuel);
    }
  }

  lemma TargetEnds(d: Db, activity: Option<nat>)
    ensures TargetActivity(d, activity) != Err(Diverges)
  {
  }

  lemma SignalDiverges(env: Env, d: Db, cmd: SignalCommand, fuel: nat)
    ensures Signal(env, d, cmd, fuel) == Err(Diverges) <==> MoveIsEndless(env.cel, SignalMove(env, d, cmd), fuel)
  {
    TargetEnds(d, cmd.activity);
    if TargetActivity(d, cmd.activity).Ok? {
      var a := TargetActivity(d, cmd.activity).value;
      if NodeOf(d, d.activities[a].node).Ok? {
        HeedDiverges(env, d, a, NodeOf(d, d.activities[a].node).value, cmd, fuel);
      }
    }
  }

  lemma DeadlineDiverges(env: Env, d: Db, a: nat, fuel: nat)
    requires a < |d.activities|
    ensures FireTimeout(env, d, a, fuel) == Err(Diverges)
            <==> MoveIsEndless(env.cel, Some(DeadlineMove(env, d, a)), fuel)
  {
    var d1 := TimedOutDb(d, a);
    var (outcome, trace) := DecideTimeout(d1.def, env.cel, d1.Ctx(), d.activities[a].node);
    TrailIsExact(env, d1, outcome, trace, a, d.activities[a].round, fuel);
  }

  lemma FireDiverges(env: Env, d: Db, t: nat, fuel: nat)
    ensures FireTimer(env, d, t, fuel) == Err(Diverges) <==> MoveIsEndless(env.cel, TimerMove(env, d, t), fuel)
  {
    var (d1, won) := MarkTimerFired(d, t);
    if won && d1.IsActive(d.timers[t].activity) && NodeOf(d1, d1.activities[d.timers[t].activity].node).Ok? {
      var kind, a := d.timers[t].kind, d.timers[t].activity;
      DeadlineDiverges(env, Append(d1, Fact.TimerFired(kind, a), None), a, fuel);
    }
  }

  lemma DeliverDiverges(env: Env, d: Db, a: nat, fuel: nat)
    ensures OnNotificationDelivered(env, d, a, fuel) == Err(Diverges)
            <==> MoveIsEndless(env.cel, CallMove(env, d, DeliverStep(a)), fuel)
  {
    if d.IsActive(a) {
      MoveDiverges(env, SettleDelivery(d, a), a, SignalType.Completed, fuel);
    }
  }

  lemma AdvanceEnds(d: Db, node: Node, role: Option<Role>, round: int)
    ensures AdvanceTo(d, node, role, round) != Err(Diverges)
  {
  }

  lemma ResubmitEnds(env: Env, d: Db, key: string, visible: bool)
    ensures Resubmit(env, d, key, visible) != Err(Diverges)
  {
    var round := MaxRound(d.activities) + 1;
    var d1 := Append(ReactivateWorkflow(d).0, Reactivated(round), Some(key));
    if DecideStart(d.def.nodes).Some? && NodeOf(d1, DecideStart(d.def.nodes).value.id).Ok? {
      var entry := DecideStart(d.def.nodes).value;
      AdvanceEnds(d1, NodeOf(d1, entry.id).value, entry.AssigneeRole(), round);
    }
  }

  /** A call runs out of fuel exactly if its move does. */
  lemma RunDiverges(env: Env, d: Db, step: Step, fuel: nat)
    ensures Run(env, d, step, fuel) == Err(Diverges) <==> MoveIsEndless(env.cel, CallMove(env, d, step), fuel)
  {
    match step
    case SignalStep(cmd) => SignalDiverges(env, d, cmd, fuel);
    case ResubmitStep(key, visible) => ResubmitEnds(env, d, key, visible);
    case FireStep(t) => FireDiverges(env, d, t, fuel);
    case DeliverStep(a) => DeliverDiverges(env, d, a, fuel);
    case CallbackStep =>
    case DeadLetterStep(_, _) =>
  }

  predicate KnownMove(d: Db, move: Option<Move>) {
    match move
    case None => true
    case Some(m) => m.rows.def == d.def && KnownLead(d.def, m.lead)
  }

  lemma HeedIsKnown(env: Env, d: Db, a: nat, node: Node, cmd: SignalCommand)
    requires a < |d.activities| && ValidDefinition(d.def, env.cel)
    ensures KnownMove(d, HeedMove(env, d, a, node, cmd))
  {
    SettleEnds(d, a, node, cmd);
    if SettleSignal(d, a, node, cmd).Ok? {
      var d1 := SettleSignal(d, a, node, cmd).value;
      DecidedLead(d1.def, env.cel, d1.Ctx(), d1.activities[a].node, cmd.signal);
    }
  }

  lemma DeadlineIsKnown(env: Env, d: Db, a: nat)
    requires a < |d.activities| && ValidDefinition(d.def, env.cel)
    ensures KnownMove(d, Some(DeadlineMove(env, d, a)))
  {
    var d1 := TimedOutDb(d, a);
    var found := FindNode(d.def.nodes, d.activities[a].node);
    if found.Some? && found.value.TimeoutTarget().Some? {
      ResolvedLead(d.def, env.cel, d1.Ctx(), found.value.TimeoutTarget().value);
    }
  }

  /** In an accepted definition a call moves towards joins of it. */
  lemma CallIsKnown(env: Env, d: Db, step: Step)
    requires ValidDefinition(d.def, env.cel)
    ensures KnownMove(d, CallMove(env, d, step))
  {
    match step
    case SignalStep(cmd) =>
      var target := TargetActivity(d, cmd.activity);
      if target.Ok? && NodeOf(d, d.activities[target.value].node).Ok? {
        HeedIsKnown(env, d, target.value, NodeOf(d, d.activities[target.value].node).value, cmd);
      }
    case FireStep(t) =>
      var (d1, won) := MarkTimerFired(d, t);
      if won && d1.IsActive(d.timers[t].activity) {
        DeadlineIsKnown(env, Append(d1, Fact.TimerFired(d.timers[t].kind, d.timers[t].activity), None),
                        d.timers[t].activity);
      }
    case DeliverStep(a) =>
      if d.IsActive(a) {
        var d1 := SettleDelivery(d, a);
        DecidedLead(d1.def, env.cel, d1.Ctx(), d1.activities[a].node, SignalType.Completed);
      }
    case _ =>
  }

  // ------------------------------------------------------------------ which calls never end

  /** The joins the call satisfies come round in a circle. */
  ghost predicate RunsInCircles(env: Env, d: Db, step: Step) {
    match CallMove(env, d, step)
    case None => false
    case Some(m) => Circles(env.cel, m.rows, m.lead, m.round)
  }

  lemma EndlessExactly(env: Env, d: Db, step: Step, fuel: nat)
    requires ValidDefinition(d.def, env.cel)
    ensures RunsInCircles(env, d, step) ==> MoveIsEndless(env.cel, CallMove(env, d, step), fuel)
    ensures fuel >= 2 * |JoinNodes(d.def)| && MoveIsEndless(env.cel, CallMove(env, d, step), fuel) ==>
              RunsInCircles(env, d, step)
  {
    CallIsKnown(env, d, step);
    if CallMove(env, d, step).Some? {
      var m := CallMove(env, d, step).value;
      AcceptedLeads(env.cel, m.rows, m.round);
      if RunsInCircles(env, d, step) {
        CircleIsEndless(env.cel, m.rows, m.lead, m.round, fuel);
      } else if fuel >= 2 * |JoinNodes(d.def)| && MoveIsEndless(env.cel, CallMove(env, d, step), fuel) {
        EndlessIsCircle(env.cel, m.rows, m.lead, m.round, fuel);
      }
    }
  }

  /** Exactly when a call never ends: over an accepted definition a signal, a deadline or a delivery runs out of every
      fuel if and only if the joins it satisfies, read off the rows once its activity is settled, come round to one
      passed before; and a fuel of twice the number of joins is enough to tell. */
  lemma NeverEndsExactly(env: Env, d: Db, step: Step, fuel: nat)
    requires ValidDefinition(d.def, env.cel) && fuel >= 2 * |JoinNodes(d.def)|
    ensures RunsInCircles(env, d, step) <==> forall f: nat :: Run(env, d, step, f) == Err(Diverges)
    ensures RunsInCircles(env, d, step) <==> Run(env, d, step, fuel) == Err(Diverges)
  {
    EndlessExactly(env, d, step, fuel);
    RunDiverges(env, d, step, fuel);
    if RunsInCircles(env, d, step) {
      forall f: nat ensures Run(env, d, step, f) == Err(Diverges) {
        EndlessExactly(env, d, step, f);
        RunDiverges(env, d, step, f);
      }
    }
  }

  // ------------------------------------------------------------------ definitions whose calls all end

  /** Leads past joins, whatever is satisfied. */
  function StaticTrack(def: Definition, cel: Cel, ctx: Context): Track {
    Track(id => LeadPast(def, cel, ctx, id), (at: Place) => true)
  }

  /** No chain of joins, each advancing straight to the next or to a ForEach of no items in front of it, comes
      back to a join of its own. */
  ghost predicate JoinsAcyclic(def: Definition, cel: Cel) {
    forall ctx, at, n: nat :: n > 0 && PlaceAfter(StaticTrack(def, cel, ctx), at, n).Some? ==>
      PlaceAfter(StaticTrack(def, cel, ctx), at, n).value.join != at.join
  }

  lemma {:induction false} SameChain(cel: Cel, d: Db, round: int, at: Place, n: nat)
    ensures PlaceAfter(TrackOf(cel, d, round), at, n) == PlaceAfter(StaticTrack(d.def, cel, d.Ctx()), at, n)
    decreases n
  {
    var w := TrackOf(cel, d, round);
    assert NextPlace(w, at) == NextPlace(StaticTrack(d.def, cel, d.Ctx()), at);
    if n > 0 && NextPlace(w, at).Some? {
      SameChain(cel, d, round, NextPlace(w, at).value, n - 1);
    }
  }

  lemma AcyclicTrailEnds(cel: Cel, d: Db, lead: Lead, round: int, fuel: nat)
    requires JoinsAcyclic(d.def, cel) && Within(TrackOf(cel, d, round), JoinNodes(d.def)) && KnownLead(d.def, lead)
    requires fuel >= |JoinNodes(d.def)|
    ensures !Trail(cel, d, lead, {}, round, fuel).Endless?
  {
    var w := TrackOf(cel, d, round);
    if lead.ToJoin? && PassesUpTo(w, PlaceOf(lead, {}), fuel) {
      forall p, n: nat | n > 0 && PlaceAfter(w, p, n).Some? ensures PlaceAfter(w, p, n).value.join != p.join {
        SameChain(cel, d, round, p, n);
      }
      AcyclicChainEnds(w, JoinNodes(d.def), PlaceOf(lead, {}));
    }
    if lead.ToJoin? {
      EndlessPasses(cel, d, PlaceOf(lead, {}), round, fuel);
    }
  }

  /** Where no chain of joins comes back to where it began every call ends: a fuel of the number of joins is
      enough, and by `FuelIsIrrelevant` any more gives the same result. */
  lemma CallsEnd(env: Env, d: Db, step: Step, fuel: nat)
    requires ValidDefinition(d.def, env.cel) && JoinsAcyclic(d.def, env.cel) && fuel >= |JoinNodes(d.def)|
    ensures Run(env, d, step, fuel) != Err(Diverges)
  {
    RunDiverges(env, d, step, fuel);
    CallIsKnown(env, d, step);
    if CallMove(env, d, step).Some? {
      var m := CallMove(env, d, step).value;
      AcceptedLeads(env.cel, m.rows, m.round);
      AcyclicTrailEnds(env.cel, m.rows, m.lead, m.round, fuel);
    }
  }
}
