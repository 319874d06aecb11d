/** Runs of an accepted definition whose rework makes the log and the rows part: a hand-back that is completed, and
    a delivery that comes while the instance waits for rework. And a start that duplicates a waiting instance. */
module ReworkWitnesses {
  import opened Core
  import opened Routing
  import opened Validation
  import opened Facts
  import opened Replay
  import opened Database
  import opened Engine
  import opened Invariants
  import opened Preservation
  import opened Calls
  import opened Agreement
  import opened Runs
  import opened Trails
  import opened LateSteps
  import opened Drift
  import opened Samples
  import opened Registry

  const NOTIFIES := NodeConfig.Notification(Some("template"), Some("recipient"))

  /** Start; an approval; a split into an approval, which can be returned to the first one, and a notification;
      their join, which waits for either; another approval; the end. */
  function ReworkKinds(ids: seq<NodeId>): seq<NodeConfig>
    requires |ids| == 8
  {
    [NodeConfig.Start, Approves(), ParallelSplit([ids[3], ids[4]]), Approves(), NOTIFIES,
     NodeConfig.ParallelJoin(WaitAny),
     Approves(), NodeConfig.End(None)]
  }

  const REWORK_ARCS: seq<Arc> :=
    [Arc(1, 2, APPROVED), Arc(3, 5, APPROVED), Arc(4, 5, SignalType.Completed), Arc(3, 1, SignalType.Returned),
     Arc(5, 6, APPROVED), Arc(6, 7, APPROVED)]

  predicate ReworkIdsOk(ids: seq<NodeId>) {
    |ids| == 8 && forall i, j :: 0 <= i < j < 8 ==> ids[i] != ids[j]
  }

  function Reworked(ids: seq<NodeId>): Definition
    requires ReworkIdsOk(ids)
  {
    Sample(ids, ReworkKinds(ids), REWORK_ARCS)
  }

  function ReworkNode(ids: seq<NodeId>, i: nat): Node
    requires ReworkIdsOk(ids) && i < 8
  {
    NodeAt(ids, ReworkKinds(ids), i)
  }

  lemma ReworkFound(ids: seq<NodeId>, i: nat)
    requires ReworkIdsOk(ids) && i < 8
    ensures FindNode(Reworked(ids).nodes, ids[i]) == Some(ReworkNode(ids, i))
  {
    Found(ids, ReworkKinds(ids), REWORK_ARCS, i);
  }

  lemma ReworkEdge(ids: seq<NodeId>, k: nat)
    requires ReworkIdsOk(ids) && k < 6
    ensures var ts, arc := Reworked(ids).transitions, REWORK_ARCS[k];
            && FindTransition(ts, ids[arc.from], arc.on) == Some(Transition(ids[arc.from], ids[arc.to], arc.on))
            && HasEdge(ts, ids[arc.from], arc.on)
  {
    ArcFollowed(ids, ReworkKinds(ids), REWORK_ARCS, k);
  }

  lemma ReworkIncoming(ids: seq<NodeId>)
    requires ReworkIdsOk(ids)
    ensures Sources(Incoming(Reworked(ids).transitions, ids[5])) == [ids[3], ids[4]]
  {
    SourcesAt(ids, ReworkKinds(ids), REWORK_ARCS, 5, [1, 2]);
  }

  lemma ReworkHome(ids: seq<NodeId>, i: nat)
    requires ReworkIdsOk(ids) && (i == 3 || i == 4)
    ensures var signal := if i == 3 then APPROVED else SignalType.Completed;
            FindTransition(Reworked(ids).transitions, ids[i], signal) == Some(Transition(ids[i], ids[5], signal))
  {
    if i == 3 {
      ReworkEdge(ids, 1);
    } else {
      ReworkEdge(ids, 2);
    }
  }

  lemma ReworkBranch(ids: seq<NodeId>, i: nat)
    requires ReworkIdsOk(ids) && (i == 3 || i == 4)
    ensures SplitBranchValid(Reworked(ids), ids[i]) && BranchJoin(Reworked(ids), ids[i]) == Some(ids[5])
  {
    ReworkFound(ids, i);
    ReworkFound(ids, 5);
    ReworkHome(ids, i);
    BranchValid(Reworked(ids), ReworkNode(ids, i),
                Transition(ids[i], ids[5], if i == 3 then APPROVED else SignalType.Completed), ReworkNode(ids, 5));
  }

  lemma NotifierValid(def: Definition, cel: Cel, node: Node)
    requires node.config == NOTIFIES && node.contextWrites == []
    requires HasEdge(def.transitions, node.id, SignalType.Completed)
    ensures NodeValid(def, cel, node)
  {
  }

  lemma ReworkNodeValid(ids: seq<NodeId>, cel: Cel, i: nat)
    requires ReworkIdsOk(ids) && i < 8
    ensures NodeValid(Reworked(ids), cel, ReworkNode(ids, i))
  {
    var def := Reworked(ids);
    if i == 1 || i == 3 || i == 6 {
      ReworkEdge(ids, if i == 1 then 0 else if i == 3 then 1 else 5);
      ApprovalValid(def, cel, ReworkNode(ids, i));
    } else if i == 2 {
      ReworkBranch(ids, 3);
      ReworkBranch(ids, 4);
      TwoBranchesValid(def, ids[3], ids[4]);
    } else if i == 4 {
      ReworkEdge(ids, 2);
      NotifierValid(def, cel, ReworkNode(ids, 4));
    } else if i == 5 {
      ReworkJoinValid(ids);
    }
  }

  lemma ReworkJoinValid(ids: seq<NodeId>)
    requires ReworkIdsOk(ids)
    ensures JoinValid(Reworked(ids), ReworkNode(ids, 5))
  {
    ReworkEdge(ids, 4);
    ReworkIncoming(ids);
  }

  lemma ReworkAccepted(ids: seq<NodeId>, cel: Cel)
    requires ReworkIdsOk(ids)
    ensures ValidDefinition(Reworked(ids), cel)
  {
    forall i | 0 <= i < 8
      ensures NodeValid(Sample(ids, ReworkKinds(ids), REWORK_ARCS), cel, NodeAt(ids, ReworkKinds(ids), i))
    {
      ReworkNodeValid(ids, cel, i);
    }
    Accepted(ids, ReworkKinds(ids), REWORK_ARCS, cel);
  }

  // ------------------------------------------------------------------ the run

  datatype Cast = Cast(a: Node, b: Node, n: Node, j: Node, x: Node)

  predicate Approver(def: Definition, node: Node) {
    FindNode(def.nodes, node.id) == Some(node) && node.config == Approves() && node.contextWrites == []
  }

  predicate Notifier(def: Definition, node: Node) {
    FindNode(def.nodes, node.id) == Some(node) && node.config == NOTIFIES && node.contextWrites == []
  }

  predicate Decides(def: Definition, cel: Cel, node: Node, signal: SignalType, outcome: AdvanceOutcome) {
    DecideAdvance(def, cel, map[], node.id, signal) == (outcome, EMPTY_TRACE)
  }

  predicate Splits(def: Definition, cel: Cel, c: Cast) {
    && Approver(def, c.a) && Approver(def, c.b) && Notifier(def, c.n)
    && Decides(def, cel, c.a, APPROVED, AdvanceMulti([TargetOf(c.b), TargetOf(c.n)]))
  }

  predicate HandsBackTo(def: Definition, cel: Cel, c: Cast) {
    Approver(def, c.a) && Approver(def, c.b) && Decides(def, cel, c.b, SignalType.Returned, Rework(c.a.id, ROLE))
  }

  predicate Joins(def: Definition, cel: Cel, c: Cast) {
    && FindNode(def.nodes, c.j.id) == Some(c.j) && c.j.config == NodeConfig.ParallelJoin(WaitAny)
    && Sources(Incoming(def.transitions, c.j.id)) == [c.b.id, c.n.id]
    && Approver(def, c.x)
    && Decides(def, cel, c.n, SignalType.Completed, AdvanceOutcome.Advance(c.j.id, None))
    && Decides(def, cel, c.j, APPROVED, AdvanceOutcome.Advance(c.x.id, ROLE))
  }

  function ReworkCast(ids: seq<NodeId>): Cast
    requires ReworkIdsOk(ids)
  {
    Cast(ReworkNode(ids, 1), ReworkNode(ids, 3), ReworkNode(ids, 4), ReworkNode(ids, 5), ReworkNode(ids, 6))
  }

  lemma ReworkSplits(ids: seq<NodeId>, cel: Cel)
    requires ReworkIdsOk(ids)
    ensures Splits(Reworked(ids), cel, ReworkCast(ids))
  {
    ReworkFound(ids, 1);
    ReworkFound(ids, 2);
    ReworkFound(ids, 3);
    ReworkFound(ids, 4);
    ReworkEdge(ids, 0);
    EntersSplit(Reworked(ids), cel, ids[1], ReworkNode(ids, 2), ReworkNode(ids, 3), ReworkNode(ids, 4));
  }

  lemma EntersSplit(def: Definition, cel: Cel, from: NodeId, split: Node, x: Node, y: Node)
    requires FindTransition(def.transitions, from, APPROVED) == Some(Transition(from, split.id, APPROVED))
    requires FindNode(def.nodes, split.id) == Some(split) && split.config == ParallelSplit([x.id, y.id])
    requires FindNode(def.nodes, x.id) == Some(x) && BranchType(x.config).Some?
    requires FindNode(def.nodes, y.id) == Some(y) && BranchType(y.config).Some?
    ensures DecideAdvance(def, cel, map[], from, APPROVED) == (AdvanceMulti([TargetOf(x), TargetOf(y)]), EMPTY_TRACE)
  {
    LandsAt(def, cel, map[], Transition(from, split.id, APPROVED), split);
    SplitsInTwo(def, cel, map[], split, x, y);
  }

  lemma ReworkHandsBack(ids: seq<NodeId>, cel: Cel)
    requires ReworkIdsOk(ids)
    ensures HandsBackTo(Reworked(ids), cel, ReworkCast(ids))
  {
    ReworkFound(ids, 1);
    ReworkFound(ids, 3);
    ReworkReturns(ids, cel);
  }

  lemma ReworkReturns(ids: seq<NodeId>, cel: Cel)
    requires ReworkIdsOk(ids)
    ensures Decides(Reworked(ids), cel, ReworkNode(ids, 3), SignalType.Returned, Rework(ids[1], ROLE))
  {
    ReworkFound(ids, 1);
    ReworkReturnEdge(ids);
    ReturnsToApproval(Reworked(ids), cel, Transition(ids[3], ids[1], SignalType.Returned), ReworkNode(ids, 1));
  }

  lemma ReworkReturnEdge(ids: seq<NodeId>)
    requires ReworkIdsOk(ids)
    ensures FindTransition(Reworked(ids).transitions, ids[3], SignalType.Returned)
         == Some(Transition(ids[3], ids[1], SignalType.Returned))
  {
    ReworkEdge(ids, 3);
  }

  lemma ReturnsToApproval(def: Definition, cel: Cel, edge: Transition, node: Node)
    requires FindTransition(def.transitions, edge.from, edge.onSignal) == Some(edge) && edge.onSignal.Returned?
    requires FindNode(def.nodes, edge.to) == Some(node) && node.config == Approves()
    ensures DecideAdvance(def, cel, map[], edge.from, edge.onSignal) == (Rework(edge.to, ROLE), EMPTY_TRACE)
  {
    LandsInRework(def, cel, map[], edge, node);
  }

  lemma ReworkArrives(ids: seq<NodeId>, cel: Cel)
    requires ReworkIdsOk(ids)
    ensures Decides(Reworked(ids), cel, ReworkNode(ids, 4), SignalType.Completed, AdvanceOutcome.Advance(ids[5], None))
  {
    ReworkHome(ids, 4);
    ReworkFound(ids, 5);
    LandsAt(Reworked(ids), cel, map[], Transition(ids[4], ids[5], SignalType.Completed), ReworkNode(ids, 5));
  }

  lemma ReworkPasses(ids: seq<NodeId>, cel: Cel)
    requires ReworkIdsOk(ids)
    ensures Decides(Reworked(ids), cel, ReworkNode(ids, 5), APPROVED, AdvanceOutcome.Advance(ids[6], ROLE))
  {
    ReworkEdge(ids, 4);
    ReworkFound(ids, 6);
    LandsAt(Reworked(ids), cel, map[], Transition(ids[5], ids[6], APPROVED), ReworkNode(ids, 6));
  }

  lemma ReworkJoins(ids: seq<NodeId>, cel: Cel)
    requires ReworkIdsOk(ids)
    ensures Joins(Reworked(ids), cel, ReworkCast(ids))
  {
    ReworkFound(ids, 5);
    ReworkFound(ids, 6);
    ReworkIncoming(ids);
    ReworkArrives(ids, cel);
    ReworkPasses(ids, cel);
  }

  function At(node: Node, round: int, phase: Phase): Mark {
    Mark(node.id, round, phase)
  }

  /** After the start; the split; the return; the completed rework. */
  function Act(c: Cast, n: nat): Scene {
    match n
    case 0 => Scene(WorkflowStatus.Active, [At(c.a, 1, Live)], [], [])
    case 1 => Scene(WorkflowStatus.Active, [At(c.a, 1, Done), At(c.b, 1, Live), At(c.n, 1, Live)], [], [])
    case 2 => Scene(WorkflowStatus.ReturnedWaiting,
                    [At(c.a, 1, Done), At(c.b, 1, Back), At(c.n, 1, Live), At(c.a, 2, Live)], [], [3])
    case _ => Scene(WorkflowStatus.Active,
                    [At(c.a, 1, Done), At(c.b, 1, Back), At(c.n, 1, Live), At(c.a, 2, Done), At(c.b, 2, Live),
                     At(c.n, 2, Live)], [], [3])
  }

  lemma SplitAct(env: Env, def: Definition, c: Cast, d: Db, n: nat, fuel: nat) returns (cmd: SignalCommand)
    requires Splits(def, env.cel, c) && (n == 0 || n == 2) && Looks(d, def, Act(c, n))
    ensures LooksAfter(Run(env, d, SignalStep(cmd), fuel), def, Act(c, n + 1))
  {
    var a := if n == 0 then 0 else 3;
    var d1: Db;
    d1, cmd := Reviews(env, d, def, Act(c, n), a, APPROVED, c.a);
    var s := ReviewedScene(Act(c, n), a, APPROVED);
    SplitMarks(c, n);
    MovesInTwo(env, d1, def, s, a, APPROVED, c.b, c.n, fuel);
  }

  lemma SplitMarks(c: Cast, n: nat)
    requires n == 0 || n == 2
    ensures var a := if n == 0 then 0 else 3;
            var s := ReviewedScene(Act(c, n), a, APPROVED);
            && a < |s.marks| && s.marks[a].node == c.a.id
            && s.(marks := s.marks + [At(c.b, s.marks[a].round, Live), At(c.n, s.marks[a].round, Live)])
               == Act(c, n + 1)
  {
  }

  lemma ReturnAct(env: Env, def: Definition, c: Cast, d: Db, fuel: nat) returns (cmd: SignalCommand)
    requires HandsBackTo(def, env.cel, c) && RoundLimit(env, def) >= 2 && Looks(d, def, Act(c, 1))
    ensures LooksAfter(Run(env, d, SignalStep(cmd), fuel), def, Act(c, 2))
  {
    var d1: Db;
    d1, cmd := Reviews(env, d, def, Act(c, 1), 1, SignalType.Returned, c.b);
    ReturnMarks(c);
    MovesBack(env, d1, def, ReviewedScene(Act(c, 1), 1, SignalType.Returned), 1, c.a, fuel);
  }

  lemma ReturnMarks(c: Cast)
    ensures var s := ReviewedScene(Act(c, 1), 1, SignalType.Returned);
            && |s.marks| == 3 && s.marks[1].node == c.b.id && s.status.Active?
            && (forall i :: 0 <= i < |s.marks| ==> s.marks[i].round == 1)
            && Scene(WorkflowStatus.ReturnedWaiting, s.marks + [At(c.a, 2, Live)], s.fired, s.backs + [|s.marks|])
               == Act(c, 2)
  {
  }

  predicate Plays(env: Env, def: Definition, c: Cast) {
    && ValidDefinition(def, env.cel) && DecideStart(def.nodes) == Some(c.a) && RoundLimit(env, def) >= 2
    && Splits(def, env.cel, c) && HandsBackTo(def, env.cel, c)
  }

  lemma ActReached(env: Env, def: Definition, c: Cast, n: nat, fuel: nat) returns (steps: seq<Step>)
    requires Plays(env, def, c) && n <= 3
    ensures Reached(env, Bare(def), steps, fuel, Act(c, n))
  {
    if n == 0 {
      steps := [];
      Begins(env, def, c.a, fuel);
    } else {
      var before := ActReached(env, def, c, n - 1, fuel);
      var d := RunAll(env, Began(env, Bare(def)), before, fuel);
      var cmd: SignalCommand;
      if n == 2 {
        cmd := ReturnAct(env, def, c, d, fuel);
      } else {
        cmd := SplitAct(env, def, c, d, n - 1, fuel);
      }
      ReachedMore(env, Bare(def), before, fuel, Act(c, n - 1), SignalStep(cmd), Act(c, n));
      steps := before + [SignalStep(cmd)];
    }
  }

  lemma ReworkStarts(ids: seq<NodeId>)
    requires ReworkIdsOk(ids)
    ensures DecideStart(Reworked(ids).nodes) == Some(ReworkCast(ids).a)
  {
    FirstApproval(Reworked(ids).nodes, 1);
  }

  lemma ReworkPlays(env: Env, ids: seq<NodeId>)
    requires ReworkIdsOk(ids) && env.cfg.maxRound >= 2
    ensures Plays(env, Reworked(ids), ReworkCast(ids))
  {
    ReworkAccepted(ids, env.cel);
    ReworkStarts(ids);
    ReworkSplits(ids, env.cel);
    ReworkHandsBack(ids, env.cel);
  }

  // ------------------------------------------------------------------ a completed rework drifts

  lemma {:induction false} HandBackLogged(log: seq<Event>, id: nat) returns (p: nat)
    requires id in ReworkIds(log)
    ensures HandsBackAt(log, p) && log[p].fact.activity == id
  {
    var init, fact := log[..|log| - 1], log[|log| - 1].fact;
    if fact.ReturnedToRework? && fact.activity == id {
      p := |log| - 1;
    } else {
      p := HandBackLogged(init, id);
    }
  }

  lemma CompletedAct(d: Db, def: Definition, c: Cast) returns (p: nat)
    requires Looks(d, def, Act(c, 3))
    ensures CompletedRework(d, p)
  {
    assert Shows(d.activities[3], At(c.a, 2, Done));
    assert ReworkIds(d.log)[0] == 3;
    p := HandBackLogged(d.log, 3);
  }

  predicate Drifts(env: Env, cmd: StartCommand, steps: seq<Step>, fuel: nat) {
    StartInstance(env, cmd).Ok? && !Consistent(RunAll(env, Began(env, cmd), steps, fuel))
  }

  /** Completing a rework is enough for the drift check to report an instance: an accepted definition has a start
      and a run of calls after which it does. */
  lemma ReworkDrifts(env: Env, ids: seq<NodeId>, fuel: nat) returns (steps: seq<Step>)
    requires ReworkIdsOk(ids) && env.cfg.maxRound >= 2
    ensures ValidDefinition(Reworked(ids), env.cel) && Drifts(env, Bare(Reworked(ids)), steps, fuel)
  {
    ReworkPlays(env, ids);
    steps := ActReached(env, Reworked(ids), ReworkCast(ids), 3, fuel);
    ReachedDrifts(env, Bare(Reworked(ids)), steps, fuel, ReworkCast(ids));
  }

  lemma ReachedDrifts(env: Env, cmd: StartCommand, steps: seq<Step>, fuel: nat, c: Cast)
    requires Reached(env, cmd, steps, fuel, Act(c, 3))
    ensures Drifts(env, cmd, steps, fuel)
  {
    var p := CompletedAct(RunAll(env, Began(env, cmd), steps, fuel), cmd.def, c);
    CompletedReworkDrifts(env, cmd, steps, [], fuel, p);
  }

  // ------------------------------------------------------------------ a late delivery drifts

  lemma NotifierType(def: Definition, c: Cast, d: Db)
    requires Looks(d, def, Act(c, 2)) && Notifier(def, c.n) && RowsOk(def, d.activities)
    ensures LateDelivery(d, 2)
  {
    assert Shows(d.activities[2], At(c.n, 1, Live));
  }

  lemma DeliveredSatisfies(env: Env, def: Definition, c: Cast, d: Db)
    requires Joins(def, env.cel, c) && Looks(d, def, Act(c, 2)) && LateDelivery(d, 2)
    ensures Satisfies(SettleDelivery(d, 2), {}, c.j, 1)
  {
    var d1 := SettleDelivery(d, 2);
    assert Shows(d.activities[2], At(c.n, 1, Live));
    LogPush(d.log, d1.log[|d.log|], [], [3]);
    NoFanNoCount(d1.log, c.j.id, 1);
    OneArrived(d1.activities, 2, [c.b.id, c.n.id], 1);
  }

  lemma TrailPastJoin(cel: Cel, d: Db, join: Node, outcome: AdvanceOutcome, fuel: nat)
    requires Satisfies(d, {}, join, 1) && LeadPast(d.def, cel, d.Ctx(), join.id) == Ends(outcome) && fuel > 0
    ensures Trail(cel, d, ToJoin(join, false), {}, 1, fuel) == Rests(outcome)
  {
    assert {} + Emptied(ToJoin(join, false)) == {};
    assert AtJoin(cel, d, join, {}, 1, fuel) == Trail(cel, d, Ends(outcome), {}, 1, fuel - 1);
  }

  lemma LeadsOn(def: Definition, cel: Cel, c: Cast)
    requires Joins(def, cel, c)
    ensures LeadOf(def, AdvanceOutcome.Advance(c.j.id, None), None) == ToJoin(c.j, false)
    ensures LeadPast(def, cel, map[], c.j.id) == Ends(AdvanceOutcome.Advance(c.x.id, ROLE))
  {
  }

  /** The delivery satisfies the join, and past it an approval is scheduled. */
  lemma LateTrailRests(env: Env, def: Definition, c: Cast, d: Db, fuel: nat)
    requires Joins(def, env.cel, c) && Looks(d, def, Act(c, 2)) && LateDelivery(d, 2)
    requires TimersOk(d.timers, d.activities) && fuel > 0
    ensures LateStop(env, d, DeliverStep(2), fuel) == Rests(AdvanceOutcome.Advance(c.x.id, ROLE))
  {
    DeliveredSatisfies(env, def, c, d);
    LeadsOn(def, env.cel, c);
    TrailPastJoin(env.cel, SettleDelivery(d, 2), c.j, AdvanceOutcome.Advance(c.x.id, ROLE), fuel);
    LateMoveIs(env, def, c, d);
  }

  lemma LateMoveIs(env: Env, def: Definition, c: Cast, d: Db)
    requires Joins(def, env.cel, c) && Looks(d, def, Act(c, 2)) && LateDelivery(d, 2)
    requires TimersOk(d.timers, d.activities)
    ensures LateMove(env, d, DeliverStep(2))
            == ((AdvanceOutcome.Advance(c.j.id, None), EMPTY_TRACE), SettleDelivery(d, 2), 2)
    ensures d.activities[2].round == 1
  {
    assert Shows(d.activities[2], At(c.n, 1, Live));
  }

  lemma LateDrift(env: Env, def: Definition, c: Cast, d: Db, fuel: nat)
    requires Good(env, d) && Told(d) && ValidDefinition(def, env.cel) && FoldInstance(d.log).status == d.status
    requires Notifier(def, c.n) && Joins(def, env.cel, c) && Looks(d, def, Act(c, 2)) && fuel > 0
    ensures Late(d, DeliverStep(2)) && PartsAt(env, d, DeliverStep(2), fuel)
  {
    NotifierType(def, c, d);
    LateTrailRests(env, def, c, d, fuel);
    LateGoes(env, d, DeliverStep(2), fuel);
    assert Certain(d.def, AdvanceOutcome.Advance(c.x.id, ROLE));
    LateStepDrift(env, d, DeliverStep(2), fuel);
  }

  /** Log and row agree on the status before the step, which commits, and not after it. */
  predicate PartsAt(env: Env, d: Db, step: Step, fuel: nat) {
    && Run(env, d, step, fuel).Ok? && FoldInstance(d.log).status == d.status
    && FoldInstance(Commit(env, d, step, fuel).log).status != Commit(env, d, step, fuel).status
  }

  predicate LateParts(env: Env, cmd: StartCommand, steps: seq<Step>, late: Step, fuel: nat) {
    && StartInstance(env, cmd).Ok? && CleanRun(env, Began(env, cmd), steps, fuel)
    && Late(RunAll(env, Began(env, cmd), steps, fuel), late)
    && PartsAt(env, RunAll(env, Began(env, cmd), steps, fuel), late, fuel)
  }

  /** The condition of the replay theorem on the status is needed: an accepted definition has a start and a run
      without late calls after which log and row agree, and a delivery that comes late, commits, and makes them
      part. */
  lemma LateDeliveryDrifts(env: Env, ids: seq<NodeId>, fuel: nat) returns (steps: seq<Step>)
    requires ReworkIdsOk(ids) && env.cfg.maxRound >= 2 && fuel > 0
    ensures ValidDefinition(Reworked(ids), env.cel) && LateParts(env, Bare(Reworked(ids)), steps, DeliverStep(2), fuel)
  {
    ReworkPlays(env, ids);
    ReworkFound(ids, 4);
    ReworkJoins(ids, env.cel);
    steps := ActReached(env, Reworked(ids), ReworkCast(ids), 2, fuel);
    ReachedParts(env, Bare(Reworked(ids)), steps, fuel, ReworkCast(ids));
  }

  lemma ReachedParts(env: Env, cmd: StartCommand, steps: seq<Step>, fuel: nat, c: Cast)
    requires Reached(env, cmd, steps, fuel, Act(c, 2)) && ValidDefinition(cmd.def, env.cel) && fuel > 0
    requires Notifier(cmd.def, c.n) && Joins(cmd.def, env.cel, c)
    ensures LateParts(env, cmd, steps, DeliverStep(2), fuel)
  {
    SignalsAreClean(env, Began(env, cmd), steps, fuel);
    ReplayWithRework(env, cmd, steps, fuel);
    StartGood(env, cmd);
    RunGood(env, Began(env, cmd), steps, fuel);
    LateDrift(env, cmd.def, c, RunAll(env, Began(env, cmd), steps, fuel), fuel);
  }

  // ------------------------------------------------------------------ a second instance of a business key

  /** Starting the same thing twice makes two unfinished instances: an accepted definition is started, calls on its
      instance hand it back for rework, and the same start again creates another instance of the business key. */
  lemma RestartDuplicates(env: Env, ids: seq<NodeId>, key: BusinessKey, fuel: nat) returns (steps: seq<Step>)
    requires ReworkIdsOk(ids) && env.cfg.maxRound >= 2
    ensures var cmd := Bare(Reworked(ids));
            && ValidDefinition(cmd.def, env.cel) && Registered(env, [], key, cmd).Ok?
            && Duplicates(env, ApplyAll(env, Registered(env, [], key, cmd).value.0, CallsOn(0, steps), fuel), key, cmd)
  {
    var cmd := Bare(Reworked(ids));
    ReworkPlays(env, ids);
    steps := ActReached(env, Reworked(ids), ReworkCast(ids), 2, fuel);
    WaitingAlone(env, cmd, steps, key, fuel);
  }

  lemma WaitingAlone(env: Env, cmd: StartCommand, steps: seq<Step>, key: BusinessKey, fuel: nat)
    requires StartInstance(env, cmd).Ok? && RunAll(env, Began(env, cmd), steps, fuel).status.ReturnedWaiting?
    ensures Registered(env, [], key, cmd).Ok?
    ensures Duplicates(env, ApplyAll(env, Registered(env, [], key, cmd).value.0, CallsOn(0, steps), fuel), key, cmd)
  {
    var table := ApplyAll(env, [Instance(key, Began(env, cmd))], CallsOn(0, steps), fuel);
    AloneItRuns(env, key, Began(env, cmd), steps, fuel);
    assert RunsTo(env, cmd, steps, fuel, table[0].rows);
    assert WaitingAt(table, key, 0);
    DuplicatesExactly(env, table, key, cmd, fuel);
    assert [] + [Instance(key, Began(env, cmd))] == [Instance(key, Began(env, cmd))];
  }
}
