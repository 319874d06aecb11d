/** A fan-out and its join within a round: what it means that the region is open, what one arrival below the
    threshold does, and that entering a fan-out opens the region. */
module JoinRegion {
  import opened Core
  import opened Routing
  import opened Validation
  import opened Progress
  import opened Facts
  import opened Database
  import opened Engine
  import opened Preservation
  import opened Calls

  /** A join in a round: the node ids it counts arrivals by, how many of them it expects, how many activities the
      region holds, and whether the deadline of a branch may lead to the join. */
  datatype Gate = Gate(join: Node, round: int, branches: seq<NodeId>, expected: int, size: nat, deadlines: bool)

  function Threshold(strategy: JoinStrategy, expected: int): int {
    match strategy
    case WaitAll => expected
    case WaitAny => 1
    case NOfM(n) => n
  }

  /** Satisfaction is reaching the threshold. */
  lemma SatisfiedAtThreshold(strategy: JoinStrategy, arrived: int, expected: int)
    ensures strategy.IsSatisfied(arrived, expected) <==> arrived >= Threshold(strategy, expected)
  {
  }

  function Need(g: Gate): int {
    Threshold(StrategyOf(g.join), g.expected)
  }

  predicate InRegion(a: Activity, g: Gate) {
    a.round == g.round && a.node in g.branches
  }

  function CountRegion(acts: seq<Activity>, g: Gate): nat {
    if acts == [] then 0
    else CountRegion(acts[..|acts| - 1], g) + (if InRegion(acts[|acts| - 1], g) then 1 else 0)
  }

  function Count(acts: seq<Activity>, g: Gate): nat {
    CountArrived(acts, g.branches, g.round)
  }

  /** The completion edge of a branch leads straight into the join. */
  predicate BranchInto(def: Definition, branch: NodeId, join: NodeId) {
    BranchJoin(def, branch) == Some(join)
  }

  /** Every activity of the region completes straight into the join. */
  predicate AllInto(def: Definition, acts: seq<Activity>, g: Gate) {
    forall i :: 0 <= i < |acts| && InRegion(acts[i], g) ==> BranchInto(def, acts[i].node, g.join.id)
  }

  /** Every activity of the region is under way or has arrived. */
  predicate NoneLost(acts: seq<Activity>, g: Gate) {
    forall i :: 0 <= i < |acts| && InRegion(acts[i], g) && !acts[i].status.Active? ==>
        Arrived(acts[i], g.branches, g.round)
  }

  /** The join of the gate, which waits for at least one arrival. */
  predicate GateOk(def: Definition, g: Gate) {
    FindNode(def.nodes, g.join.id) == Some(g.join) && g.join.config.ParallelJoin? && 1 <= Need(g)
  }

  /** The region was entered once in the round, every branch is under way or has arrived, and the join is
      still waiting. */
  predicate Open(d: Db, g: Gate) {
    && d.status.Active? && GateOk(d.def, g)
    && Expectation(d, g.join.id, g.round) == Ok((g.expected, g.branches))
    && AllInto(d.def, d.activities, g) && NoneLost(d.activities, g)
    && CountRegion(d.activities, g) == g.size
    && Count(d.activities, g) < Need(g)
  }

  // ------------------------------------------------------------------ counting

  lemma {:induction false} CountSet(acts: seq<Activity>, g: Gate, a: nat, row: Activity)
    requires a < |acts| && !Arrived(acts[a], g.branches, g.round) && Arrived(row, g.branches, g.round)
    requires InRegion(acts[a], g)
    ensures Count(acts[a := row], g) == Count(acts, g) + 1
    ensures CountRegion(acts[a := row], g) == CountRegion(acts, g)
  {
    var init := acts[..|acts| - 1];
    if a < |init| {
      assert acts[a := row][..|acts| - 1] == init[a := row];
      CountSet(init, g, a, row);
    } else {
      assert acts[a := row][..|acts| - 1] == init;
    }
  }

  lemma {:induction false} ArrivedWithinRegion(acts: seq<Activity>, g: Gate)
    ensures Count(acts, g) <= CountRegion(acts, g)
    ensures Count(acts, g) == CountRegion(acts, g) ==>
              forall i :: 0 <= i < |acts| && InRegion(acts[i], g) ==> Arrived(acts[i], g.branches, g.round)
  {
    if acts != [] {
      ArrivedWithinRegion(acts[..|acts| - 1], g);
    }
  }

  // ------------------------------------------------------------------ the log

  /** Nothing in between fans out a ForEach or satisfies a join. */
  predicate Quiet(log: seq<Event>, log': seq<Event>) {
    && log <= log'
    && forall i :: |log| <= i < |log'| ==> !log'[i].fact.ForEachFannedOut? && !log'[i].fact.JoinSatisfied?
  }

  lemma QuietTrans(a: seq<Event>, b: seq<Event>, c: seq<Event>)
    requires Quiet(a, b) && Quiet(b, c)
    ensures Quiet(a, c)
  {
    forall i | |a| <= i < |c| ensures !c[i].fact.ForEachFannedOut? && !c[i].fact.JoinSatisfied? {
      if i < |b| { assert c[i] == b[i]; }
    }
  }

  lemma {:induction false} BranchCountQuiet(log: seq<Event>, log': seq<Event>, join: NodeId, round: int)
    requires Quiet(log, log')
    ensures ForEachBranchCount(log', join, round) == ForEachBranchCount(log, join, round)
    decreases |log'|
  {
    if log' != log {
      BranchCountQuiet(log, log'[..|log'| - 1], join, round);
    }
  }

  lemma ExpectationQuiet(d: Db, d': Db, join: NodeId, round: int)
    requires Quiet(d.log, d'.log) && d'.def == d.def
    ensures Expectation(d', join, round) == Expectation(d, join, round)
  {
    BranchCountQuiet(d.log, d'.log, join, round);
  }

  // ------------------------------------------------------------------ one arrival

  /** `d1` is `d` after branch activity `a` completed without a rejection and before the graph moves. */
  predicate Completes(d: Db, g: Gate, a: nat, d1: Db) {
    && a < |d.activities| && a < |d1.activities|
    && d.activities[a].status.Active? && InRegion(d.activities[a], g)
    && d1.def == d.def && d1.status.Active?
    && Arrived(d1.activities[a], g.branches, g.round) && d1.activities[a].node == d.activities[a].node
    && d1.activities == d.activities[a := d1.activities[a]]
    && Quiet(d.log, d1.log)
  }

  lemma CompletesCounts(d: Db, g: Gate, a: nat, d1: Db)
    requires Open(d, g) && Completes(d, g, a, d1)
    ensures Count(d1.activities, g) == Count(d.activities, g) + 1 <= g.size
    ensures CountRegion(d1.activities, g) == g.size
    ensures Expectation(d1, g.join.id, g.round) == Ok((g.expected, g.branches))
  {
    CountSet(d.activities, g, a, d1.activities[a]);
    ArrivedWithinRegion(d1.activities, g);
    ExpectationQuiet(d, d1, g.join.id, g.round);
  }

  /** The rows with the arrival logged. */
  function ArrivalDb(d1: Db, g: Gate, a: nat): Db
    requires a < |d1.activities|
  {
    Append(d1, Fact.BranchReachedJoin(d1.activities[a].node, g.join.id, g.round), None)
  }

  lemma ArrivalLog(d: Db, g: Gate, a: nat, d1: Db)
    requires Open(d, g) && Completes(d, g, a, d1)
    ensures Quiet(d.log, ArrivalDb(d1, g, a).log)
    ensures Expectation(ArrivalDb(d1, g, a), g.join.id, g.round) == Ok((g.expected, g.branches))
  {
    QuietTrans(d.log, d1.log, ArrivalDb(d1, g, a).log);
    ExpectationQuiet(d, ArrivalDb(d1, g, a), g.join.id, g.round);
  }

  /** The move of a completed branch is an arrival at the join. */
  lemma MoveIsArrival(env: Env, d: Db, g: Gate, a: nat, d1: Db, signal: SignalType, fuel: nat)
    requires GateOk(d.def, g) && AllInto(d.def, d.activities, g) && Completes(d, g, a, d1)
    requires CompletionSignal(FindNode(d.def.nodes, d.activities[a].node).value.config) == Some(signal)
    ensures MoveOn(env, d1, a, signal, fuel)
            == TrySatisfyJoin(env, ArrivalDb(d1, g, a), g.join, a, g.round, Some(a), fuel)
  {
    var branch := d.activities[a].node;
    assert BranchInto(d.def, branch, g.join.id);
    EdgeIntoJoin(d.def, env.cel, d1.Ctx(), branch, signal, g.join.id);
    ArrivalDispatch(env, d1, g, a, fuel);
  }

  lemma ArrivalDispatch(env: Env, d1: Db, g: Gate, a: nat, fuel: nat)
    requires a < |d1.activities| && FindNode(d1.def.nodes, g.join.id) == Some(g.join) && g.join.config.ParallelJoin?
    ensures ApplyOutcome(env, d1, AdvanceOutcome.Advance(g.join.id, None), EMPTY_TRACE, a, g.round, fuel)
            == TrySatisfyJoin(env, ArrivalDb(d1, g, a), g.join, a, g.round, Some(a), fuel)
  {
    var outcome := AdvanceOutcome.Advance(g.join.id, None);
    assert ApplyOutcome(env, d1, outcome, EMPTY_TRACE, a, g.round, fuel)
        == Dispatch(env, d1, outcome, None, a, g.round, fuel);
    assert Dispatch(env, d1, outcome, None, a, g.round, fuel) == ReachJoin(env, d1, g.join, a, g.round, fuel);
  }

  /** Below the threshold an arrival is only recorded, and the join stays open. */
  lemma ArrivalBelow(env: Env, d: Db, g: Gate, a: nat, d1: Db, signal: SignalType, fuel: nat)
    requires Open(d, g) && Completes(d, g, a, d1)
    requires CompletionSignal(FindNode(d.def.nodes, d.activities[a].node).value.config) == Some(signal)
    requires Count(d.activities, g) + 1 < Need(g)
    ensures var r := MoveOn(env, d1, a, signal, fuel);
            && r == Ok(ClearCurrent(ArrivalDb(d1, g, a)))
            && Open(r.value, g) && Count(r.value.activities, g) == Count(d.activities, g) + 1
            && Quiet(d.log, r.value.log)
  {
    MoveIsArrival(env, d, g, a, d1, signal, fuel);
    CompletesCounts(d, g, a, d1);
    ArrivalLog(d, g, a, d1);
    SatisfiedAtThreshold(StrategyOf(g.join), Count(d1.activities, g), g.expected);
    ExpectationQuiet(ArrivalDb(d1, g, a), ClearCurrent(ArrivalDb(d1, g, a)), g.join.id, g.round);
  }

  // ------------------------------------------------------------------ arrivals as calls

  /** A call that completes the region's active activity `a` on its regular signal: the caller's signal
      with a new key, or the delivery of a Notification. */
  predicate Arrives(d: Db, g: Gate, step: Step, a: nat) {
    && d.IsActive(a) && InRegion(d.activities[a], g)
    && FindNode(d.def.nodes, d.activities[a].node).Some?
    && var c := FindNode(d.def.nodes, d.activities[a].node).value.config;
       match step
       case SignalStep(cmd) =>
         cmd.activity == Some(a) && CompletionSignal(c) == Some(cmd.signal) && !KeySeen(d, cmd.key)
       case DeliverStep(b) => b == a && c.Notification?
       case _ => false
  }

  lemma SettleShape(d: Db, a: nat, node: Node, cmd: SignalCommand)
    requires d.IsActive(a) && d.status.Active? && SettleSignal(d, a, node, cmd).Ok?
    ensures var d1 := SettleSignal(d, a, node, cmd).value;
            && d1.def == d.def && d1.status == d.status && Quiet(d.log, d1.log)
            && d1.activities == d.activities[a := ReviewedRow(d.activities[a], cmd)]
  {
    var d1 := ApplyContextWrites(d, node, d.activities[a].round, cmd.patch).value;
    var d2 := ReviewShape(d1, a, cmd);
    QuietTrans(d.log, d1.log, d2.log);
    QuietTrans(d.log, d2.log, Review(d1, a, cmd).value.log);
  }

  /** A caller's completion signal of activity `a` that nothing in the request itself makes fail. */
  predicate WellFormed(d: Db, a: nat, cmd: SignalCommand)
    requires a < |d.activities|
  {
    && cmd.visible && !Blank(cmd.key) && cmd.activity == Some(a)
    && FindNode(d.def.nodes, d.activities[a].node).Some?
    && var node := FindNode(d.def.nodes, d.activities[a].node).value;
       && (node.contextWrites == [] || (cmd.patch.Some? && PatchCovers(node.contextWrites, cmd.patch.value)))
       && (node.config.EventWait? ==> cmd.eventType == Some(node.config.eventType))
  }

  lemma CompletionFits(node: Node, signal: SignalType, eventType: Option<string>)
    requires CompletionSignal(node.config) == Some(signal)
    requires node.config.EventWait? ==> eventType == Some(node.config.eventType)
    ensures SignalFits(node, signal, eventType) && !IsClaim(signal)
  {
  }

  lemma SignalMoves(env: Env, d: Db, cmd: SignalCommand, a: nat, node: Node, d1: Db, fuel: nat)
    requires !Blank(cmd.key) && cmd.visible && !KeySeen(d, cmd.key) && !d.status.IsTerminal()
    requires cmd.activity == Some(a) && d.IsActive(a) && FindNode(d.def.nodes, d.activities[a].node) == Some(node)
    requires SignalFits(node, cmd.signal, cmd.eventType) && !IsClaim(cmd.signal)
    requires SettleSignal(d, a, node, cmd) == Ok(d1) && a < |d1.activities|
    ensures Signal(env, d, cmd, fuel) == Acted(MoveOn(env, d1, a, cmd.signal, fuel))
  {
    assert Heed(env, d, a, node, cmd, fuel) == MoveOn(env, d1, a, cmd.signal, fuel);
  }

  lemma PlainSettles(d: Db, a: nat, cmd: SignalCommand)
    requires d.IsActive(a) && WellFormed(d, a, cmd)
    ensures SettleSignal(d, a, FindNode(d.def.nodes, d.activities[a].node).value, cmd).Ok?
  {
    var node := FindNode(d.def.nodes, d.activities[a].node).value;
    var d1 := ApplyContextWrites(d, node, d.activities[a].round, cmd.patch).value;
    var _ := ReviewShape(d1, a, cmd);
  }

  /** A well-formed completion signal completes the branch; it commits if the move does. */
  lemma WellFormedSignalMoves(env: Env, d: Db, g: Gate, cmd: SignalCommand, a: nat, fuel: nat) returns (d1: Db)
    requires d.status.Active? && Arrives(d, g, SignalStep(cmd), a) && WellFormed(d, a, cmd)
    ensures Completes(d, g, a, d1)
    ensures Signal(env, d, cmd, fuel) == Acted(MoveOn(env, d1, a, cmd.signal, fuel))
  {
    var node := FindNode(d.def.nodes, d.activities[a].node).value;
    CompletionFits(node, cmd.signal, cmd.eventType);
    PlainSettles(d, a, cmd);
    SettleShape(d, a, node, cmd);
    d1 := SettleSignal(d, a, node, cmd).value;
    SignalMoves(env, d, cmd, a, node, d1, fuel);
  }

  /** Below the threshold a well-formed completion signal of a branch always commits. */
  lemma ArrivalCommits(env: Env, d: Db, g: Gate, cmd: SignalCommand, a: nat, fuel: nat)
    requires Open(d, g) && Arrives(d, g, SignalStep(cmd), a) && WellFormed(d, a, cmd)
    requires Count(d.activities, g) + 1 < Need(g)
    ensures Signal(env, d, cmd, fuel).Ok?
  {
    var d1 := WellFormedSignalMoves(env, d, g, cmd, a, fuel);
    ArrivalBelow(env, d, g, a, d1, cmd.signal, fuel);
  }

  // ------------------------------------------------------------------ entering a region

  /** What scheduling a list of targets adds: one fresh activity per target, in order. */
  predicate AddsTargets(d: Db, targets: seq<ParallelTarget>, round: int, d': Db) {
    && d'.def == d.def && d'.status == d.status && Quiet(d.log, d'.log)
    && |d'.activities| == |d.activities| + |targets|
    && d'.activities[..|d.activities|] == d.activities
    && forall i :: 0 <= i < |targets| ==>
         d'.activities[|d.activities| + i]
         == Fresh(d.def, |d.activities| + i, targets[i].node, targets[i].role, round)
  }

  lemma AddsFirst(d: Db, d1: Db, d': Db, targets: seq<ParallelTarget>, round: int, via: Via)
    requires targets != [] && Scheduled(d, targets[0].node, targets[0].role, round, via, d1)
    requires AddsTargets(d1, targets[1..], round, d')
    ensures AddsTargets(d, targets, round, d')
  {
    QuietTrans(d.log, d1.log, d'.log);
    assert d'.activities[..|d1.activities|] == d1.activities;
    assert d'.activities[..|d.activities|] == d1.activities[..|d.activities|] == d.activities;
    forall i | 0 <= i < |targets|
      ensures d'.activities[|d.activities| + i]
              == Fresh(d.def, |d.activities| + i, targets[i].node, targets[i].role, round)
    {
      if i == 0 {
        assert d'.activities[|d.activities|] == d1.activities[|d.activities|];
      } else {
        assert targets[1..][i - 1] == targets[i];
        assert d'.activities[|d1.activities| + (i - 1)]
            == Fresh(d.def, |d1.activities| + (i - 1), targets[i].node, targets[i].role, round);
      }
    }
  }

  lemma {:induction false} TargetsAdded(d: Db, targets: seq<ParallelTarget>, round: int, byForEach: bool)
    requires ScheduleTargets(d, targets, round, byForEach).Ok?
    ensures AddsTargets(d, targets, round, ScheduleTargets(d, targets, round, byForEach).value)
    decreases |targets|
  {
    if targets != [] {
      var node := FindNode(d.def.nodes, targets[0].node).value;
      var via := Fanned(byForEach, targets[0].item);
      ScheduleShape(d, node, targets[0].role, round, via);
      var d1 := ScheduleActivity(d, node, targets[0].role, round, via).value.0;
      TargetsAdded(d1, targets[1..], round, byForEach);
      AddsFirst(d, d1, ScheduleTargets(d, targets, round, byForEach).value, targets, round, via);
    }
  }

  /** No activity of the region exists yet. */
  predicate Untried(acts: seq<Activity>, g: Gate) {
    forall i :: 0 <= i < |acts| ==> !InRegion(acts[i], g)
  }

  lemma {:induction false} CountFresh(acts: seq<Activity>, g: Gate, n: nat)
    requires n <= |acts| && Untried(acts[..n], g)
    requires forall i :: n <= i < |acts| ==> InRegion(acts[i], g) && acts[i].status.Active?
    ensures CountRegion(acts, g) == |acts| - n && Count(acts, g) == 0
  {
    if acts != [] {
      var init := acts[..|acts| - 1];
      if |acts| == n {
        assert acts[..n] == acts;
        assert Untried(init[..|init|], g);
        CountFresh(init, g, |init|);
      } else {
        assert init[..n] == acts[..n];
        CountFresh(init, g, n);
      }
    }
  }

  lemma AddedRegion(d: Db, targets: seq<ParallelTarget>, g: Gate, d': Db)
    requires AddsTargets(d, targets, g.round, d') && Untried(d.activities, g)
    requires forall i :: 0 <= i < |targets| ==> targets[i].node in g.branches
    requires forall i :: 0 <= i < |targets| ==> BranchInto(d.def, targets[i].node, g.join.id)
    ensures CountRegion(d'.activities, g) == |targets| && Count(d'.activities, g) == 0
    ensures AllInto(d.def, d'.activities, g) && NoneLost(d'.activities, g)
  {
    var n := |d.activities|;
    assert d'.activities[..n] == d.activities;
    forall i | n <= i < |d'.activities|
      ensures InRegion(d'.activities[i], g) && d'.activities[i].status.Active?
      ensures BranchInto(d.def, d'.activities[i].node, g.join.id)
    {
      assert d'.activities[n + (i - n)] == Fresh(d.def, i, targets[i - n].node, targets[i - n].role, g.round);
    }
    CountFresh(d'.activities, g, n);
    forall i | 0 <= i < n ensures d'.activities[i] == d.activities[i] {
      assert d'.activities[..n][i] == d'.activities[i];
    }
  }

  /** The gate a fan-out leads to: all its branches complete into the join, which counts them. A split's join expects
      one arrival per incoming edge, a ForEach's one per item. */
  predicate LeadsToGate(d: Db, targets: seq<ParallelTarget>, forEach: Option<FanOut>, g: Gate) {
    && GateOk(d.def, g)
    && (forall i :: 0 <= i < |targets| ==>
        targets[i].node in g.branches && BranchInto(d.def, targets[i].node, g.join.id))
    && g.size == |targets| > 0
    && match forEach
       case None => Expectation(d, g.join.id, g.round) == Ok((g.expected, g.branches))
       case Some(fan) =>
         && fan.joinTarget == g.join.id && g.expected == |targets|
         && ForEachTemplate(d.def.nodes, g.join.id).Some?
         && g.branches == [ForEachTemplate(d.def.nodes, g.join.id).value]
  }

  lemma MarkedExpectation(d: Db, targets: seq<ParallelTarget>, forEach: Option<FanOut>, src: nat, g: Gate)
    requires LeadsToGate(d, targets, forEach, g) && src < |d.activities|
    ensures var d1 := MarkFanOut(d, targets, forEach, src, g.round);
            Expectation(d1, g.join.id, g.round) == Ok((g.expected, g.branches))
  {
    var d1 := MarkFanOut(d, targets, forEach, src, g.round);
    if forEach.None? {
      ExpectationQuiet(d, d1, g.join.id, g.round);
    } else {
      assert d1.log[..|d1.log| - 1] == d.log;
    }
  }

  /** A fan-out into a region that is entered for the first time in its round leaves the join open with
      no arrivals, which is where `JoinFiresOnce` starts. */
  lemma FanOutOpens(env: Env, d: Db, targets: seq<ParallelTarget>, forEach: Option<FanOut>, src: nat, g: Gate,
                    fuel: nat)
    requires d.status.Active? && src < |d.activities| && Untried(d.activities, g)
    requires LeadsToGate(d, targets, forEach, g)
    requires FanOutTo(env, d, targets, forEach, src, g.round, fuel).Ok?
    ensures var d' := FanOutTo(env, d, targets, forEach, src, g.round, fuel).value;
            Open(d', g) && Count(d'.activities, g) == 0
  {
    var d1 := MarkFanOut(d, targets, forEach, src, g.round);
    var d' := ScheduleTargets(d1, targets, g.round, forEach.Some?).value;
    TargetsAdded(d1, targets, g.round, forEach.Some?);
    AddedRegion(d1, targets, g, d');
    MarkedExpectation(d, targets, forEach, src, g);
    ExpectationQuiet(d1, d', g.join.id, g.round);
  }
}
