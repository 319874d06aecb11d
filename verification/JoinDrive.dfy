/** Runs that bring the branches of a region in one by one, and with them exactly when a join fires at most once. */
module JoinDrive {
  import opened Core
  import opened Routing
  import opened Facts
  import opened Database
  import opened Engine
  import opened Preservation
  import opened Runs
  import opened JoinRegion
  import opened RegionFence
  import opened JoinOnce

  /** Past the join lies a node at which an activity can be scheduled. */
  ghost predicate PassesOn(def: Definition, cel: Cel, join: NodeId) {
    forall ctx :: GoesToWork(def, DecideAdvance(def, cel, ctx, join, SignalType.Approved).0)
  }

  predicate GoesToWork(def: Definition, outcome: AdvanceOutcome) {
    && outcome.Advance? && FindNode(def.nodes, outcome.target).Some?
    && var config := FindNode(def.nodes, outcome.target).value.config;
       !config.ParallelJoin? && !config.SubWorkflow?
  }

  // ------------------------------------------------------------------ one arrival that commits

  /** A completion signal that the branch's node has nothing against. */
  function Completing(node: Node, a: nat, key: string): SignalCommand
    requires CompletionSignal(node.config).Some?
  {
    SignalCommand(true, CompletionSignal(node.config).value, Some(a), key, 1, None,
                  if node.config.EventWait? then Some(node.config.eventType) else None, None,
                  Some(map k | k in node.contextWrites :: Null))
  }

  lemma CompletingArrives(d: Db, g: Gate, a: nat, key: string)
    requires d.IsActive(a) && InRegion(d.activities[a], g) && AllInto(d.def, d.activities, g)
    requires !KeySeen(d, key) && !Blank(key)
    ensures FindNode(d.def.nodes, d.activities[a].node).Some?
    ensures var node := FindNode(d.def.nodes, d.activities[a].node).value;
            && CompletionSignal(node.config).Some?
            && Arrives(d, g, SignalStep(Completing(node, a, key)), a) && WellFormed(d, a, Completing(node, a, key))
  {
    assert BranchInto(d.def, d.activities[a].node, g.join.id);
  }

  /** Nothing in the way of the branch: it waits at the join, or the join passes on to a node that is scheduled. */
  predicate CameIn(acts: seq<Activity>, d': Db) {
    && d'.status.Active? && acts <= d'.activities && |d'.activities| <= |acts| + 1
    && (|d'.activities| > |acts| ==> d'.activities[|acts|].status.Active?)
  }

  predicate ComesAfter(acts: seq<Activity>, r: Result<Db>) {
    match r
    case Ok(d') => CameIn(acts, d')
    case Err(_) => false
  }

  lemma AdvanceComesIn(d: Db, node: Node, role: Option<Role>, round: int)
    requires d.status.Active? && FindNode(d.def.nodes, node.id) == Some(node) && !node.config.SubWorkflow?
    ensures ComesAfter(d.activities, AdvanceTo(d, node, role, round))
  {
    ScheduleShape(d, node, role, round, Linear);
  }

  lemma MoveIsAdvance(env: Env, d: Db, outcome: AdvanceOutcome, trace: ResolveTrace, node: Node, src: nat, round: int,
                      fuel: nat)
    requires src < |d.activities| && outcome.Advance? && FindNode(d.def.nodes, outcome.target) == Some(node)
    requires !node.config.ParallelJoin?
    ensures var d1 := AppendMerges(d, d.activities[src].node, trace.merges, round);
            d1 == d.(log := d1.log) && ApplyOutcome(env, d, outcome, trace, src, round, fuel)
                == AdvanceTo(d1, node, outcome.role, round)
  {
    MergesKeepRows(d, d.activities[src].node, trace.merges, round);
    var d1 := AppendMerges(d, d.activities[src].node, trace.merges, round);
    assert Dispatch(env, d1, outcome, trace.forEach, src, round, fuel) == AdvanceTo(d1, node, outcome.role, round);
  }

  lemma PassComesIn(env: Env, d: Db, join: NodeId, src: nat, round: int, fuel: nat)
    requires d.status.Active? && src < |d.activities| && PassesOn(d.def, env.cel, join)
    ensures ComesAfter(d.activities, PassJoin(env, d, join, src, round, fuel))
  {
    var (outcome, trace) := DecideAdvance(d.def, env.cel, d.Ctx(), join, SignalType.Approved);
    assert GoesToWork(d.def, outcome);
    var node := FindNode(d.def.nodes, outcome.target).value;
    MoveIsAdvance(env, d, outcome, trace, node, src, round, fuel);
    AdvanceComesIn(AppendMerges(d, d.activities[src].node, trace.merges, round), node, outcome.role, round);
  }

  lemma FiringIsPass(env: Env, d: Db, a: nat, fuel: nat, g: Gate, d1: Db)
    requires Expectation(d, g.join.id, g.round) == Ok((g.expected, g.branches)) && Count(d.activities, g) >= Need(g)
    requires StrategyOf(g.join).WaitAll? && a < |d.activities| && fuel > 0
    requires d1 == Append(d, JoinSatisfied(g.join.id, Count(d.activities, g), g.expected, g.round), None)
    ensures a < |d1.activities|
    ensures TrySatisfyJoin(env, d, g.join, a, g.round, Some(a), fuel)
            == PassJoin(env, d1, g.join.id, a, g.round, fuel - 1)
  {
    TryFiresMore(env, d, a, fuel, g);
  }

  lemma TryComesIn(env: Env, d: Db, a: nat, fuel: nat, g: Gate)
    requires d.status.Active? && a < |d.activities| && PassesOn(d.def, env.cel, g.join.id) && fuel > 0
    requires Expectation(d, g.join.id, g.round) == Ok((g.expected, g.branches)) && StrategyOf(g.join).WaitAll?
    ensures ComesAfter(d.activities, TrySatisfyJoin(env, d, g.join, a, g.round, Some(a), fuel))
  {
    if Count(d.activities, g) >= Need(g) {
      var d1 := Append(d, JoinSatisfied(g.join.id, Count(d.activities, g), g.expected, g.round), None);
      FiringIsPass(env, d, a, fuel, g, d1);
      PassComesIn(env, d1, g.join.id, a, g.round, fuel - 1);
    } else {
      TryWaits(env, d, a, fuel, g);
    }
  }

  lemma TryWaits(env: Env, d: Db, a: nat, fuel: nat, g: Gate)
    requires a < |d.activities| && Count(d.activities, g) < Need(g)
    requires Expectation(d, g.join.id, g.round) == Ok((g.expected, g.branches))
    ensures TrySatisfyJoin(env, d, g.join, a, g.round, Some(a), fuel) == Ok(ClearCurrent(d))
  {
    SatisfiedAtThreshold(StrategyOf(g.join), Count(d.activities, g), g.expected);
  }

  lemma CameInCounts(d: Db, g: Gate, a: nat, d1: Db, d': Db)
    requires Completes(d, g, a, d1) && CameIn(d1.activities, d') && NoneLost(d.activities, g)
    ensures Count(d'.activities, g) == Count(d.activities, g) + 1 && NoneLost(d'.activities, g)
  {
    CountSet(d.activities, g, a, d1.activities[a]);
    if |d'.activities| > |d1.activities| {
      assert d'.activities[..|d'.activities| - 1] == d1.activities;
    } else {
      assert d'.activities == d1.activities;
    }
    forall i | 0 <= i < |d'.activities| && InRegion(d'.activities[i], g) && !d'.activities[i].status.Active?
      ensures Arrived(d'.activities[i], g.branches, g.round)
    {
      assert d'.activities[i] == d1.activities[i];
    }
  }

  /** Any branch under way can come in. */
  lemma ComesIn(env: Env, d: Db, a: nat, fuel: nat, g: Gate, away: iset<NodeId>) returns (step: Step)
    requires d.status.Active? && Framed(d, g, away) && NoneLost(d.activities, g) && fuel > 0
    requires StrategyOf(g.join).WaitAll? && PassesOn(d.def, env.cel, g.join.id)
    requires d.IsActive(a) && InRegion(d.activities[a], g)
    ensures var d' := Commit(env, d, step, fuel);
            d'.status.Active? && NoneLost(d'.activities, g) && Count(d'.activities, g) == Count(d.activities, g) + 1
  {
    var key := UnseenKey(d);
    CompletingArrives(d, g, a, key);
    var cmd := Completing(FindNode(d.def.nodes, d.activities[a].node).value, a, key);
    step := SignalStep(cmd);
    var d1 := WellFormedSignalMoves(env, d, g, cmd, a, fuel);
    MoveIsArrival(env, d, g, a, d1, cmd.signal, fuel);
    ArrivalExpects(d, g, a, d1);
    TryComesIn(env, ArrivalDb(d1, g, a), a, fuel, g);
    var r := TrySatisfyJoin(env, ArrivalDb(d1, g, a), g.join, a, g.round, Some(a), fuel);
    assert Commit(env, d, step, fuel) == r.value;
    CameInCounts(d, g, a, d1, r.value);
  }

  lemma ArrivalExpects(d: Db, g: Gate, a: nat, d1: Db)
    requires Completes(d, g, a, d1) && Expectation(d, g.join.id, g.round) == Ok((g.expected, g.branches))
    ensures Expectation(ArrivalDb(d1, g, a), g.join.id, g.round) == Ok((g.expected, g.branches))
  {
    QuietTrans(d.log, d1.log, ArrivalDb(d1, g, a).log);
    ExpectationQuiet(d, ArrivalDb(d1, g, a), g.join.id, g.round);
  }

  // ------------------------------------------------------------------ as many as wanted

  lemma {:induction false} SomeUnderWay(acts: seq<Activity>, g: Gate) returns (a: nat)
    requires NoneLost(acts, g) && Count(acts, g) < CountRegion(acts, g)
    ensures a < |acts| && InRegion(acts[a], g) && acts[a].status.Active?
  {
    a := |acts| - 1;
    if !(InRegion(acts[a], g) && acts[a].status.Active?) {
      a := SomeUnderWay(acts[..|acts| - 1], g);
    }
  }

  /** A run that brings in branches until `n` have arrived. */
  lemma {:induction false} Drive(env: Env, d: Db, n: nat, fuel: nat, g: Gate, away: iset<NodeId>)
    returns (steps: seq<Step>)
    requires Good(env, d) && Standing(d.log, d, g, away) && Separate(d.def, env.cel, g, away) && fuel > 0
    requires d.status.Active? && NoneLost(d.activities, g)
    requires StrategyOf(g.join).WaitAll? && PassesOn(d.def, env.cel, g.join.id)
    requires Count(d.activities, g) <= n <= g.size
    ensures var d' := RunAll(env, d, steps, fuel);
            d'.status.Active? && NoneLost(d'.activities, g) && Count(d'.activities, g) == n
    decreases n
  {
    if n == Count(d.activities, g) {
      steps := [];
    } else {
      var before := Drive(env, d, n - 1, fuel, g, away);
      var d1 := RunAll(env, d, before, fuel);
      RunStands(env, d.log, d, before, fuel, g, away);
      RunGood(env, d, before, fuel);
      var a := SomeUnderWay(d1.activities, g);
      var step := ComesIn(env, d1, a, fuel, g, away);
      steps := before + [step];
      assert steps[..|before|] == before;
    }
  }

  /** What `JoinFiresOnce` starts from. */
  ghost predicate Ready(env: Env, d: Db, fuel: nat, g: Gate, away: iset<NodeId>) {
    && Good(env, d) && Open(d, g) && Separate(d.def, env.cel, g, away) && fuel > 0
    && Fenced(d.activities, g, away) && Begun(d.activities, g) && PassesOn(d.def, env.cel, g.join.id)
  }

  /** A region larger than what its join expects, waiting for all: some run fires the join twice. */
  lemma FiresTwice(env: Env, d: Db, fuel: nat, g: Gate, away: iset<NodeId>) returns (steps: seq<Step>)
    requires Ready(env, d, fuel, g, away) && !Even(g)
    ensures Firings(RunAll(env, d, steps, fuel).log, g) >= Firings(d.log, g) + 2
  {
    OpenStands(d, g, away);
    steps := Drive(env, d, g.expected + 1, fuel, g, away);
    JoinFirings(env, d, steps, fuel, g, away);
  }

  /** A region smaller than what its join expects, waiting for all: some run brings in every branch, and no run that
      goes on from there fires the join. */
  lemma AllComeInVain(env: Env, d: Db, fuel: nat, g: Gate, away: iset<NodeId>) returns (steps: seq<Step>)
    requires Ready(env, d, fuel, g, away) && StrategyOf(g.join).WaitAll? && g.size < g.expected
    ensures var d' := RunAll(env, d, steps, fuel);
            && Count(d'.activities, g) == CountRegion(d'.activities, g) == g.size
            && forall later :: Firings(RunAll(env, d', later, fuel).log, g) == Firings(d.log, g)
  {
    OpenStands(d, g, away);
    ArrivedWithinRegion(d.activities, g);
    steps := Drive(env, d, g.size, fuel, g, away);
    JoinFirings(env, d, steps, fuel, g, away);
    forall later ensures Firings(RunAll(env, RunAll(env, d, steps, fuel), later, fuel).log, g) == Firings(d.log, g) {
      RunThen(env, d, steps, later, fuel);
      JoinFirings(env, d, steps + later, fuel, g, away);
      ArrivedWithinRegion(RunAll(env, d, steps + later, fuel).activities, g);
    }
  }

  /** A join fires at most once in every run, exactly: from an open region that only its branches lead into and
      nothing leads back into, whose join passes on to work, if and only if the strategy skips the rest or the
      region holds no more branches than the join expects arrivals. */
  lemma JoinFiresOnce(env: Env, d: Db, fuel: nat, g: Gate, away: iset<NodeId>)
    requires Ready(env, d, fuel, g, away)
    ensures (forall steps :: Firings(RunAll(env, d, steps, fuel).log, g) <= Firings(d.log, g) + 1) <==> Even(g)
  {
    if Even(g) {
      forall steps ensures Firings(RunAll(env, d, steps, fuel).log, g) <= Firings(d.log, g) + 1 {
        EvenFiresOnce(env, d, steps, fuel, g, away);
      }
    } else {
      var steps := FiresTwice(env, d, fuel, g, away);
      assert Firings(RunAll(env, d, steps, fuel).log, g) > Firings(d.log, g) + 1;
    }
  }
}
