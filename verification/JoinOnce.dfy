/** How often a join fires: over every run from an open region that nothing outside leads into, whatever the calls
    and their order. A strategy that skips the rest fires once; waiting for all fires once and then again for every
    branch that comes after. */
module JoinOnce {
  import opened Core
  import opened Routing
  import opened Progress
  import opened Facts
  import opened Database
  import opened Engine
  import opened Invariants
  import opened Preservation
  import opened Calls
  import opened Runs
  import opened JoinRegion
  import opened RegionFence

  predicate NoneUnderWay(acts: seq<Activity>, g: Gate) {
    forall i :: 0 <= i < |acts| && InRegion(acts[i], g) ==> !acts[i].status.Active?
  }

  predicate IsLost(a: Activity, g: Gate) {
    InRegion(a, g) && !a.status.Active? && !Arrived(a, g.branches, g.round)
  }

  /** The branches that have ended without arriving. */
  function Lost(acts: seq<Activity>, g: Gate): nat {
    if acts == [] then 0
    else Lost(acts[..|acts| - 1], g) + (if IsLost(acts[|acts| - 1], g) then 1 else 0)
  }

  /** How many firings a branch's deadline may have added. */
  function Slack(acts: seq<Activity>, g: Gate): nat {
    if g.deadlines then Lost(acts, g) else 0
  }

  /** Where the join stands since `log`. While fewer branches than needed have arrived it has not fired. Once enough
      have, a strategy that skips the rest has fired exactly once, with exactly that count, and no branch is under
      way; waiting for all has fired at the arrival that reached the threshold and at every one since, and at most
      once more for every branch that timed out into the join. */
  predicate Tallies(log: seq<Event>, d: Db, g: Gate) {
    if Count(d.activities, g) < Need(g) then Clear(log, d.log, g)
    else if StrategyOf(g.join).SkipsRemaining() then
      Count(d.activities, g) == Need(g) && FiredOnce(log, d.log, g) && NoneUnderWay(d.activities, g)
    else
      FiredBetween(log, d.log, g, Count(d.activities, g) - Need(g) + 1, Slack(d.activities, g))
  }

  /** What the calls of a run leave as it is about the region. */
  ghost predicate Framed(d: Db, g: Gate, away: iset<NodeId>) {
    && GateOk(d.def, g) && AllInto(d.def, d.activities, g)
    && Expectation(d, g.join.id, g.round) == Ok((g.expected, g.branches))
    && CountRegion(d.activities, g) == g.size
    && Fenced(d.activities, g, away) && Begun(d.activities, g)
  }

  ghost predicate Standing(log: seq<Event>, d: Db, g: Gate, away: iset<NodeId>) {
    Framed(d, g, away) && Tallies(log, d, g)
  }

  ghost predicate StandsAfter(log: seq<Event>, r: Result<Db>, g: Gate, away: iset<NodeId>) {
    r.Ok? ==> Standing(log, r.value, g, away)
  }

  predicate Disjoint(g: Gate, away: iset<NodeId>) {
    forall b :: b in g.branches ==> b !in away
  }

  // ------------------------------------------------------------------ steps apart from the region

  lemma UnfannedExpects(d: Db, d': Db, g: Gate)
    requires d'.def == d.def && Unfanned(d.log, d'.log, g)
    ensures Expectation(d', g.join.id, g.round) == Expectation(d, g.join.id, g.round)
  {
    UnfannedCounts(d.log, d'.log, g);
  }

  lemma ApartFences(acts: seq<Activity>, acts': seq<Activity>, g: Gate, away: iset<NodeId>)
    requires RowsApart(acts, acts', g, away) && Fenced(acts, g, away)
    ensures Fenced(acts', g, away)
  {
    forall i | 0 <= i < |acts'| && acts'[i].status.Active? && acts'[i].round == g.round
      ensures acts'[i].node in g.branches || acts'[i].node in away
    {
      if i < |acts| { assert RowApart(acts[i], acts'[i], g); }
    }
  }

  lemma ApartRests(acts: seq<Activity>, acts': seq<Activity>, g: Gate, away: iset<NodeId>)
    requires RowsApart(acts, acts', g, away) && NoneUnderWay(acts, g) && Disjoint(g, away)
    ensures NoneUnderWay(acts', g)
  {
    forall i | 0 <= i < |acts'| && InRegion(acts'[i], g) ensures !acts'[i].status.Active? {
      if i < |acts| { assert RowApart(acts[i], acts'[i], g); }
    }
  }

  lemma ApartInto(def: Definition, acts: seq<Activity>, acts': seq<Activity>, g: Gate, away: iset<NodeId>)
    requires RowsApart(acts, acts', g, away) && AllInto(def, acts, g) && Disjoint(g, away)
    ensures AllInto(def, acts', g)
  {
    forall i | 0 <= i < |acts'| && InRegion(acts'[i], g) ensures BranchInto(def, acts'[i].node, g.join.id) {
      if i < |acts| { assert RowApart(acts[i], acts'[i], g); }
    }
  }

  lemma {:induction false} ApartLost(acts: seq<Activity>, acts': seq<Activity>, g: Gate, away: iset<NodeId>)
    requires RowsApart(acts, acts', g, away)
    ensures Lost(acts, g) <= Lost(acts', g)
    decreases |acts'|
  {
    if acts' != [] {
      var init' := acts'[..|acts'| - 1];
      if |acts| < |acts'| {
        ApartLost(acts, init', g, away);
      } else {
        var init := acts[..|acts| - 1];
        forall i | 0 <= i < |init| ensures RowApart(init[i], init'[i], g) {
          assert RowApart(acts[i], acts'[i], g);
        }
        assert RowApart(acts[|acts| - 1], acts'[|acts| - 1], g);
        ApartLost(init, init', g, away);
      }
    }
  }

  lemma ApartTallies(log: seq<Event>, d: Db, d': Db, g: Gate, away: iset<NodeId>)
    requires Tallies(log, d, g) && Apart(d, d', g, away) && Disjoint(g, away)
    ensures Tallies(log, d', g)
  {
    ApartCounts(d.activities, d'.activities, g, away);
    if Count(d.activities, g) < Need(g) {
      ClearTrans(log, d.log, d'.log, g);
    } else if StrategyOf(g.join).SkipsRemaining() {
      FiredStays(log, d.log, d'.log, g);
      ApartRests(d.activities, d'.activities, g, away);
    } else {
      BetweenStays(log, d.log, d'.log, g, Count(d.activities, g) - Need(g) + 1, Slack(d.activities, g));
      ApartLost(d.activities, d'.activities, g, away);
    }
  }

  lemma RowsApartFramed(d: Db, d': Db, g: Gate, away: iset<NodeId>)
    requires Framed(d, g, away) && Disjoint(g, away)
    requires d'.def == d.def && Unfanned(d.log, d'.log, g) && RowsApart(d.activities, d'.activities, g, away)
    ensures Framed(d', g, away)
  {
    UnfannedExpects(d, d', g);
    ApartInto(d.def, d.activities, d'.activities, g, away);
    ApartCounts(d.activities, d'.activities, g, away);
    ApartFences(d.activities, d'.activities, g, away);
    BegunStays(d.activities, d'.activities, g, away);
  }

  lemma ApartStands(log: seq<Event>, d: Db, d': Db, g: Gate, away: iset<NodeId>)
    requires Standing(log, d, g, away) && Apart(d, d', g, away) && Disjoint(g, away)
    ensures Standing(log, d', g, away)
  {
    RowsApartFramed(d, d', g, away);
    ApartTallies(log, d, d', g, away);
  }

  lemma ApartThenStands(log: seq<Event>, d: Db, r: Result<Db>, g: Gate, away: iset<NodeId>)
    requires Standing(log, d, g, away) && ApartAfter(d, r, g, away) && Disjoint(g, away)
    ensures StandsAfter(log, r, g, away)
  {
    if r.Ok? {
      ApartStands(log, d, r.value, g, away);
    }
  }

  // ------------------------------------------------------------------ a branch that ends

  /** `d1` is `d` after activity `a` has ended and before the graph moves. */
  predicate Ends(d: Db, a: nat, d1: Db, g: Gate) {
    && d.IsActive(a) && a < |d1.activities|
    && d1.def == d.def && Clear(d.log, d1.log, g)
    && d1.activities == d.activities[a := d1.activities[a]]
    && d1.activities[a].node == d.activities[a].node && d1.activities[a].round == d.activities[a].round
    && !d1.activities[a].status.Active?
  }

  predicate ArrivesAs(row: Activity, g: Gate) {
    InRegion(row, g) && Arrived(row, g.branches, g.round)
  }

  /** An activity that ends without arriving as a branch leaves the region as it is. */
  lemma EndsApart(d: Db, a: nat, d1: Db, g: Gate, away: iset<NodeId>)
    requires Ends(d, a, d1, g) && !ArrivesAs(d1.activities[a], g)
    ensures Apart(d, d1, g, away)
  {
    forall i | 0 <= i < |d.activities| ensures RowApart(d.activities[i], d1.activities[i], g) {
    }
  }

  lemma {:induction false} RowCounts(acts: seq<Activity>, g: Gate, a: nat, row: Activity)
    requires a < |acts| && acts[a].status.Active? && !row.status.Active?
    requires row.node == acts[a].node && row.round == acts[a].round
    ensures CountRegion(acts[a := row], g) == CountRegion(acts, g)
    ensures Count(acts[a := row], g) == Count(acts, g) + (if ArrivesAs(row, g) then 1 else 0)
    ensures Lost(acts[a := row], g) == Lost(acts, g) + (if IsLost(row, g) then 1 else 0)
  {
    var init := acts[..|acts| - 1];
    if a < |init| {
      assert acts[a := row][..|acts| - 1] == init[a := row];
      RowCounts(init, g, a, row);
    } else {
      assert acts[a := row][..|acts| - 1] == init;
    }
  }

  lemma EndsFramed(d: Db, a: nat, d1: Db, g: Gate, away: iset<NodeId>)
    requires Framed(d, g, away) && Ends(d, a, d1, g)
    ensures Framed(d1, g, away)
  {
    UnfannedExpects(d, d1, g);
    RowCounts(d.activities, g, a, d1.activities[a]);
    var i :| 0 <= i < |d.activities| && d.activities[i].round == g.round;
    assert d1.activities[i].round == g.round;
  }

  /** A decision for the join reaches it once the Merge facts are logged. */
  lemma HomeIsReach(env: Env, d: Db, outcome: AdvanceOutcome, trace: ResolveTrace, src: nat, fuel: nat, g: Gate)
    requires LeadsHome(g, outcome) && src < |d.activities| && GateOk(d.def, g)
    ensures var d1 := AppendMerges(d, d.activities[src].node, trace.merges, g.round);
            && d1 == d.(log := d1.log)
            && ApplyOutcome(env, d, outcome, trace, src, g.round, fuel)
               == ReachJoin(env, d1, g.join, src, g.round, fuel)
  {
    MergesKeepRows(d, d.activities[src].node, trace.merges, g.round);
    var d1 := AppendMerges(d, d.activities[src].node, trace.merges, g.round);
    assert ApplyOutcome(env, d, outcome, trace, src, g.round, fuel)
        == Dispatch(env, d1, outcome, trace.forEach, src, g.round, fuel);
  }

  // ------------------------------------------------------------------ below the threshold

  lemma ReachWaits(env: Env, d: Db, src: nat, fuel: nat, g: Gate, away: iset<NodeId>)
    requires Framed(d, g, away) && Count(d.activities, g) < Need(g) && src < |d.activities|
    ensures ApartAfter(d, ReachJoin(env, d, g.join, src, g.round, fuel), g, away)
  {
    var fact := Fact.BranchReachedJoin(d.activities[src].node, g.join.id, g.round);
    var d1 := Append(d, fact, None);
    FactApart(d, fact, None, g, away);
    UnfannedExpects(d, d1, g);
    SatisfiedAtThreshold(StrategyOf(g.join), Count(d.activities, g), g.expected);
    assert ReachJoin(env, d, g.join, src, g.round, fuel) == Ok(ClearCurrent(d1));
  }

  // ------------------------------------------------------------------ waiting for all, from the threshold on

  /** One more firing, and otherwise nothing that concerns the region. */
  ghost predicate FiresMore(log: seq<Event>, d: Db, r: Result<Db>, g: Gate, away: iset<NodeId>, least: int, slack: nat)
  {
    match r
    case Ok(d') =>
      && Framed(d', g, away) && RowsApart(d.activities, d'.activities, g, away)
      && FiredBetween(log, d'.log, g, least + 1, slack)
    case Err(_) => true
  }

  lemma TryFiresMore(env: Env, d: Db, a: nat, fuel: nat, g: Gate)
    requires Expectation(d, g.join.id, g.round) == Ok((g.expected, g.branches)) && Count(d.activities, g) >= Need(g)
    requires StrategyOf(g.join).WaitAll? && a < |d.activities|
    ensures TrySatisfyJoin(env, d, g.join, a, g.round, Some(a), fuel)
         == if fuel == 0 then Err(Diverges)
            else PassJoin(env, Append(d, JoinSatisfied(g.join.id, Count(d.activities, g), g.expected, g.round), None),
                          g.join.id, a, g.round, fuel - 1)
  {
    SatisfiedAtThreshold(StrategyOf(g.join), Count(d.activities, g), g.expected);
  }

  lemma FiredAgain(log: seq<Event>, d: Db, d1: Db, d2: Db, g: Gate, away: iset<NodeId>, least: int, slack: nat)
    requires Framed(d, g, away) && Disjoint(g, away) && Count(d.activities, g) >= Need(g)
    requires FiredBetween(log, d.log, g, least, slack)
    requires d1 == Append(d, JoinSatisfied(g.join.id, Count(d.activities, g), g.expected, g.round), None)
    requires Apart(d1, d2, g, away)
    ensures FiresMore(log, d, Ok(d2), g, away, least, slack)
  {
    BetweenFires(log, d.log, d1.log[|d.log|], g, least, slack);
    BetweenStays(log, d1.log, d2.log, g, least + 1, slack);
    RowsApartFramed(d, d2, g, away);
  }

  lemma ReachFires(env: Env, log: seq<Event>, d: Db, a: nat, fuel: nat, g: Gate, away: iset<NodeId>, least: int,
                   slack: nat)
    requires Framed(d, g, away) && Separate(d.def, env.cel, g, away) && StrategyOf(g.join).WaitAll?
    requires Count(d.activities, g) >= Need(g) && a < |d.activities| && FiredBetween(log, d.log, g, least, slack)
    ensures FiresMore(log, d, ReachJoin(env, d, g.join, a, g.round, fuel), g, away, least, slack)
  {
    var fact := Fact.BranchReachedJoin(d.activities[a].node, g.join.id, g.round);
    var d1 := Append(d, fact, None);
    FactApart(d, fact, None, g, away);
    RowsApartFramed(d, d1, g, away);
    BetweenStays(log, d.log, d1.log, g, least, slack);
    TryFiresMore(env, d1, a, fuel, g);
    PassFires(env, log, d1, a, ReachJoin(env, d, g.join, a, g.round, fuel), fuel, g, away, least, slack);
  }

  lemma PassFires(env: Env, log: seq<Event>, d: Db, a: nat, r: Result<Db>, fuel: nat, g: Gate, away: iset<NodeId>,
                  least: int, slack: nat)
    requires Framed(d, g, away) && Separate(d.def, env.cel, g, away) && StrategyOf(g.join).WaitAll?
    requires Count(d.activities, g) >= Need(g) && a < |d.activities| && FiredBetween(log, d.log, g, least, slack)
    requires var fact := JoinSatisfied(g.join.id, Count(d.activities, g), g.expected, g.round);
             r == if fuel == 0 then Err(Diverges)
                  else PassJoin(env, Append(d, fact, None), g.join.id, a, g.round, fuel - 1)
    ensures FiresMore(log, d, r, g, away, least, slack)
  {
    if fuel > 0 && r.Ok? {
      var d1 := Append(d, JoinSatisfied(g.join.id, Count(d.activities, g), g.expected, g.round), None);
      PassApart(env, d1, g.join.id, a, g.round, fuel - 1, g, away);
      FiredAgain(log, d, d1, r.value, g, away, least, slack);
    }
  }

  lemma HomeFires(env: Env, log: seq<Event>, d: Db, outcome: AdvanceOutcome, trace: ResolveTrace, src: nat, fuel: nat,
                  g: Gate, away: iset<NodeId>, least: int, slack: nat)
    requires Framed(d, g, away) && Separate(d.def, env.cel, g, away) && StrategyOf(g.join).WaitAll?
    requires LeadsHome(g, outcome)
    requires Count(d.activities, g) >= Need(g) && src < |d.activities| && FiredBetween(log, d.log, g, least, slack)
    ensures FiresMore(log, d, ApplyOutcome(env, d, outcome, trace, src, g.round, fuel), g, away, least, slack)
  {
    var d1 := AppendMerges(d, d.activities[src].node, trace.merges, g.round);
    MergesApart(d, d.activities[src].node, trace.merges, g.round, g, away);
    HomeIsReach(env, d, outcome, trace, src, fuel, g);
    RowsApartFramed(d, d1, g, away);
    BetweenStays(log, d.log, d1.log, g, least, slack);
    ReachFires(env, log, d1, src, fuel, g, away, least, slack);
  }

  // ------------------------------------------------------------------ skipping the rest, at the threshold

  /** Skipping the others leaves no branch under way. */
  lemma NoneLeft(d: Db, exclude: nat, g: Gate)
    requires StrategyOf(g.join).SkipsRemaining() && exclude < |d.activities| && !d.IsActive(exclude)
    ensures NoneUnderWay(SkipRest(d, g.join, Some(exclude)).activities, g)
  {
    var d' := SkipRest(d, g.join, Some(exclude));
    forall i | 0 <= i < |d'.activities| && InRegion(d'.activities[i], g) ensures !d'.activities[i].status.Active? {
      if d.activities[i].status.Active? {
        assert SkippedBy(d.activities, i, Some(exclude));
      }
    }
  }

  lemma FiringStands(env: Env, log: seq<Event>, d: Db, a: nat, fuel: nat, g: Gate, away: iset<NodeId>)
    requires Framed(d, g, away) && Count(d.activities, g) == Need(g) && Clear(log, d.log, g)
    requires StrategyOf(g.join).SkipsRemaining()
    requires a < |d.activities| && !d.IsActive(a) && Separate(d.def, env.cel, g, away)
    ensures StandsAfter(log, TrySatisfyJoin(env, d, g.join, a, g.round, Some(a), fuel), g, away)
  {
    TryFires(env, d, a, fuel, g);
    var d2 := SkipRest(Append(d, Owed(g), None), g.join, Some(a));
    SkippedStands(log, d, a, d2, g, away);
    PassedStands(env, log, d2, a, TrySatisfyJoin(env, d, g.join, a, g.round, Some(a), fuel), fuel, g, away);
  }

  lemma PassedStands(env: Env, log: seq<Event>, d: Db, a: nat, r: Result<Db>, fuel: nat, g: Gate, away: iset<NodeId>)
    requires Standing(log, d, g, away) && a < |d.activities| && Separate(d.def, env.cel, g, away)
    requires r == if fuel == 0 then Err(Diverges) else PassJoin(env, d, g.join.id, a, g.round, fuel - 1)
    ensures StandsAfter(log, r, g, away)
  {
    if fuel > 0 {
      PassApart(env, d, g.join.id, a, g.round, fuel - 1, g, away);
      ApartThenStands(log, d, r, g, away);
    }
  }

  lemma SkippedStands(log: seq<Event>, d: Db, a: nat, d2: Db, g: Gate, away: iset<NodeId>)
    requires Framed(d, g, away) && Count(d.activities, g) == Need(g) && Clear(log, d.log, g)
    requires StrategyOf(g.join).SkipsRemaining() && a < |d.activities| && !d.IsActive(a) && Disjoint(g, away)
    requires d2 == SkipRest(Append(d, Owed(g), None), g.join, Some(a))
    ensures Standing(log, d2, g, away) && |d2.activities| == |d.activities| && d2.def == d.def
  {
    var d1 := Append(d, Owed(g), None);
    SkipRestApart(d1, g.join, Some(a), g, away);
    NoneLeft(d1, a, g);
    FiredStands(log, d, d2, g, away);
  }

  lemma TryFires(env: Env, d: Db, a: nat, fuel: nat, g: Gate)
    requires Expectation(d, g.join.id, g.round) == Ok((g.expected, g.branches)) && Count(d.activities, g) == Need(g)
    requires a < |d.activities|
    ensures var d2 := SkipRest(Append(d, Owed(g), None), g.join, Some(a));
            && |d2.activities| == |d.activities|
            && TrySatisfyJoin(env, d, g.join, a, g.round, Some(a), fuel)
            == if fuel == 0 then Err(Diverges) else PassJoin(env, d2, g.join.id, a, g.round, fuel - 1)
  {
    SatisfiedAtThreshold(StrategyOf(g.join), Need(g), g.expected);
    assert SatisfyJoin(d, g.join, Need(g), g.expected, g.round, Some(a))
        == SkipRest(Append(d, Owed(g), None), g.join, Some(a));
  }

  /** The state right after the firing. */
  lemma FiredStands(log: seq<Event>, d: Db, d2: Db, g: Gate, away: iset<NodeId>)
    requires Framed(d, g, away) && Count(d.activities, g) == Need(g) && Clear(log, d.log, g) && Disjoint(g, away)
    requires StrategyOf(g.join).SkipsRemaining()
    requires Apart(Append(d, Owed(g), None), d2, g, away) && NoneUnderWay(d2.activities, g)
    ensures Standing(log, d2, g, away)
  {
    var d1 := Append(d, Owed(g), None);
    RowsApartFramed(d, d2, g, away);
    ApartCounts(d1.activities, d2.activities, g, away);
    FiresNow(log, d.log, d1.log[|d.log|], d2.log, g);
  }

  // ------------------------------------------------------------------ an arrival

  /** The completion of a branch is its arrival at the join, in one move. */
  lemma ArrivalStands(env: Env, log: seq<Event>, d: Db, a: nat, d1: Db, signal: SignalType, fuel: nat, g: Gate,
                      away: iset<NodeId>)
    requires Standing(log, d, g, away) && Ends(d, a, d1, g) && InRegion(d.activities[a], g)
    requires ArrivesAs(d1.activities[a], g)
    requires FindNode(d.def.nodes, d.activities[a].node).Some?
    requires CompletionSignal(FindNode(d.def.nodes, d.activities[a].node).value.config) == Some(signal)
    requires Separate(d.def, env.cel, g, away)
    ensures StandsAfter(log, MoveOn(env, d1, a, signal, fuel), g, away)
  {
    assert BranchInto(d.def, d.activities[a].node, g.join.id);
    EdgeIntoJoin(d.def, env.cel, d1.Ctx(), d.activities[a].node, signal, g.join.id);
    ArrivalIsReach(env, d1, g, a, fuel);
    ReachStands(env, log, d, a, d1, fuel, g, away);
  }

  lemma ArrivalIsReach(env: Env, d: Db, g: Gate, a: nat, fuel: nat)
    requires a < |d.activities| && GateOk(d.def, g)
    ensures ApplyOutcome(env, d, AdvanceOutcome.Advance(g.join.id, None), EMPTY_TRACE, a, g.round, fuel)
         == ReachJoin(env, d, g.join, a, g.round, fuel)
  {
    ArrivalDispatch(env, d, g, a, fuel);
  }

  lemma ReachStands(env: Env, log: seq<Event>, d: Db, a: nat, d1: Db, fuel: nat, g: Gate, away: iset<NodeId>)
    requires Standing(log, d, g, away) && Ends(d, a, d1, g) && InRegion(d.activities[a], g)
    requires ArrivesAs(d1.activities[a], g)
    requires Separate(d.def, env.cel, g, away)
    ensures StandsAfter(log, ReachJoin(env, d1, g.join, a, g.round, fuel), g, away)
  {
    EndsFramed(d, a, d1, g, away);
    RowCounts(d.activities, g, a, d1.activities[a]);
    if Count(d1.activities, g) < Need(g) {
      ArrivalWaits(env, log, d, a, d1, fuel, g, away);
    } else if StrategyOf(g.join).SkipsRemaining() {
      ArrivalFires(env, log, d, a, d1, fuel, g, away);
    } else {
      ArrivalFiresMore(env, log, d, a, d1, fuel, g, away);
    }
  }

  /** Below the threshold the arrival is recorded and the join waits. */
  lemma ArrivalWaits(env: Env, log: seq<Event>, d: Db, a: nat, d1: Db, fuel: nat, g: Gate, away: iset<NodeId>)
    requires Standing(log, d, g, away) && Ends(d, a, d1, g) && Framed(d1, g, away) && Disjoint(g, away)
    requires Count(d.activities, g) < Need(g) && Count(d1.activities, g) < Need(g)
    ensures StandsAfter(log, ReachJoin(env, d1, g.join, a, g.round, fuel), g, away)
  {
    ClearTrans(log, d.log, d1.log, g);
    ReachWaits(env, d1, a, fuel, g, away);
    ApartThenStands(log, d1, ReachJoin(env, d1, g.join, a, g.round, fuel), g, away);
  }

  /** At the threshold the join fires, once, and the move goes on away from the region. */
  lemma ArrivalFires(env: Env, log: seq<Event>, d: Db, a: nat, d1: Db, fuel: nat, g: Gate, away: iset<NodeId>)
    requires Standing(log, d, g, away) && Ends(d, a, d1, g) && Framed(d1, g, away) && InRegion(d.activities[a], g)
    requires Count(d1.activities, g) == Count(d.activities, g) + 1 >= Need(g) && StrategyOf(g.join).SkipsRemaining()
    requires Separate(d.def, env.cel, g, away)
    ensures StandsAfter(log, ReachJoin(env, d1, g.join, a, g.round, fuel), g, away)
  {
    assert Count(d.activities, g) < Need(g);
    var fact := Fact.BranchReachedJoin(d1.activities[a].node, g.join.id, g.round);
    var d2 := Append(d1, fact, None);
    FactApart(d1, fact, None, g, away);
    RowsApartFramed(d1, d2, g, away);
    ClearTrans(log, d.log, d1.log, g);
    ClearTrans(log, d1.log, d2.log, g);
    FiringStands(env, log, d2, a, fuel, g, away);
  }

  /** Waiting for all, every arrival from the threshold on fires the join. */
  lemma ArrivalFiresMore(env: Env, log: seq<Event>, d: Db, a: nat, d1: Db, fuel: nat, g: Gate, away: iset<NodeId>)
    requires Standing(log, d, g, away) && Ends(d, a, d1, g) && Framed(d1, g, away) && ArrivesAs(d1.activities[a], g)
    requires Count(d1.activities, g) == Count(d.activities, g) + 1 >= Need(g) && StrategyOf(g.join).WaitAll?
    requires Separate(d.def, env.cel, g, away)
    ensures StandsAfter(log, ReachJoin(env, d1, g.join, a, g.round, fuel), g, away)
  {
    var least, slack := Count(d.activities, g) - Need(g) + 1, Slack(d.activities, g);
    if Count(d.activities, g) < Need(g) {
      ClearIsNone(log, d.log, g, slack);
    }
    BetweenStays(log, d.log, d1.log, g, least, slack);
    RowCounts(d.activities, g, a, d1.activities[a]);
    ReachFires(env, log, d1, a, fuel, g, away, least, slack);
    var r := ReachJoin(env, d1, g.join, a, g.round, fuel);
    if r.Ok? {
      ApartCounts(d1.activities, r.value.activities, g, away);
      ApartLost(d1.activities, r.value.activities, g, away);
    }
  }

  // ------------------------------------------------------------------ any move

  /** A decision that leads away changes nothing for the region. */
  lemma MoveStands(env: Env, log: seq<Event>, d: Db, d1: Db, outcome: AdvanceOutcome, trace: ResolveTrace, a: nat,
                   round: int, fuel: nat, g: Gate, away: iset<NodeId>)
    requires Standing(log, d, g, away) && Apart(d, d1, g, away) && Separate(d.def, env.cel, g, away)
    requires a < |d1.activities| && Harmless(g, away, round, outcome, trace.forEach)
    ensures StandsAfter(log, ApplyOutcome(env, d1, outcome, trace, a, round, fuel), g, away)
  {
    ApartStands(log, d, d1, g, away);
    ApplyApart(env, d1, outcome, trace, a, round, fuel, g, away);
    ApartThenStands(log, d1, ApplyOutcome(env, d1, outcome, trace, a, round, fuel), g, away);
  }

  /** Whatever ends on a signal without arriving as a branch decides for a node away from the region. */
  lemma DecidedAt(env: Env, d: Db, a: nat, ctx: Context, signal: SignalType, g: Gate, away: iset<NodeId>)
    requires Framed(d, g, away) && d.IsActive(a) && Separate(d.def, env.cel, g, away)
    requires InRegion(d.activities[a], g) ==> signal.Rejected? || signal.Returned?
    ensures var (outcome, trace) := DecideAdvance(d.def, env.cel, ctx, d.activities[a].node, signal);
            Harmless(g, away, d.activities[a].round, outcome, trace.forEach)
  {
    if d.activities[a].round == g.round && d.activities[a].node !in g.branches {
      assert DecidesAway(d.def, env.cel, away, d.activities[a].node, signal);
    }
  }

  /** Whatever activity ends and on whatever signal, the join stands afterwards as it should. */
  lemma EndedStands(env: Env, log: seq<Event>, d: Db, a: nat, d1: Db, signal: SignalType, fuel: nat, g: Gate,
                    away: iset<NodeId>)
    requires Standing(log, d, g, away) && Ends(d, a, d1, g) && Separate(d.def, env.cel, g, away)
    requires FindNode(d.def.nodes, d.activities[a].node).Some?
    requires ArrivesAs(d1.activities[a], g) ==>
               CompletionSignal(FindNode(d.def.nodes, d.activities[a].node).value.config) == Some(signal)
    requires InRegion(d.activities[a], g) && !ArrivesAs(d1.activities[a], g) ==> signal.Rejected? || signal.Returned?
    ensures StandsAfter(log, MoveOn(env, d1, a, signal, fuel), g, away)
  {
    if ArrivesAs(d1.activities[a], g) {
      ArrivalStands(env, log, d, a, d1, signal, fuel, g, away);
    } else {
      var (outcome, trace) := DecideAdvance(d1.def, env.cel, d1.Ctx(), d1.activities[a].node, signal);
      EndsApart(d, a, d1, g, away);
      DecidedAt(env, d, a, d1.Ctx(), signal, g, away);
      MoveStands(env, log, d, d1, outcome, trace, a, d.activities[a].round, fuel, g, away);
    }
  }

  // ------------------------------------------------------------------ a deadline

  /** A deadline decides for a node away from the region, or leads a branch of it home. */
  lemma TimedOutAt(env: Env, d: Db, a: nat, ctx: Context, g: Gate, away: iset<NodeId>)
    requires Framed(d, g, away) && d.IsActive(a) && Separate(d.def, env.cel, g, away)
    ensures var (outcome, trace) := DecideTimeout(d.def, env.cel, ctx, d.activities[a].node);
            || Harmless(g, away, d.activities[a].round, outcome, trace.forEach)
            || (g.deadlines && LeadsHome(g, outcome) && InRegion(d.activities[a], g))
  {
    var at := d.activities[a].node;
    if d.activities[a].round == g.round {
      if at in g.branches {
        assert InRegion(d.activities[a], g);
        assert IsBranch(d.def, g, at);
        assert BranchTimesOut(d.def, env.cel, g, away, at);
      } else {
        assert TimesOutAway(d.def, env.cel, away, at);
      }
    }
  }

  /** Short of the threshold a branch that times out into the join waits there. */
  lemma LateHomeWaits(env: Env, log: seq<Event>, d: Db, d1: Db, outcome: AdvanceOutcome, trace: ResolveTrace, a: nat,
                      fuel: nat, g: Gate, away: iset<NodeId>)
    requires Standing(log, d, g, away) && Apart(d, d1, g, away) && Disjoint(g, away)
    requires a < |d1.activities| && LeadsHome(g, outcome) && Count(d.activities, g) < Need(g)
    ensures StandsAfter(log, ApplyOutcome(env, d1, outcome, trace, a, g.round, fuel), g, away)
  {
    var d2 := AppendMerges(d1, d1.activities[a].node, trace.merges, g.round);
    HomeIsReach(env, d1, outcome, trace, a, fuel, g);
    MergesApart(d1, d1.activities[a].node, trace.merges, g.round, g, away);
    ApartStands(log, d, d1, g, away);
    ApartStands(log, d1, d2, g, away);
    ApartCounts(d.activities, d1.activities, g, away);
    ReachWaits(env, d2, a, fuel, g, away);
    ApartThenStands(log, d2, ReachJoin(env, d2, g.join, a, g.round, fuel), g, away);
  }

  /** From the threshold on a branch that times out into the join fires it. */
  lemma LateHomeFires(env: Env, log: seq<Event>, d: Db, d1: Db, outcome: AdvanceOutcome, trace: ResolveTrace, a: nat,
                      fuel: nat, g: Gate, away: iset<NodeId>)
    requires Standing(log, d, g, away) && Ends(d, a, d1, g) && InRegion(d.activities[a], g)
    requires !ArrivesAs(d1.activities[a], g)
    requires LeadsHome(g, outcome) && Count(d.activities, g) >= Need(g) && g.deadlines
    requires Separate(d.def, env.cel, g, away)
    ensures StandsAfter(log, ApplyOutcome(env, d1, outcome, trace, a, g.round, fuel), g, away)
  {
    assert StrategyOf(g.join).WaitAll?;
    var least, slack := Count(d.activities, g) - Need(g) + 1, Lost(d.activities, g);
    EndsFramed(d, a, d1, g, away);
    RowCounts(d.activities, g, a, d1.activities[a]);
    BetweenStays(log, d.log, d1.log, g, least, slack);
    HomeFires(env, log, d1, outcome, trace, a, fuel, g, away, least, slack);
    var r := ApplyOutcome(env, d1, outcome, trace, a, g.round, fuel);
    if r.Ok? {
      ApartCounts(d1.activities, r.value.activities, g, away);
      ApartLost(d1.activities, r.value.activities, g, away);
    }
  }

  lemma TimeoutStands(env: Env, log: seq<Event>, d: Db, a: nat, fuel: nat, g: Gate, away: iset<NodeId>)
    requires Standing(log, d, g, away) && Separate(d.def, env.cel, g, away) && d.IsActive(a)
    ensures StandsAfter(log, FireTimeout(env, d, a, fuel), g, away)
  {
    var d1, round := TimedOutDb(d, a), d.activities[a].round;
    assert Ends(d, a, d1, g) && !ArrivesAs(d1.activities[a], g);
    EndsApart(d, a, d1, g, away);
    TimedOutAt(env, d, a, d1.Ctx(), g, away);
    var (outcome, trace) := DecideTimeout(d1.def, env.cel, d1.Ctx(), d.activities[a].node);
    if Harmless(g, away, round, outcome, trace.forEach) {
      MoveStands(env, log, d, d1, outcome, trace, a, round, fuel, g, away);
    } else if Count(d.activities, g) < Need(g) {
      LateHomeWaits(env, log, d, d1, outcome, trace, a, fuel, g, away);
    } else {
      LateHomeFires(env, log, d, d1, outcome, trace, a, fuel, g, away);
    }
  }

  // ------------------------------------------------------------------ calls

  lemma SettledEnds(d: Db, a: nat, node: Node, cmd: SignalCommand, g: Gate)
    requires d.IsActive(a) && SettleSignal(d, a, node, cmd).Ok?
    ensures var d1 := SettleSignal(d, a, node, cmd).value;
            Ends(d, a, d1, g) && d1.activities == d.activities[a := ReviewedRow(d.activities[a], cmd)]
  {
    var d1 := ApplyContextWrites(d, node, d.activities[a].round, cmd.patch).value;
    assert d1.activities == d.activities && d1.def == d.def && Clear(d.log, d1.log, g);
    var d2 := ReviewShape(d1, a, cmd);
    var d3 := Review(d1, a, cmd).value;
    assert d3.activities == d.activities[a := ReviewedRow(d.activities[a], cmd)] && d3.def == d.def;
    ReviewedClear(d1, a, cmd, d2, d3, g);
    ClearTrans(d.log, d1.log, d3.log, g);
    ResumedClear(d3, a, g);
    ClearTrans(d.log, d3.log, ResumeIfWaiting(d3, a).log, g);
  }

  lemma ReviewedClear(d: Db, a: nat, cmd: SignalCommand, d1: Db, d2: Db, g: Gate)
    requires a < |d.activities| && Reviewed(d, a, cmd, d1, d2)
    ensures Clear(d.log, d2.log, g)
  {
  }

  lemma ResumedClear(d: Db, a: nat, g: Gate)
    requires a < |d.activities|
    ensures var d' := ResumeIfWaiting(d, a);
            d'.activities == d.activities && d'.def == d.def && Clear(d.log, d'.log, g)
  {
  }

  /** A signal that lets a branch arrive is the completion signal of its node; any other rejects or returns. */
  lemma ArrivingSignal(node: Node, row: Activity, cmd: SignalCommand, g: Gate)
    requires SignalFits(node, cmd.signal, cmd.eventType) && !IsClaim(cmd.signal) && InRegion(row, g)
    ensures if ArrivesAs(ReviewedRow(row, cmd), g) then CompletionSignal(node.config) == Some(cmd.signal)
            else cmd.signal.Rejected? || cmd.signal.Returned?
  {
  }

  lemma SignalStands(env: Env, log: seq<Event>, d: Db, cmd: SignalCommand, fuel: nat, g: Gate, away: iset<NodeId>)
    requires Standing(log, d, g, away) && Separate(d.def, env.cel, g, away)
    ensures var r := Signal(env, d, cmd, fuel);
            r.Ok? ==> Standing(log, r.value.0, g, away)
  {
    var r := Signal(env, d, cmd, fuel);
    if r.Ok? && !r.value.1 {
      var a := TargetActivity(d, cmd.activity).value;
      var node := NodeOf(d, d.activities[a].node).value;
      if IsClaim(cmd.signal) {
        ClaimApart(d, a, cmd, g, away);
        ApartStands(log, d, Claim(d, a, cmd), g, away);
      } else {
        var d1 := SettleSignal(d, a, node, cmd).value;
        SettledEnds(d, a, node, cmd, g);
        if InRegion(d.activities[a], g) {
          ArrivingSignal(node, d.activities[a], cmd, g);
        }
        EndedStands(env, log, d, a, d1, cmd.signal, fuel, g, away);
        assert MoveOn(env, d1, a, cmd.signal, fuel) == Ok(r.value.0);
      }
    }
  }

  lemma ClaimApart(d: Db, a: nat, cmd: SignalCommand, g: Gate, away: iset<NodeId>)
    ensures Apart(d, Claim(d, a, cmd), g, away)
  {
  }

  lemma ResubmitStands(env: Env, log: seq<Event>, d: Db, key: string, visible: bool, g: Gate, away: iset<NodeId>)
    requires Standing(log, d, g, away) && Disjoint(g, away)
    ensures var r := Resubmit(env, d, key, visible);
            r.Ok? ==> Standing(log, r.value.0, g, away)
  {
    var r := Resubmit(env, d, key, visible);
    if r.Ok? && !r.value.1 {
      var d1, entry, node := ResubmitShape(env, d, key, visible);
      ResubmittedApart(env, d, key, entry, node, d1, r.value.0, g, away);
      ApartStands(log, d, r.value.0, g, away);
    }
  }

  lemma ResubmittedApart(env: Env, d: Db, key: string, entry: Node, node: Node, d1: Db, d': Db, g: Gate,
                         away: iset<NodeId>)
    requires Begun(d.activities, g) && Calls.Resubmitted(env, d, key, entry, node, d1, d')
    ensures Apart(d, d', g, away)
  {
    var round := MaxRound(d.activities) + 1;
    BegunBelowMax(d.activities, g);
    assert Apart(d, d1, g, away);
    AdvanceApart(d1, node, entry.AssigneeRole(), round, g, away);
    ApartThen(d, d1, Ok(d'), g, away);
  }

  lemma EscalationApart(d: Db, a: nat, node: Node, g: Gate, away: iset<NodeId>)
    requires a < |d.activities|
    ensures Apart(d, FireEscalation(d, a, node).0, g, away)
  {
  }

  lemma OnTimerStands(env: Env, log: seq<Event>, d: Db, kind: TimerKind, a: nat, node: Node, fuel: nat, g: Gate,
                      away: iset<NodeId>)
    requires Standing(log, d, g, away) && Separate(d.def, env.cel, g, away) && d.IsActive(a)
    ensures var r := OnTimer(env, d, kind, a, node, fuel);
            r.Ok? ==> Standing(log, r.value.0, g, away)
  {
    match kind
    case Reminder => ApartStands(log, d, Enqueue(d, a, OutboxKind.NotifyReminder), g, away);
    case Escalation => EscalationStands(log, d, a, node, g, away);
    case Timeout => TimeoutStands(env, log, d, a, fuel, g, away);
  }

  lemma EscalationStands(log: seq<Event>, d: Db, a: nat, node: Node, g: Gate, away: iset<NodeId>)
    requires Standing(log, d, g, away) && d.IsActive(a) && Disjoint(g, away)
    ensures Standing(log, FireEscalation(d, a, node).0, g, away)
  {
    EscalationApart(d, a, node, g, away);
    ApartStands(log, d, FireEscalation(d, a, node).0, g, away);
  }

  lemma FireStands(env: Env, log: seq<Event>, d: Db, t: nat, fuel: nat, g: Gate, away: iset<NodeId>)
    requires Standing(log, d, g, away) && Separate(d.def, env.cel, g, away)
    ensures var r := FireTimer(env, d, t, fuel);
            r.Ok? ==> Standing(log, r.value.0, g, away)
  {
    var (d1, won) := MarkTimerFired(d, t);
    ApartStands(log, d, d1, g, away);
    if won && FireTimer(env, d, t, fuel).Ok? && !d1.status.IsTerminal() && d1.IsActive(d.timers[t].activity) {
      var a, fact := d.timers[t].activity, Fact.TimerFired(d.timers[t].kind, d.timers[t].activity);
      FactApart(d1, fact, None, g, away);
      ApartStands(log, d1, Append(d1, fact, None), g, away);
      OnTimerStands(env, log, Append(d1, fact, None), d.timers[t].kind, a, NodeOf(d1, d1.activities[a].node).value,
                    fuel, g, away);
    }
  }

  lemma DeliverStands(env: Env, log: seq<Event>, d: Db, a: nat, fuel: nat, g: Gate, away: iset<NodeId>)
    requires Standing(log, d, g, away) && Separate(d.def, env.cel, g, away) && RowsOk(d.def, d.activities)
    ensures StandsAfter(log, OnNotificationDelivered(env, d, a, fuel), g, away)
  {
    if !d.status.IsTerminal() && d.IsActive(a) && d.activities[a].activityType.Notification? {
      DeliveryEnds(d, a, g);
      DeliveredStands(env, log, d, a, SettleDelivery(d, a), fuel, g, away);
    }
  }

  lemma DeliveryEnds(d: Db, a: nat, g: Gate)
    requires d.IsActive(a) && d.activities[a].activityType.Notification? && !d.status.IsTerminal()
    ensures Ends(d, a, SettleDelivery(d, a), g)
    ensures InRegion(d.activities[a], g) ==> ArrivesAs(SettleDelivery(d, a).activities[a], g)
  {
  }

  lemma DeliveredStands(env: Env, log: seq<Event>, d: Db, a: nat, d1: Db, fuel: nat, g: Gate, away: iset<NodeId>)
    requires Standing(log, d, g, away) && Separate(d.def, env.cel, g, away) && RowsOk(d.def, d.activities)
    requires Ends(d, a, d1, g) && d.activities[a].activityType.Notification?
    requires InRegion(d.activities[a], g) ==> ArrivesAs(d1.activities[a], g)
    ensures StandsAfter(log, MoveOn(env, d1, a, SignalType.Completed, fuel), g, away)
  {
    EndedStands(env, log, d, a, d1, SignalType.Completed, fuel, g, away);
  }

  lemma CommitStands(env: Env, log: seq<Event>, d: Db, step: Step, fuel: nat, g: Gate, away: iset<NodeId>)
    requires Standing(log, d, g, away) && Separate(d.def, env.cel, g, away) && RowsOk(d.def, d.activities)
    ensures Standing(log, Commit(env, d, step, fuel), g, away)
  {
    match step
    case SignalStep(cmd) => SignalStands(env, log, d, cmd, fuel, g, away);
    case ResubmitStep(key, visible) => ResubmitStands(env, log, d, key, visible, g, away);
    case FireStep(t) => FireStands(env, log, d, t, fuel, g, away);
    case DeliverStep(a) => DeliverStands(env, log, d, a, fuel, g, away);
    case CallbackStep => ApartStands(log, d, OnCallbackDelivered(d), g, away);
    case DeadLetterStep(a, kind) =>
      FactApart(d, ActivityFailed(a, kind), None, g, away);
      ApartStands(log, d, OnDeadLetter(d, a, kind), g, away);
  }

  // ------------------------------------------------------------------ runs

  lemma {:induction false} RunStands(env: Env, log: seq<Event>, d: Db, steps: seq<Step>, fuel: nat, g: Gate,
                                     away: iset<NodeId>)
    requires Good(env, d) && Standing(log, d, g, away) && Separate(d.def, env.cel, g, away)
    ensures Standing(log, RunAll(env, d, steps, fuel), g, away)
  {
    if steps != [] {
      var init := steps[..|steps| - 1];
      RunStands(env, log, d, init, fuel, g, away);
      RunGood(env, d, init, fuel);
      CommitStands(env, log, RunAll(env, d, init, fuel), steps[|steps| - 1], fuel, g, away);
    }
  }

  lemma OpenStands(d: Db, g: Gate, away: iset<NodeId>)
    requires Open(d, g) && Fenced(d.activities, g, away) && Begun(d.activities, g)
    ensures Standing(d.log, d, g, away)
  {
  }

  /** How often a join fires. From an open region that only its branches lead into and nothing leads back into, in
      every run of any calls in any order: not while fewer branches than the threshold have arrived; then exactly
      once, with exactly that count, if the strategy skips the rest, after which no branch is under way; and
      otherwise once for every arrival from the threshold on, and at most once more for every branch that its
      deadline took to the join, none if no deadline leads there. */
  lemma JoinFirings(env: Env, d: Db, steps: seq<Step>, fuel: nat, g: Gate, away: iset<NodeId>)
    requires Good(env, d) && Open(d, g) && Separate(d.def, env.cel, g, away)
    requires Fenced(d.activities, g, away) && Begun(d.activities, g)
    ensures var d' := RunAll(env, d, steps, fuel);
            && d.log <= d'.log && CountRegion(d'.activities, g) == g.size
            && var fired := Firings(d'.log, g) - Firings(d.log, g);
               if Count(d'.activities, g) < Need(g) then fired == 0
               else if StrategyOf(g.join).SkipsRemaining() then
                 Count(d'.activities, g) == Need(g) && fired == 1 && FiredOnce(d.log, d'.log, g)
                     && NoneUnderWay(d'.activities, g)
               else
                 var due := Count(d'.activities, g) - Need(g) + 1;
                 due <= fired <= due + Slack(d'.activities, g) && AllDue(d.log, d'.log, g)
  {
    OpenStands(d, g, away);
    RunStands(env, d.log, d, steps, fuel, g, away);
    var d' := RunAll(env, d, steps, fuel);
    if Count(d'.activities, g) < Need(g) {
      ClearFires(d.log, d'.log, g);
    } else if StrategyOf(g.join).SkipsRemaining() {
      FiredCounts(d.log, d'.log, g);
    }
  }

  /** Strategies that skip the rest, and regions no larger than the join expects. */
  predicate Even(g: Gate) {
    StrategyOf(g.join).SkipsRemaining() || g.size <= g.expected
  }

  /** In such a region the join fires at most once in every run. */
  lemma EvenFiresOnce(env: Env, d: Db, steps: seq<Step>, fuel: nat, g: Gate, away: iset<NodeId>)
    requires Good(env, d) && Open(d, g) && Separate(d.def, env.cel, g, away) && Even(g)
    requires Fenced(d.activities, g, away) && Begun(d.activities, g)
    ensures var d' := RunAll(env, d, steps, fuel);
            Firings(d'.log, g) == Firings(d.log, g) + (if Count(d'.activities, g) < Need(g) then 0 else 1)
  {
    JoinFirings(env, d, steps, fuel, g, away);
    var acts := RunAll(env, d, steps, fuel).activities;
    ArrivedWithinRegion(acts, g);
    if Count(acts, g) == CountRegion(acts, g) {
      NoneIsLost(acts, g);
    }
  }

  lemma {:induction false} NoneIsLost(acts: seq<Activity>, g: Gate)
    requires forall i :: 0 <= i < |acts| && InRegion(acts[i], g) ==> Arrived(acts[i], g.branches, g.round)
    ensures Lost(acts, g) == 0 && Count(acts, g) == CountRegion(acts, g)
  {
    if acts != [] {
      NoneIsLost(acts[..|acts| - 1], g);
    }
  }

  /** No branch ended without arriving while the join still needed arrivals or, waiting for all, afterwards. */
  predicate AllCame(acts: seq<Activity>, g: Gate) {
    Count(acts, g) < Need(g) || !StrategyOf(g.join).SkipsRemaining() ==> NoneLost(acts, g)
  }

  /** How it ends: once no branch is under way and none was lost on the way, the join has fired exactly as often as
      the region allows. It has fired exactly once if and only if its threshold is at most the number of branches
      and, waiting for all, not less. */
  lemma FiresIffReachable(env: Env, d: Db, steps: seq<Step>, fuel: nat, g: Gate, away: iset<NodeId>)
    requires Good(env, d) && Open(d, g) && Separate(d.def, env.cel, g, away)
    requires Fenced(d.activities, g, away) && Begun(d.activities, g)
    requires var d' := RunAll(env, d, steps, fuel);
             NoneUnderWay(d'.activities, g) && AllCame(d'.activities, g)
    ensures var fired := Firings(RunAll(env, d, steps, fuel).log, g) - Firings(d.log, g);
            && fired == (if g.size < Need(g) then 0 else if StrategyOf(g.join).SkipsRemaining() then 1
                         else g.size - g.expected + 1)
            && (fired == 1 <==> Need(g) <= g.size && Even(g))
  {
    JoinFirings(env, d, steps, fuel, g, away);
    var acts := RunAll(env, d, steps, fuel).activities;
    ArrivedWithinRegion(acts, g);
    if Count(acts, g) < Need(g) || !StrategyOf(g.join).SkipsRemaining() {
      NoneIsLost(acts, g);
    }
  }

  // ------------------------------------------------------------------ entering the region

  /** A fan-out entered for the first time in its round opens the region and fences it, if whatever else is under
      way in the round is away from it. */
  lemma FanOutFences(env: Env, d: Db, targets: seq<ParallelTarget>, forEach: Option<FanOut>, src: nat, fuel: nat,
                     g: Gate, away: iset<NodeId>)
    requires d.status.Active? && src < |d.activities| && Untried(d.activities, g) && LeadsToGate(d, targets, forEach, g)
    requires Fenced(d.activities, g, away)
    requires FanOutTo(env, d, targets, forEach, src, g.round, fuel).Ok?
    ensures var d' := FanOutTo(env, d, targets, forEach, src, g.round, fuel).value;
            Open(d', g) && Count(d'.activities, g) == 0 && Fenced(d'.activities, g, away) && Begun(d'.activities, g)
  {
    FanOutOpens(env, d, targets, forEach, src, g, fuel);
    var d1 := MarkFanOut(d, targets, forEach, src, g.round);
    var d' := ScheduleTargets(d1, targets, g.round, forEach.Some?).value;
    TargetsAdded(d1, targets, g.round, forEach.Some?);
    AddedFenced(d1, targets, g, d', away);
  }

  lemma AddedFenced(d: Db, targets: seq<ParallelTarget>, g: Gate, d': Db, away: iset<NodeId>)
    requires AddsTargets(d, targets, g.round, d') && Fenced(d.activities, g, away) && targets != []
    requires forall i :: 0 <= i < |targets| ==> targets[i].node in g.branches
    ensures Fenced(d'.activities, g, away) && Begun(d'.activities, g)
  {
    var n := |d.activities|;
    forall i | 0 <= i < |d'.activities| && d'.activities[i].status.Active? && d'.activities[i].round == g.round
      ensures d'.activities[i].node in g.branches || d'.activities[i].node in away
    {
      if i < n {
        assert d'.activities[i] == d'.activities[..n][i] == d.activities[i];
      } else {
        assert d'.activities[n + (i - n)] == Fresh(d.def, i, targets[i - n].node, targets[i - n].role, g.round);
      }
    }
    assert d'.activities[n + 0] == Fresh(d.def, n + 0, targets[0].node, targets[0].role, g.round);
  }
}
