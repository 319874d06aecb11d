/** The surroundings of a fan-out and its join: which decisions stay out of the region, and that moves which do
    neither satisfy the join nor touch the branches' arrivals. */
module RegionFence {
  import opened Core
  import opened Routing
  import opened Facts
  import opened Database
  import opened Engine
  import opened Invariants
  import opened Preservation
  import opened JoinRegion

  // ------------------------------------------------------------------ the graph around the region

  predicate LeadsHome(g: Gate, outcome: AdvanceOutcome) {
    outcome.Advance? && outcome.target == g.join.id
  }

  /** A decision that names only nodes of `away`; a hand-back opens another round and may go anywhere. */
  predicate LeadsAway(away: iset<NodeId>, outcome: AdvanceOutcome, forEach: Option<FanOut>) {
    match outcome
    case Advance(target, _) => target in away
    case AdvanceMulti(targets) =>
      (forall i :: 0 <= i < |targets| ==> targets[i].node in away)
          && (forEach.Some? ==> forEach.value.joinTarget in away)
    case _ => true
  }

  ghost predicate DecidesAway(def: Definition, cel: Cel, away: iset<NodeId>, at: NodeId, signal: SignalType) {
    forall ctx :: LeadsAway(away, DecideAdvance(def, cel, ctx, at, signal).0,
                            DecideAdvance(def, cel, ctx, at, signal).1.forEach)
  }

  ghost predicate TimesOutAway(def: Definition, cel: Cel, away: iset<NodeId>, at: NodeId) {
    forall ctx :: LeadsAway(away, DecideTimeout(def, cel, ctx, at).0, DecideTimeout(def, cel, ctx, at).1.forEach)
  }

  /** A branch decides for the join or for a node of `away`. */
  ghost predicate BranchDecides(def: Definition, cel: Cel, g: Gate, away: iset<NodeId>, at: NodeId, signal: SignalType)
  {
    forall ctx ::
      || LeadsHome(g, DecideAdvance(def, cel, ctx, at, signal).0)
      || LeadsAway(away, DecideAdvance(def, cel, ctx, at, signal).0, DecideAdvance(def, cel, ctx, at, signal).1.forEach)
  }

  /** A branch's deadline decides for a node of `away`, or for the join if the gate allows it. */
  ghost predicate BranchTimesOut(def: Definition, cel: Cel, g: Gate, away: iset<NodeId>, at: NodeId) {
    forall ctx ::
      || (g.deadlines && LeadsHome(g, DecideTimeout(def, cel, ctx, at).0))
      || LeadsAway(away, DecideTimeout(def, cel, ctx, at).0, DecideTimeout(def, cel, ctx, at).1.forEach)
  }

  /** Only the branches lead to the join, and neither the join nor anything past it or beside it leads back to a
      branch within a round: `away` holds the nodes past and beside, and is closed under their decisions. */
  ghost predicate Separate(def: Definition, cel: Cel, g: Gate, away: iset<NodeId>) {
    && g.join.id !in away && (forall b :: b in g.branches ==> b !in away)
    && DecidesAway(def, cel, away, g.join.id, SignalType.Approved)
    && (forall at, signal :: at in away ==> DecidesAway(def, cel, away, at, signal))
    && (forall at :: at in away ==> TimesOutAway(def, cel, away, at))
    && (forall at, signal :: IsBranch(def, g, at) ==> BranchDecides(def, cel, g, away, at, signal))
    && (forall at :: IsBranch(def, g, at) ==> BranchTimesOut(def, cel, g, away, at))
  }

  /** A node the join counts and that completes straight into it. */
  predicate IsBranch(def: Definition, g: Gate, at: NodeId) {
    at in g.branches && BranchInto(def, at, g.join.id)
  }

  /** Every activity under way in the round is a branch or away from the region. */
  ghost predicate Fenced(acts: seq<Activity>, g: Gate, away: iset<NodeId>) {
    forall i :: 0 <= i < |acts| && acts[i].status.Active? && acts[i].round == g.round ==>
        acts[i].node in g.branches || acts[i].node in away
  }

  predicate Begun(acts: seq<Activity>, g: Gate) {
    exists i :: 0 <= i < |acts| && acts[i].round == g.round
  }

  // ------------------------------------------------------------------ firings in the log

  predicate IsFiring(fact: Fact, g: Gate) {
    fact.JoinSatisfied? && fact.join == g.join.id && fact.round == g.round
  }

  /** A fan-out over items towards the join, which changes what the join expects. */
  predicate IsRefan(fact: Fact, g: Gate) {
    fact.ForEachFannedOut? && fact.join == g.join.id && fact.round == g.round
  }

  /** Facts about the join: its firings and the fan-outs over items towards it. */
  predicate Bears(fact: Fact, g: Gate) {
    IsFiring(fact, g) || IsRefan(fact, g)
  }

  predicate Clear(log: seq<Event>, log': seq<Event>, g: Gate) {
    log <= log' && forall i :: |log| <= i < |log'| ==> !Bears(log'[i].fact, g)
  }

  predicate Unfanned(log: seq<Event>, log': seq<Event>, g: Gate) {
    log <= log' && forall i :: |log| <= i < |log'| ==> !IsRefan(log'[i].fact, g)
  }

  function Firings(log: seq<Event>, g: Gate): nat {
    if log == [] then 0
    else Firings(log[..|log| - 1], g) + (if IsFiring(log[|log| - 1].fact, g) then 1 else 0)
  }

  lemma ClearTrans(a: seq<Event>, b: seq<Event>, c: seq<Event>, g: Gate)
    requires Clear(a, b, g) && Clear(b, c, g)
    ensures Clear(a, c, g)
  {
    forall i | |a| <= i < |c| ensures !Bears(c[i].fact, g) {
      if i < |b| { assert c[i] == b[i]; }
    }
  }

  lemma {:induction false} ClearFires(log: seq<Event>, log': seq<Event>, g: Gate)
    requires Clear(log, log', g)
    ensures Firings(log', g) == Firings(log, g)
    decreases |log'|
  {
    if log' != log {
      ClearFires(log, log'[..|log'| - 1], g);
    }
  }

  lemma {:induction false} UnfannedCounts(log: seq<Event>, log': seq<Event>, g: Gate)
    requires Unfanned(log, log', g)
    ensures ForEachBranchCount(log', g.join.id, g.round) == ForEachBranchCount(log, g.join.id, g.round)
    decreases |log'|
  {
    if log' != log {
      assert !IsRefan(log'[|log'| - 1].fact, g);
      UnfannedCounts(log, log'[..|log'| - 1], g);
    }
  }

  /** The one firing the region owes, with exactly the count it needed. */
  function Owed(g: Gate): Fact {
    JoinSatisfied(g.join.id, Need(g), g.expected, g.round)
  }

  predicate FiredAt(log: seq<Event>, log': seq<Event>, g: Gate, p: nat) {
    && |log| <= p < |log'| && log'[p].fact == Owed(g)
    && Clear(log, log'[..p], g) && Clear(log'[..p + 1], log', g)
  }

  /** The join has fired once since `log`, as owed. */
  predicate FiredOnce(log: seq<Event>, log': seq<Event>, g: Gate) {
    exists p: nat :: p < |log'| && FiredAt(log, log', g, p)
  }

  lemma FiredCounts(log: seq<Event>, log': seq<Event>, g: Gate)
    requires FiredOnce(log, log', g)
    ensures log <= log' && Firings(log', g) == Firings(log, g) + 1
  {
    var p: nat :| p < |log'| && FiredAt(log, log', g, p);
    ClearFires(log, log'[..p], g);
    ClearFires(log'[..p + 1], log', g);
    assert log'[..p + 1][..p] == log'[..p];
  }

  lemma FiredStays(log: seq<Event>, log1: seq<Event>, log2: seq<Event>, g: Gate)
    requires FiredOnce(log, log1, g) && Clear(log1, log2, g)
    ensures FiredOnce(log, log2, g)
  {
    var p: nat :| p < |log1| && FiredAt(log, log1, g, p);
    assert log2[..p] == log1[..p] && log2[..p + 1] == log1[..p + 1];
    ClearTrans(log1[..p + 1], log1, log2, g);
    assert FiredAt(log, log2, g, p);
  }

  lemma FiresNow(log: seq<Event>, log1: seq<Event>, e: Event, log2: seq<Event>, g: Gate)
    requires Clear(log, log1, g) && e.fact == Owed(g) && Clear(log1 + [e], log2, g)
    ensures FiredOnce(log, log2, g)
  {
    var p := |log1|;
    assert log2[..p + 1] == log1 + [e];
    assert log2[..p] == log2[..p + 1][..p] == log1;
    assert FiredAt(log, log2, g, p);
  }

  /** Every firing since `log` came with enough arrivals for what the join expects. */
  predicate AllDue(log: seq<Event>, log': seq<Event>, g: Gate) {
    forall i :: |log| <= i < |log'| && IsFiring(log'[i].fact, g) ==> IsDue(log'[i].fact, g)
  }

  predicate IsDue(fact: Fact, g: Gate)
    requires IsFiring(fact, g)
  {
    fact.arrived >= Need(g) && fact.expected == g.expected
  }

  /** The join has fired `least` times since `log`, or up to `slack` times more. */
  predicate FiredBetween(log: seq<Event>, log': seq<Event>, g: Gate, least: int, slack: nat) {
    && Unfanned(log, log', g) && AllDue(log, log', g)
    && Firings(log, g) + least <= Firings(log', g) <= Firings(log, g) + least + slack
  }

  lemma ClearIsNone(log: seq<Event>, log': seq<Event>, g: Gate, slack: nat)
    requires Clear(log, log', g)
    ensures FiredBetween(log, log', g, 0, slack)
  {
    ClearFires(log, log', g);
  }

  lemma BetweenStays(log: seq<Event>, log1: seq<Event>, log2: seq<Event>, g: Gate, least: int, slack: nat)
    requires FiredBetween(log, log1, g, least, slack) && Clear(log1, log2, g)
    ensures FiredBetween(log, log2, g, least, slack)
  {
    ClearFires(log1, log2, g);
    forall i | |log| <= i < |log2|
      ensures !IsRefan(log2[i].fact, g) && (IsFiring(log2[i].fact, g) ==> IsDue(log2[i].fact, g))
    {
      if i < |log1| { assert log2[i] == log1[i]; }
    }
  }

  lemma BetweenFires(log: seq<Event>, log1: seq<Event>, e: Event, g: Gate, least: int, slack: nat)
    requires FiredBetween(log, log1, g, least, slack) && IsFiring(e.fact, g) && IsDue(e.fact, g)
    ensures FiredBetween(log, log1 + [e], g, least + 1, slack)
  {
    assert (log1 + [e])[..|log1|] == log1;
  }

  // ------------------------------------------------------------------ steps that do not concern the region

  /** What becomes of a row: it stays where it is, does not come back to life, and no branch arrives. */
  predicate RowApart(a: Activity, b: Activity, g: Gate) {
    && b.node == a.node && b.round == a.round && (b.status.Active? ==> a.status.Active?)
    && (InRegion(a, g) ==> (Arrived(b, g.branches, g.round) <==> Arrived(a, g.branches, g.round)))
  }

  ghost predicate RowsApart(acts: seq<Activity>, acts': seq<Activity>, g: Gate, away: iset<NodeId>) {
    && |acts| <= |acts'|
    && (forall i :: 0 <= i < |acts| ==> RowApart(acts[i], acts'[i], g))
    && (forall i :: |acts| <= i < |acts'| ==> acts'[i].round != g.round || acts'[i].node in away)
  }

  ghost predicate Apart(d: Db, d': Db, g: Gate, away: iset<NodeId>) {
    d'.def == d.def && Clear(d.log, d'.log, g) && RowsApart(d.activities, d'.activities, g, away)
  }

  ghost predicate ApartAfter(d: Db, r: Result<Db>, g: Gate, away: iset<NodeId>) {
    r.Ok? ==> Apart(d, r.value, g, away)
  }

  lemma RowsApartTrans(a: seq<Activity>, b: seq<Activity>, c: seq<Activity>, g: Gate, away: iset<NodeId>)
    requires RowsApart(a, b, g, away) && RowsApart(b, c, g, away)
    ensures RowsApart(a, c, g, away)
  {
    forall i | 0 <= i < |a| ensures RowApart(a[i], c[i], g) {
      assert RowApart(a[i], b[i], g) && RowApart(b[i], c[i], g);
    }
    forall i | |a| <= i < |c| ensures c[i].round != g.round || c[i].node in away {
      if i < |b| { assert RowApart(b[i], c[i], g); }
    }
  }

  lemma ApartThen(d: Db, d1: Db, r: Result<Db>, g: Gate, away: iset<NodeId>)
    requires Apart(d, d1, g, away) && ApartAfter(d1, r, g, away)
    ensures ApartAfter(d, r, g, away)
  {
    if r.Ok? {
      RowsApartTrans(d.activities, d1.activities, r.value.activities, g, away);
      ClearTrans(d.log, d1.log, r.value.log, g);
    }
  }

  lemma {:induction false} ApartCounts(acts: seq<Activity>, acts': seq<Activity>, g: Gate, away: iset<NodeId>)
    requires RowsApart(acts, acts', g, away) && (forall b :: b in g.branches ==> b !in away)
    ensures Count(acts', g) == Count(acts, g) && CountRegion(acts', g) == CountRegion(acts, g)
    decreases |acts'|
  {
    if acts' != [] {
      var init' := acts'[..|acts'| - 1];
      if |acts| < |acts'| {
        ApartCounts(acts, init', g, away);
      } else {
        var init := acts[..|acts| - 1];
        forall i | 0 <= i < |init| ensures RowApart(init[i], init'[i], g) {
          assert RowApart(acts[i], acts'[i], g);
        }
        assert RowApart(acts[|acts| - 1], acts'[|acts| - 1], g);
        ApartCounts(init, init', g, away);
      }
    }
  }

  lemma BegunStays(acts: seq<Activity>, acts': seq<Activity>, g: Gate, away: iset<NodeId>)
    requires RowsApart(acts, acts', g, away) && Begun(acts, g)
    ensures Begun(acts', g)
  {
    var i :| 0 <= i < |acts| && acts[i].round == g.round;
    assert RowApart(acts[i], acts'[i], g);
  }

  // ------------------------------------------------------------------ moves away from the region

  lemma FactApart(d: Db, fact: Fact, key: Option<string>, g: Gate, away: iset<NodeId>)
    requires !Bears(fact, g)
    ensures Apart(d, Append(d, fact, key), g, away)
  {
  }

  lemma ScheduledApart(d: Db, node: NodeId, role: Option<Role>, round: int, via: Via, d': Db, g: Gate,
                       away: iset<NodeId>)
    requires Scheduled(d, node, role, round, via, d') && (round == g.round ==> node in away)
    ensures Apart(d, d', g, away)
  {
  }

  lemma ScheduleApart(d: Db, node: Node, role: Option<Role>, round: int, via: Via, g: Gate, away: iset<NodeId>)
    requires FindNode(d.def.nodes, node.id) == Some(node) && (round == g.round ==> node.id in away)
    ensures var r := ScheduleActivity(d, node, role, round, via);
            r.Ok? ==> Apart(d, r.value.0, g, away)
  {
    if !node.config.SubWorkflow? {
      ScheduleShape(d, node, role, round, via);
      ScheduledApart(d, node.id, role, round, via, ScheduleActivity(d, node, role, round, via).value.0, g, away);
    }
  }

  lemma AdvanceApart(d: Db, node: Node, role: Option<Role>, round: int, g: Gate, away: iset<NodeId>)
    requires FindNode(d.def.nodes, node.id) == Some(node) && (round == g.round ==> node.id in away)
    ensures ApartAfter(d, AdvanceTo(d, node, role, round), g, away)
  {
    ScheduleApart(d, node, role, round, Linear, g, away);
  }

  lemma {:induction false} TargetsApart(d: Db, targets: seq<ParallelTarget>, round: int, byForEach: bool, g: Gate,
                                        away: iset<NodeId>)
    requires round == g.round ==> forall i :: 0 <= i < |targets| ==> targets[i].node in away
    ensures ApartAfter(d, ScheduleTargets(d, targets, round, byForEach), g, away)
    decreases |targets|
  {
    if targets != [] && ScheduleTargets(d, targets, round, byForEach).Ok? {
      var node := FindNode(d.def.nodes, targets[0].node).value;
      var via := Fanned(byForEach, targets[0].item);
      ScheduleApart(d, node, targets[0].role, round, via, g, away);
      var d1 := ScheduleActivity(d, node, targets[0].role, round, via).value.0;
      TargetsApart(d1, targets[1..], round, byForEach, g, away);
      ApartThen(d, d1, ScheduleTargets(d, targets, round, byForEach), g, away);
    }
  }

  lemma CompleteApart(env: Env, d: Db, result: WorkflowResult, g: Gate, away: iset<NodeId>)
    ensures ApartAfter(d, CompleteInstance(env, d, result), g, away)
  {
    CompleteShape(env, d, result);
  }

  lemma FailApart(d: Db, g: Gate, away: iset<NodeId>)
    ensures Apart(d, FailInstance(d), g, away)
  {
  }

  lemma BegunBelowMax(acts: seq<Activity>, g: Gate)
    requires Begun(acts, g)
    ensures g.round <= MaxRound(acts)
  {
    MaxRoundIsMax(acts);
  }

  lemma HandBackApart(env: Env, d: Db, target: NodeId, role: Option<Role>, src: nat, g: Gate, away: iset<NodeId>)
    requires src < |d.activities| && Begun(d.activities, g)
    ensures ApartAfter(d, HandBack(env, d, target, role, src), g, away)
  {
    var d1 := HandBackShape(env, d, target, role, src);
    BegunBelowMax(d.activities, g);
    if CanHandBack(env, d, target) {
      HandedBackApart(d, target, role, d.activities[src].node, d1, HandBack(env, d, target, role, src).value, g, away);
    }
  }

  lemma HandedBackApart(d: Db, node: NodeId, role: Option<Role>, from: NodeId, d1: Db, d': Db, g: Gate,
                        away: iset<NodeId>)
    requires HandedBack(d, node, role, from, d1, d') && g.round <= MaxRound(d.activities)
    ensures Apart(d, d', g, away)
  {
    ScheduledApart(d, node, role, MaxRound(d.activities) + 1, Linear, d1, g, away);
    ApartThen(d, d1, Ok(d'), g, away);
  }

  lemma SkipApart(d: Db, exclude: Option<nat>, g: Gate, away: iset<NodeId>)
    ensures Apart(d, SkipOthers(d, exclude), g, away)
  {
  }

  lemma SatisfyApart(d: Db, join: Node, arrived: int, expected: int, round: int, exclude: Option<nat>, g: Gate,
                     away: iset<NodeId>)
    requires round != g.round || join.id != g.join.id
    ensures Apart(d, SatisfyJoin(d, join, arrived, expected, round, exclude), g, away)
  {
    var d1 := Append(d, JoinSatisfied(join.id, arrived, expected, round), None);
    FactApart(d, JoinSatisfied(join.id, arrived, expected, round), None, g, away);
    SkipRestApart(d1, join, exclude, g, away);
    ApartThen(d, d1, Ok(SatisfyJoin(d, join, arrived, expected, round, exclude)), g, away);
  }

  function SkipRest(d: Db, join: Node, exclude: Option<nat>): Db {
    if !StrategyOf(join).SkipsRemaining() || !SkipsAny(d, exclude) then d
    else Append(SkipOthers(d, exclude), ActivitySkipped(None), None)
  }

  lemma SkipRestApart(d: Db, join: Node, exclude: Option<nat>, g: Gate, away: iset<NodeId>)
    ensures Apart(d, SkipRest(d, join, exclude), g, away)
  {
    if StrategyOf(join).SkipsRemaining() && SkipsAny(d, exclude) {
      SkipApart(d, exclude, g, away);
      FactApart(SkipOthers(d, exclude), ActivitySkipped(None), None, g, away);
      ApartThen(d, SkipOthers(d, exclude), Ok(Append(SkipOthers(d, exclude), ActivitySkipped(None), None)), g, away);
    }
  }

  /** A decision in another round, or one that leads away. */
  predicate Harmless(g: Gate, away: iset<NodeId>, round: int, outcome: AdvanceOutcome, forEach: Option<FanOut>) {
    round == g.round ==> LeadsAway(away, outcome, forEach)
  }

  lemma DispatchApart(env: Env, d: Db, outcome: AdvanceOutcome, forEach: Option<FanOut>, src: nat, round: int,
                      fuel: nat, g: Gate, away: iset<NodeId>)
    requires Separate(d.def, env.cel, g, away) && Begun(d.activities, g) && src < |d.activities|
    requires Harmless(g, away, round, outcome, forEach)
    ensures ApartAfter(d, Dispatch(env, d, outcome, forEach, src, round, fuel), g, away)
    decreases fuel, 1
  {
    match outcome
    case Advance(target, role) =>
      if FindNode(d.def.nodes, target).Some? {
        var node := FindNode(d.def.nodes, target).value;
        if node.config.ParallelJoin? {
          ReachApart(env, d, node, src, round, fuel, g, away);
        } else {
          AdvanceApart(d, node, role, round, g, away);
        }
      }
    case AdvanceMulti(targets) => FanOutApart(env, d, targets, forEach, src, round, fuel, g, away);
    case Complete(result) => CompleteApart(env, d, result, g, away);
    case Rework(target, role) => HandBackApart(env, d, target, role, src, g, away);
    case Error => FailApart(d, g, away);
  }

  lemma ReachApart(env: Env, d: Db, join: Node, src: nat, round: int, fuel: nat, g: Gate, away: iset<NodeId>)
    requires Separate(d.def, env.cel, g, away) && Begun(d.activities, g) && src < |d.activities|
    requires round == g.round ==> join.id in away
    ensures ApartAfter(d, ReachJoin(env, d, join, src, round, fuel), g, away)
    decreases fuel, 0, 1
  {
    var fact := Fact.BranchReachedJoin(d.activities[src].node, join.id, round);
    FactApart(d, fact, None, g, away);
    TryApart(env, Append(d, fact, None), join, src, round, Some(src), fuel, g, away);
    ApartThen(d, Append(d, fact, None), ReachJoin(env, d, join, src, round, fuel), g, away);
  }

  lemma MarkApart(d: Db, targets: seq<ParallelTarget>, forEach: Option<FanOut>, src: nat, round: int, g: Gate,
                  away: iset<NodeId>)
    requires src < |d.activities| && g.join.id !in away
    requires round == g.round && forEach.Some? ==> forEach.value.joinTarget in away
    ensures Apart(d, MarkFanOut(d, targets, forEach, src, round), g, away)
  {
  }

  lemma FanOutApart(env: Env, d: Db, targets: seq<ParallelTarget>, forEach: Option<FanOut>, src: nat, round: int,
                    fuel: nat, g: Gate, away: iset<NodeId>)
    requires Separate(d.def, env.cel, g, away) && Begun(d.activities, g) && src < |d.activities|
    requires Harmless(g, away, round, AdvanceMulti(targets), forEach)
    ensures ApartAfter(d, FanOutTo(env, d, targets, forEach, src, round, fuel), g, away)
    decreases fuel, 0, 1
  {
    var d1 := MarkFanOut(d, targets, forEach, src, round);
    MarkApart(d, targets, forEach, src, round, g, away);
    if targets == [] && forEach.Some? {
      if NodeOf(d1, forEach.value.joinTarget).Ok? {
        TryApart(env, d1, NodeOf(d1, forEach.value.joinTarget).value, src, round, None, fuel, g, away);
      }
    } else {
      TargetsApart(d1, targets, round, forEach.Some?, g, away);
    }
    ApartThen(d, d1, FanOutTo(env, d, targets, forEach, src, round, fuel), g, away);
  }

  lemma TryApart(env: Env, d: Db, join: Node, src: nat, round: int, exclude: Option<nat>, fuel: nat, g: Gate,
                 away: iset<NodeId>)
    requires Separate(d.def, env.cel, g, away) && Begun(d.activities, g) && src < |d.activities|
    requires round == g.round ==> join.id in away
    ensures ApartAfter(d, TrySatisfyJoin(env, d, join, src, round, exclude, fuel), g, away)
    decreases fuel, 0, 0
  {
    var expectation := Expectation(d, join.id, round);
    if expectation.Ok? && fuel > 0 {
      var (expected, branches) := expectation.value;
      var arrived := CountArrived(d.activities, branches, round);
      var d1 := SatisfyJoin(d, join, arrived, expected, round, exclude);
      SatisfyApart(d, join, arrived, expected, round, exclude, g, away);
      BegunStays(d.activities, d1.activities, g, away);
      PassApart(env, d1, join.id, src, round, fuel - 1, g, away);
      ApartThen(d, d1, PassJoin(env, d1, join.id, src, round, fuel - 1), g, away);
    }
  }

  lemma PassApart(env: Env, d: Db, join: NodeId, src: nat, round: int, fuel: nat, g: Gate, away: iset<NodeId>)
    requires Separate(d.def, env.cel, g, away) && Begun(d.activities, g) && src < |d.activities|
    requires round == g.round ==> join in away || join == g.join.id
    ensures ApartAfter(d, PassJoin(env, d, join, src, round, fuel), g, away)
    decreases fuel, 3
  {
    var (outcome, trace) := DecideAdvance(d.def, env.cel, d.Ctx(), join, SignalType.Approved);
    if round == g.round {
      assert DecidesAway(d.def, env.cel, away, join, SignalType.Approved);
    }
    ApplyApart(env, d, outcome, trace, src, round, fuel, g, away);
  }

  lemma {:induction false} MergesApart(d: Db, from: NodeId, merges: seq<NodeId>, round: int, g: Gate,
                                       away: iset<NodeId>)
    ensures Apart(d, AppendMerges(d, from, merges, round), g, away)
    decreases |merges|
  {
    if merges != [] {
      var d1 := Append(d, MergePassed(from, merges[0], round), None);
      FactApart(d, MergePassed(from, merges[0], round), None, g, away);
      MergesApart(d1, from, merges[1..], round, g, away);
      ApartThen(d, d1, Ok(AppendMerges(d1, from, merges[1..], round)), g, away);
    }
  }

  lemma ApplyApart(env: Env, d: Db, outcome: AdvanceOutcome, trace: ResolveTrace, src: nat, round: int, fuel: nat,
                   g: Gate, away: iset<NodeId>)
    requires Separate(d.def, env.cel, g, away) && Begun(d.activities, g) && src < |d.activities|
    requires Harmless(g, away, round, outcome, trace.forEach)
    ensures ApartAfter(d, ApplyOutcome(env, d, outcome, trace, src, round, fuel), g, away)
    decreases fuel, 2
  {
    var d1 := AppendMerges(d, d.activities[src].node, trace.merges, round);
    MergesKeepRows(d, d.activities[src].node, trace.merges, round);
    MergesApart(d, d.activities[src].node, trace.merges, round, g, away);
    DispatchApart(env, d1, outcome, trace.forEach, src, round, fuel, g, away);
    ApartThen(d, d1, ApplyOutcome(env, d, outcome, trace, src, round, fuel), g, away);
  }
}
