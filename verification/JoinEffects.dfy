/** What a branch that reaches a join leaves: how many arrivals the join waits for and counts, what is logged and
    skipped when they are enough, and how the graph moves on. */
module JoinEffects {
  import opened Core
  import opened Routing
  import opened Validation
  import opened Facts
  import opened Database
  import opened Engine
  import opened Effects

  // ------------------------------------------------------------------ what a join expects

  /** The latest fan-out over items towards the join in the round. */
  predicate LatestFanOut(log: seq<Event>, join: NodeId, round: int, p: nat) {
    && p < |log| && FansTowards(log[p].fact, join, round)
    && forall q :: p < q < |log| ==> !FansTowards(log[q].fact, join, round)
  }

  predicate FansTowards(fact: Fact, join: NodeId, round: int) {
    fact.ForEachFannedOut? && fact.join == join && fact.round == round
  }

  lemma {:induction false} LatestCounts(log: seq<Event>, join: NodeId, round: int)
    ensures forall p: nat :: LatestFanOut(log, join, round, p) ==>
              ForEachBranchCount(log, join, round) == Some(log[p].fact.branchCount)
    ensures (forall p :: 0 <= p < |log| ==> !FansTowards(log[p].fact, join, round)) ==>
              ForEachBranchCount(log, join, round) == None
  {
    if log != [] && !FansTowards(log[|log| - 1].fact, join, round) {
      var init := log[..|log| - 1];
      LatestCounts(init, join, round);
      forall p: nat | LatestFanOut(log, join, round, p) ensures LatestFanOut(init, join, round, p) {
      }
    }
  }

  /** The edges a join counts: those that lead to it on the completion of an activity. */
  predicate CountsEdge(t: Transition, join: NodeId) {
    t.to == join && (t.onSignal.Approved? || t.onSignal.Completed? || t.onSignal.EventReceived?)
  }

  function EdgesInto(ts: seq<Transition>, join: NodeId): set<nat> {
    set k: nat | k < |ts| && CountsEdge(ts[k], join)
  }

  lemma {:induction false} IncomingExactly(ts: seq<Transition>, join: NodeId)
    ensures |Incoming(ts, join)| == |EdgesInto(ts, join)|
    ensures forall t :: t in Incoming(ts, join) <==> t in ts && CountsEdge(t, join)
  {
    if ts == [] {
      assert EdgesInto(ts, join) == {};
    } else {
      IncomingExactly(ts[1..], join);
      EdgesPush(ts, join);
      assert ts == [ts[0]] + ts[1..];
    }
  }

  lemma EdgesPush(ts: seq<Transition>, join: NodeId)
    requires ts != []
    ensures |EdgesInto(ts, join)| == |EdgesInto(ts[1..], join)| + (if CountsEdge(ts[0], join) then 1 else 0)
  {
    var rest := EdgesInto(ts[1..], join);
    var shifted := set k | k in rest :: k + 1;
    ShiftKeepsSize(rest, shifted);
    var first: set<nat> := if CountsEdge(ts[0], join) then {0} else {};
    forall k: nat ensures k in EdgesInto(ts, join) <==> k in shifted + first {
      if k > 0 && k < |ts| {
        assert ts[1..][k - 1] == ts[k];
        assert k in shifted <==> k - 1 in rest;
      }
    }
    assert EdgesInto(ts, join) == shifted + first && shifted !! first;
  }

  lemma {:induction false} ShiftKeepsSize(s: set<nat>, t: set<nat>)
    requires t == set k | k in s :: k + 1
    ensures |t| == |s|
    decreases |s|
  {
    if s != {} {
      var x :| x in s;
      var u := set k | k in s - {x} :: k + 1;
      forall y: nat ensures y in t - {x + 1} <==> y in u {
        assert y in t <==> y > 0 && y - 1 in s;
        assert y in u <==> y > 0 && y - 1 in s - {x};
      }
      assert t - {x + 1} == u;
      ShiftKeepsSize(s - {x}, t - {x + 1});
    }
  }

  /** The rows that have arrived at a join from these nodes in the round: completed, and neither rejected nor
      returned. */
  function ArrivedRows(acts: seq<Activity>, sources: seq<NodeId>, round: int): set<nat> {
    set i: nat | i < |acts| && HasArrived(acts[i], sources, round)
  }

  predicate HasArrived(a: Activity, sources: seq<NodeId>, round: int) {
    && a.status.Completed? && a.round == round && a.node in sources
    && (a.result.Some? ==> !a.result.value.Rejected? && !a.result.value.Returned?)
  }

  lemma {:induction false} CountsRows(acts: seq<Activity>, sources: seq<NodeId>, round: int)
    ensures CountArrived(acts, sources, round) == |ArrivedRows(acts, sources, round)|
  {
    if acts == [] {
      assert ArrivedRows(acts, sources, round) == {};
    } else {
      var init, n := acts[..|acts| - 1], |acts| - 1;
      CountsRows(init, sources, round);
      var last: set<nat> := if HasArrived(acts[n], sources, round) then {n} else {};
      assert ArrivedRows(acts, sources, round) == ArrivedRows(init, sources, round) + last;
      assert ArrivedRows(init, sources, round) !! last;
    }
  }

  /** The first ForEach in front of the join. */
  predicate FirstFeeder(nodes: seq<Node>, join: NodeId, i: nat) {
    && i < |nodes| && nodes[i].config.ForEach? && nodes[i].config.joinTarget == join
    && forall j :: 0 <= j < i ==> !(nodes[j].config.ForEach? && nodes[j].config.joinTarget == join)
  }

  lemma {:induction false} FeederFound(nodes: seq<Node>, join: NodeId, i: nat)
    requires FirstFeeder(nodes, join, i)
    ensures ForEachTemplate(nodes, join) == Some(nodes[i].config.branchTemplate)
  {
    if i > 0 {
      assert nodes[1..][i - 1] == nodes[i];
      FeederFound(nodes[1..], join, i - 1);
    }
  }

  /** A join fed by items expects as many arrivals of the template as the latest fan-out had items; any other one
      arrival per incoming edge, from the nodes the edges come from. */
  ghost predicate Expects(d: Db, join: NodeId, round: int, expected: int, sources: seq<NodeId>) {
    if forall p :: 0 <= p < |d.log| ==> !FansTowards(d.log[p].fact, join, round)
    then && expected == |EdgesInto(d.def.transitions, join)|
         && forall id :: id in sources <==> ComesFrom(d.def.transitions, join, id)
    else exists p: nat, i: nat ::
           && LatestFanOut(d.log, join, round, p) && FirstFeeder(d.def.nodes, join, i)
           && expected == d.log[p].fact.branchCount && sources == [d.def.nodes[i].config.branchTemplate]
  }

  predicate ComesFrom(ts: seq<Transition>, join: NodeId, id: NodeId) {
    exists t :: t in ts && CountsEdge(t, join) && t.from == id
  }

  lemma SourcesExactly(ts: seq<Transition>, join: NodeId, id: NodeId)
    ensures id in Sources(Incoming(ts, join)) <==> ComesFrom(ts, join, id)
  {
    IncomingExactly(ts, join);
    var incoming := Incoming(ts, join);
    if id in Sources(incoming) {
      var k :| 0 <= k < |Sources(incoming)| && Sources(incoming)[k] == id;
      assert incoming[k] in incoming;
    }
    if ComesFrom(ts, join, id) {
      var t :| t in ts && CountsEdge(t, join) && t.from == id;
      var k :| 0 <= k < |incoming| && incoming[k] == t;
      assert Sources(incoming)[k] == id;
    }
  }

  /** The number of arrivals expected, and the rows that count as arrived, are these. */
  lemma ExpectationExactly(d: Db, join: NodeId, round: int, expected: int, sources: seq<NodeId>)
    requires Expects(d, join, round, expected, sources)
    ensures var r := Expectation(d, join, round);
            && r.Ok? && r.value.0 == expected
            && CountArrived(d.activities, r.value.1, round) == |ArrivedRows(d.activities, sources, round)|
  {
    LatestCounts(d.log, join, round);
    if forall p :: 0 <= p < |d.log| ==> !FansTowards(d.log[p].fact, join, round) {
      var counted := Sources(Incoming(d.def.transitions, join));
      IncomingExactly(d.def.transitions, join);
      CountsRows(d.activities, counted, round);
      forall id ensures id in counted <==> id in sources {
        SourcesExactly(d.def.transitions, join, id);
      }
      assert ArrivedRows(d.activities, counted, round) == ArrivedRows(d.activities, sources, round);
    } else {
      var p: nat, i: nat :| && LatestFanOut(d.log, join, round, p) && FirstFeeder(d.def.nodes, join, i)
                            && expected == d.log[p].fact.branchCount
                            && sources == [d.def.nodes[i].config.branchTemplate];
      FeederFound(d.def.nodes, join, i);
      CountsRows(d.activities, sources, round);
    }
  }

  // ------------------------------------------------------------------ reaching it

  /** Enough have arrived. */
  predicate Reached(strategy: JoinStrategy, arrived: int, expected: int) {
    match strategy
    case WaitAll => arrived >= expected
    case WaitAny => arrived >= 1
    case NOfM(n) => arrived >= n
  }

  /** What the others are left as: under a strategy that does not wait for all, every other activity under way is
      skipped and its pending timers are cancelled, and the log says so if there was one. */
  predicate OthersSettled(d: Db, strategy: JoinStrategy, src: nat, d': Db) {
    && |d'.activities| == |d.activities| && |d'.timers| == |d.timers|
    && (forall i :: 0 <= i < |d.activities| ==>
          d'.activities[i] == if Dropped(d, strategy, src, i) then d.activities[i].(status := ActivityStatus.Skipped)
                              else d.activities[i])
    && (forall t :: 0 <= t < |d.timers| ==>
          d'.timers[t] == if d.timers[t].status.Pending? && Dropped(d, strategy, src, d.timers[t].activity)
                          then d.timers[t].(status := TimerStatus.Cancelled) else d.timers[t])
  }

  predicate Dropped(d: Db, strategy: JoinStrategy, src: nat, i: nat) {
    !strategy.WaitAll? && i != src && i < |d.activities| && d.activities[i].status.Active?
  }

  function SkipFacts(d: Db, strategy: JoinStrategy, src: nat): seq<Fact> {
    if exists i :: 0 <= i < |d.activities| && Dropped(d, strategy, src, i) then [ActivitySkipped(None)] else []
  }

  /** The join is satisfied: the facts, and the others settled. */
  predicate Satisfies(d: Db, join: Node, src: nat, round: int, arrived: int, expected: int, d': Db)
    requires src < |d.activities| && join.config.ParallelJoin?
  {
    && d' == d.(activities := d'.activities, timers := d'.timers, log := d'.log)
    && OthersSettled(d, join.config.strategy, src, d')
    && LogsOnly(d.log, d'.log, [Fact.BranchReachedJoin(d.activities[src].node, join.id, round),
                                JoinSatisfied(join.id, arrived, expected, round)]
                               + SkipFacts(d, join.config.strategy, src))
  }

  lemma SatisfiedRows(d: Db, join: Node, src: nat, round: int, arrived: int, expected: int)
    requires src < |d.activities| && join.config.ParallelJoin?
    ensures var d1 := Append(d, Fact.BranchReachedJoin(d.activities[src].node, join.id, round), None);
            Satisfies(d, join, src, round, arrived, expected,
                      SatisfyJoin(d1, join, arrived, expected, round, Some(src)))
  {
    var d1 := Append(d, Fact.BranchReachedJoin(d.activities[src].node, join.id, round), None);
    var d2 := Append(d1, JoinSatisfied(join.id, arrived, expected, round), None);
    forall i: nat
      ensures Dropped(d, join.config.strategy, src, i) <==>
              !join.config.strategy.WaitAll? && SkippedBy(d2.activities, i, Some(src))
    {
    }
  }

  /** What comes of a branch at the join when this many have arrived of this many expected: the log says that it got
      there. If they are not enough the instance waits without a current activity. If they are, the join says how many
      of how many, the others are settled as its strategy asks, and the outcome carried out is the decision for an
      approval of the join. */
  ghost predicate ComesToJoin(env: Env, d: Db, join: Node, src: nat, round: int, fuel: nat, arrived: int, expected: int,
                              r: Result<Db>)
    requires src < |d.activities| && join.config.ParallelJoin?
  {
    if !Reached(join.config.strategy, arrived, expected)
    then && r.Ok? && r.value == d.(current := None, log := r.value.log)
         && LogsOnly(d.log, r.value.log, [Fact.BranchReachedJoin(d.activities[src].node, join.id, round)])
    else if fuel == 0 then r == Err(Diverges)
    else exists d': Db ::
           && Satisfies(d, join, src, round, arrived, expected, d') && src < |d'.activities|
           && var (outcome, trace) := DecideAdvance(d.def, env.cel, d.Ctx(), join.id, SignalType.Approved);
              r == ApplyOutcome(env, d', outcome, trace, src, round, fuel - 1)
  }

  lemma TrySplits(env: Env, d: Db, join: Node, src: nat, round: int, fuel: nat, expected: int, arrived: int)
    requires src < |d.activities| && join.config.ParallelJoin? && Expectation(d, join.id, round).Ok?
    requires var (n, sources) := Expectation(d, join.id, round).value;
             n == expected && CountArrived(d.activities, sources, round) == arrived
    ensures TrySatisfyJoin(env, d, join, src, round, Some(src), fuel)
         == if !Reached(join.config.strategy, arrived, expected) then Ok(ClearCurrent(d))
            else if fuel == 0 then Err(Diverges)
            else PassJoin(env, SatisfyJoin(d, join, arrived, expected, round, Some(src)), join.id, src, round, fuel - 1)
  {
  }

  lemma LandedTries(env: Env, d: Db, join: Node, src: nat, round: int, fuel: nat)
    requires src < |d.activities| && FindNode(d.def.nodes, join.id) == Some(join) && join.config.ParallelJoin?
    ensures Landed(env, d, join.id, src, round, fuel)
         == TrySatisfyJoin(env, Append(d, Fact.BranchReachedJoin(d.activities[src].node, join.id, round), None), join,
                           src, round, Some(src), fuel)
  {
    assert Landing(d.def, env.cel, d.Ctx(), join.id) == AdvanceOutcome.Advance(join.id, None);
    assert Landed(env, d, join.id, src, round, fuel) == ReachJoin(env, d, join, src, round, fuel);
  }

  lemma TriedComes(env: Env, d: Db, join: Node, src: nat, round: int, fuel: nat, arrived: int, expected: int, d1: Db,
                   r: Result<Db>)
    requires src < |d.activities| && join.config.ParallelJoin?
    requires d1 == Append(d, Fact.BranchReachedJoin(d.activities[src].node, join.id, round), None)
    requires r == if !Reached(join.config.strategy, arrived, expected) then Ok(ClearCurrent(d1))
                  else if fuel == 0 then Err(Diverges)
                  else PassJoin(env, SatisfyJoin(d1, join, arrived, expected, round, Some(src)), join.id, src, round,
                                fuel - 1)
    ensures ComesToJoin(env, d, join, src, round, fuel, arrived, expected, r)
  {
    SatisfiedRows(d, join, src, round, arrived, expected);
    if Reached(join.config.strategy, arrived, expected) && fuel > 0 {
      var d' := SatisfyJoin(d1, join, arrived, expected, round, Some(src));
      assert Satisfies(d, join, src, round, arrived, expected, d');
    }
  }

  /** A branch at a join, exactly, by the rows that have arrived and what the edges or items make the join expect. */
  lemma JoinLands(env: Env, d: Db, join: Node, src: nat, round: int, fuel: nat, expected: int, sources: seq<NodeId>)
    requires src < |d.activities| && FindNode(d.def.nodes, join.id) == Some(join) && join.config.ParallelJoin?
    requires Expects(d, join.id, round, expected, sources)
    ensures ComesToJoin(env, d, join, src, round, fuel, |ArrivedRows(d.activities, sources, round)|, expected,
                        Landed(env, d, join.id, src, round, fuel))
  {
    var d1 := Append(d, Fact.BranchReachedJoin(d.activities[src].node, join.id, round), None);
    var arrived := |ArrivedRows(d.activities, sources, round)|;
    StillExpects(d, d1, join.id, round, expected, sources);
    ExpectationExactly(d1, join.id, round, expected, sources);
    LandedTries(env, d, join, src, round, fuel);
    TrySplits(env, d1, join, src, round, fuel, expected, arrived);
    TriedComes(env, d, join, src, round, fuel, arrived, expected, d1, Landed(env, d, join.id, src, round, fuel));
  }

  lemma StillExpects(d: Db, d1: Db, join: NodeId, round: int, expected: int, sources: seq<NodeId>)
    requires Expects(d, join, round, expected, sources) && d1 == d.(log := d1.log)
    requires |d1.log| == |d.log| + 1 && d.log <= d1.log && !FansTowards(d1.log[|d.log|].fact, join, round)
    ensures Expects(d1, join, round, expected, sources)
  {
    if !(forall p :: 0 <= p < |d.log| ==> !FansTowards(d.log[p].fact, join, round)) {
      var p: nat, i: nat :| && LatestFanOut(d.log, join, round, p) && FirstFeeder(d.def.nodes, join, i)
                            && expected == d.log[p].fact.branchCount
                            && sources == [d.def.nodes[i].config.branchTemplate];
      assert LatestFanOut(d1.log, join, round, p);
      assert FansTowards(d1.log[p].fact, join, round);
    }
  }
}
