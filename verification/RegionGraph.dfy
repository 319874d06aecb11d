/** A region is set apart by the graph alone: if no edge of a round leads from behind or beside a join back to its
    branches or to it, no decision does, whatever the guards and items say. */
module RegionGraph {
  import opened Core
  import opened Walk
  import opened Routing
  import opened Validation
  import opened Progress
  import opened Database
  import opened Engine
  import opened LintSoundness
  import opened JoinRegion
  import opened RegionFence
  import opened JoinOnce

  /** Signals whose edges move on within a round; a RETURNED edge opens another one. */
  predicate MovesOn(signal: SignalType) {
    signal.Approved? || signal.EventReceived? || signal.Completed?
  }

  predicate EdgeBetween(def: Definition, a: NodeId, b: NodeId) {
    exists i :: 0 <= i < |def.transitions| && IsEdge(def.transitions[i], a, b)
  }

  predicate IsEdge(t: Transition, a: NodeId, b: NodeId) {
    t.from == a && t.to == b && MovesOn(t.onSignal)
  }

  /** Targets that the configuration of a node carries. */
  predicate Names(node: Node, b: NodeId) {
    match node.config
    case Condition(defaultTarget, branches) => b == defaultTarget
        || exists i :: 0 <= i < |branches| && branches[i].target == b
    case ParallelSplit(branches) => b in branches
    case ForEach(_, template, join, _) => b == template || b == join
    case EventWait(_, _, _) => node.TimeoutTarget() == Some(b)
    case _ => false
  }

  /** One step of the graph within a round. */
  predicate LeadsTo(def: Definition, a: NodeId, b: NodeId) {
    EdgeBetween(def, a, b) || (FindNode(def.nodes, a).Some? && Names(FindNode(def.nodes, a).value, b))
  }

  /** `away` holds what lies past the join and beside it: it is closed under the graph, and only the branches lead
      to the join. */
  ghost predicate SetApart(def: Definition, g: Gate, away: iset<NodeId>) {
    && FindNode(def.nodes, g.join.id) == Some(g.join) && g.join.config.ParallelJoin?
    && g.join.id !in away && (forall b :: b in g.branches ==> b !in away)
    && (forall a, b :: (a in away || a == g.join.id) && LeadsTo(def, a, b) ==> b in away)
    && (forall a, b :: IsBranch(def, g, a) && LeadsTo(def, a, b) ==> b in away || b == g.join.id)
    && (!g.deadlines ==> forall a :: IsBranch(def, g, a) ==> !TimesOutTo(def, a, g.join.id))
  }

  predicate TimesOutTo(def: Definition, a: NodeId, b: NodeId) {
    FindNode(def.nodes, a).Some? && FindNode(def.nodes, a).value.TimeoutTarget() == Some(b)
  }

  ghost predicate Closed(def: Definition, away: iset<NodeId>) {
    forall a, b :: a in away && LeadsTo(def, a, b) ==> b in away
  }

  lemma EdgeLeads(def: Definition, a: NodeId, signal: SignalType)
    requires FindTransition(def.transitions, a, signal).Some? && MovesOn(signal)
    ensures LeadsTo(def, a, FindTransition(def.transitions, a, signal).value.to)
  {
    var t := FindTransition(def.transitions, a, signal).value;
    var i :| 0 <= i < |def.transitions| && def.transitions[i] == t;
    assert IsEdge(def.transitions[i], a, t.to);
  }

  lemma HopLeads(def: Definition, cel: Cel, ctx: Context, a: NodeId)
    requires NextHop(def, cel, ctx, a).Some?
    ensures LeadsTo(def, a, NextHop(def, cel, ctx, a).value)
  {
    var node := FindNode(def.nodes, a).value;
    if node.config.Merge? {
      EdgeLeads(def, a, SignalType.Approved);
    } else {
      PickBranchTargets(cel, ctx, node.config.branches, node.config.defaultTarget);
    }
  }

  /** A walk that begins away stays away. */
  lemma {:induction false} WalkStaysAway(def: Definition, cel: Cel, ctx: Context, away: iset<NodeId>, a: NodeId, n: nat)
    requires Closed(def, away) && a in away && WalkTo(RouterOf(def, cel, ctx), a, n).Some?
    ensures WalkTo(RouterOf(def, cel, ctx), a, n).value in away
    decreases n
  {
    if n > 0 {
      HopLeads(def, cel, ctx, a);
      WalkStaysAway(def, cel, ctx, away, NextHop(def, cel, ctx, a).value, n - 1);
    }
  }

  lemma SplitAway(def: Definition, away: iset<NodeId>, id: NodeId, branches: seq<NodeId>)
    requires Closed(def, away) && id in away && FindNode(def.nodes, id).Some?
    requires FindNode(def.nodes, id).value.config == NodeConfig.ParallelSplit(branches)
    ensures var r := SplitTargets(def.nodes, branches);
            r.Some? ==> forall i :: 0 <= i < |r.value| ==> r.value[i].node in away
  {
    var r := SplitTargets(def.nodes, branches);
    SplitTargetsNamed(def.nodes, branches);
    if r.Some? {
      forall i | 0 <= i < |r.value| ensures r.value[i].node in away {
        assert LeadsTo(def, id, r.value[i].node);
      }
    }
  }

  lemma LandingAway(def: Definition, cel: Cel, ctx: Context, away: iset<NodeId>, id: NodeId)
    requires Closed(def, away) && id in away
    ensures LeadsAway(away, Landing(def, cel, ctx, id), LandingFanOut(def, id))
  {
    var outcome := Landing(def, cel, ctx, id);
    if outcome.AdvanceMulti? {
      var config := FindNode(def.nodes, id).value.config;
      if config.ParallelSplit? {
        SplitAway(def, away, id, config.branchTargets);
        assert SplitTargets(def.nodes, config.branchTargets) == Some(outcome.targets);
      } else {
        assert LeadsTo(def, id, config.branchTemplate) && LeadsTo(def, id, config.joinTarget);
        forall i | 0 <= i < |outcome.targets| ensures outcome.targets[i].node in away {
          assert outcome.targets[i].node == config.branchTemplate;
        }
      }
    }
  }

  lemma ResolveAway(def: Definition, cel: Cel, ctx: Context, away: iset<NodeId>, target: NodeId)
    requires Closed(def, away) && target in away
    ensures LeadsAway(away, Resolve(def, cel, ctx, target).0, Resolve(def, cel, ctx, target).1.forEach)
  {
    var w := RouterOf(def, cel, ctx);
    ResolverExact(def, cel, ctx, target);
    if StopsWithin(w, target, MAX_RESOLVE_DEPTH) {
      var n: nat :| n <= MAX_RESOLVE_DEPTH && StopsAfter(w, target, n);
      WalkStaysAway(def, cel, ctx, away, target, n);
      LandingAway(def, cel, ctx, away, WalkTo(w, target, n).value);
    }
  }

  lemma ResolveHome(def: Definition, cel: Cel, ctx: Context, g: Gate)
    requires FindNode(def.nodes, g.join.id) == Some(g.join) && g.join.config.ParallelJoin?
    ensures LeadsHome(g, Resolve(def, cel, ctx, g.join.id).0)
  {
    ResolverExact(def, cel, ctx, g.join.id);
    assert StopsAfter(RouterOf(def, cel, ctx), g.join.id, 0);
  }

  /** A decision at a node whose successors are all away leads away. */
  lemma DecisionAway(def: Definition, cel: Cel, ctx: Context, away: iset<NodeId>, at: NodeId, signal: SignalType)
    requires Closed(def, away) && forall b :: LeadsTo(def, at, b) ==> b in away
    ensures LeadsAway(away, DecideAdvance(def, cel, ctx, at, signal).0,
                      DecideAdvance(def, cel, ctx, at, signal).1.forEach)
  {
    if MovesOn(signal) && FindTransition(def.transitions, at, signal).Some? {
      EdgeLeads(def, at, signal);
      ResolveAway(def, cel, ctx, away, FindTransition(def.transitions, at, signal).value.to);
    }
  }

  lemma TimeoutLeads(def: Definition, at: NodeId)
    requires FindNode(def.nodes, at).Some? && FindNode(def.nodes, at).value.TimeoutTarget().Some?
    ensures LeadsTo(def, at, FindNode(def.nodes, at).value.TimeoutTarget().value)
  {
  }

  lemma TimeoutAway(def: Definition, cel: Cel, ctx: Context, away: iset<NodeId>, at: NodeId)
    requires Closed(def, away) && forall b :: LeadsTo(def, at, b) ==> b in away
    ensures LeadsAway(away, DecideTimeout(def, cel, ctx, at).0, DecideTimeout(def, cel, ctx, at).1.forEach)
  {
    if FindNode(def.nodes, at).Some? && FindNode(def.nodes, at).value.TimeoutTarget().Some? {
      TimeoutLeads(def, at);
      ResolveAway(def, cel, ctx, away, FindNode(def.nodes, at).value.TimeoutTarget().value);
    }
  }

  lemma BranchDecision(def: Definition, cel: Cel, ctx: Context, g: Gate, away: iset<NodeId>, at: NodeId,
                       signal: SignalType)
    requires SetApart(def, g, away) && IsBranch(def, g, at)
    ensures var (outcome, trace) := DecideAdvance(def, cel, ctx, at, signal);
            LeadsHome(g, outcome) || LeadsAway(away, outcome, trace.forEach)
  {
    if MovesOn(signal) && FindTransition(def.transitions, at, signal).Some? {
      EdgeLeads(def, at, signal);
      ResolveHome(def, cel, ctx, g);
      var to := FindTransition(def.transitions, at, signal).value.to;
      if to in away {
        ResolveAway(def, cel, ctx, away, to);
      }
    }
  }

  lemma BranchTimeout(def: Definition, cel: Cel, ctx: Context, g: Gate, away: iset<NodeId>, at: NodeId)
    requires SetApart(def, g, away) && IsBranch(def, g, at)
    ensures var (outcome, trace) := DecideTimeout(def, cel, ctx, at);
            (g.deadlines && LeadsHome(g, outcome)) || LeadsAway(away, outcome, trace.forEach)
  {
    if FindNode(def.nodes, at).Some? && FindNode(def.nodes, at).value.TimeoutTarget().Some? {
      TimeoutLeads(def, at);
      ResolveHome(def, cel, ctx, g);
      var to := FindNode(def.nodes, at).value.TimeoutTarget().value;
      if to in away {
        ResolveAway(def, cel, ctx, away, to);
      }
    }
  }

  /** What `JoinFiresOnce` asks of the decisions can be read off the graph: it is enough that no path within a
      round leads from past or beside the join back to it or to a branch. */
  lemma SeparateByGraph(def: Definition, cel: Cel, g: Gate, away: iset<NodeId>)
    requires SetApart(def, g, away)
    ensures Separate(def, cel, g, away)
  {
    forall ctx, at, signal | at in away || at == g.join.id
      ensures LeadsAway(away, DecideAdvance(def, cel, ctx, at, signal).0,
                        DecideAdvance(def, cel, ctx, at, signal).1.forEach)
    {
      DecisionAway(def, cel, ctx, away, at, signal);
    }
    forall ctx, at | at in away
      ensures LeadsAway(away, DecideTimeout(def, cel, ctx, at).0, DecideTimeout(def, cel, ctx, at).1.forEach)
    {
      TimeoutAway(def, cel, ctx, away, at);
    }
    forall at, signal | IsBranch(def, g, at) ensures BranchDecides(def, cel, g, away, at, signal) {
      forall ctx {
        BranchDecision(def, cel, ctx, g, away, at, signal);
      }
    }
    forall at | IsBranch(def, g, at) ensures BranchTimesOut(def, cel, g, away, at) {
      forall ctx {
        BranchTimeout(def, cel, ctx, g, away, at);
      }
    }
  }

  // ------------------------------------------------------------------ the gate of a split

  /** The gate a split of a definition leads to in a round: it holds one activity per branch and its join expects one
      arrival per incoming edge. */
  function SplitGate(def: Definition, branches: seq<NodeId>, join: Node, round: int, deadlines: bool): Gate {
    var incoming := Incoming(def.transitions, join.id);
    Gate(join, round, Sources(incoming), |incoming|, |branches|, deadlines)
  }

  lemma {:induction false} EdgeCounts(ts: seq<Transition>, t: Transition)
    requires t in ts && IsJoinIncoming(t.onSignal)
    ensures t in Incoming(ts, t.to)
  {
    if ts[0] != t {
      EdgeCounts(ts[1..], t);
    }
  }

  lemma BranchIsSource(def: Definition, branch: NodeId, join: NodeId)
    requires BranchInto(def, branch, join)
    ensures branch in Sources(Incoming(def.transitions, join))
  {
    var signal := CompletionSignal(FindNode(def.nodes, branch).value.config).value;
    var t := FindTransition(def.transitions, branch, signal).value;
    EdgeCounts(def.transitions, t);
    var i :| 0 <= i < |Incoming(def.transitions, join)| && Incoming(def.transitions, join)[i] == t;
    assert Sources(Incoming(def.transitions, join))[i] == branch;
  }

  lemma JoinNeeds(def: Definition, cel: Cel, join: Node, g: Gate)
    requires ValidDefinition(def, cel) && FindNode(def.nodes, join.id) == Some(join) && join.config.ParallelJoin?
    requires g.join == join && g.expected >= 1
    ensures GateOk(def, g)
  {
    FoundIsValid(def, cel, join.id);
  }

  /** Every split of an accepted definition leads to its gate, as long as no ForEach has fanned out to the same join
      in the round. */
  lemma SplitLeads(d: Db, cel: Cel, split: Node, join: Node, round: int, deadlines: bool)
    requires ValidDefinition(d.def, cel) && FindNode(d.def.nodes, split.id) == Some(split)
    requires split.config.ParallelSplit?
    requires var branches := split.config.branchTargets;
             branches != [] && BranchJoin(d.def, branches[0]) == Some(join.id)
                 && FindNode(d.def.nodes, join.id) == Some(join)
    requires ForEachBranchCount(d.log, join.id, round).None?
    ensures var branches := split.config.branchTargets;
            var targets := SplitTargets(d.def.nodes, branches);
            targets.Some? && LeadsToGate(d, targets.value, None, SplitGate(d.def, branches, join, round, deadlines))
  {
    var branches := split.config.branchTargets;
    var g := SplitGate(d.def, branches, join, round, deadlines);
    FoundIsValid(d.def, cel, split.id);
    SplitTargetsExist(d.def, branches);
    forall i | 0 <= i < |branches| ensures BranchInto(d.def, branches[i], join.id) && branches[i] in g.branches {
      BranchIsSource(d.def, branches[i], join.id);
    }
    assert SplitBranchValid(d.def, branches[0]) && branches[0] in g.branches;
    JoinNeeds(d.def, cel, join, g);
  }

  predicate Distinct(ids: seq<NodeId>) {
    forall i, j :: 0 <= i < j < |ids| ==> ids[i] != ids[j]
  }

  lemma {:induction false} FewerThan(ids: seq<NodeId>, all: seq<NodeId>)
    requires Distinct(ids) && forall i :: 0 <= i < |ids| ==> ids[i] in all
    ensures |ids| <= |all|
    decreases |ids|
  {
    if ids != [] {
      var k :| 0 <= k < |all| && all[k] == ids[0];
      var rest := all[..k] + all[k + 1..];
      forall i | 0 <= i < |ids[1..]| ensures ids[1..][i] in rest {
        var m :| 0 <= m < |all| && all[m] == ids[i + 1];
        assert m < k ==> rest[m] == all[m];
        assert m > k ==> rest[m - 1] == all[m];
      }
      FewerThan(ids[1..], rest);
    }
  }

  /** What the definition has to look like for a join to fire at most once: a split that names no branch twice, or a
      strategy that skips the rest. If besides each incoming edge of the join comes from another branch, the join
      expects exactly one arrival per branch. */
  lemma DistinctIsEven(def: Definition, branches: seq<NodeId>, join: Node, round: int, deadlines: bool)
    requires forall i :: 0 <= i < |branches| ==> BranchInto(def, branches[i], join.id)
    ensures var g := SplitGate(def, branches, join, round, deadlines);
            && (Distinct(branches) ==> Even(g))
            && (Even(g) <==> StrategyOf(join).SkipsRemaining() || |branches| <= |Incoming(def.transitions, join.id)|)
            && (Distinct(branches) && Distinct(g.branches)
                && (forall i :: 0 <= i < |g.branches| ==> g.branches[i] in branches) ==>
                  g.expected == g.size)
  {
    var g := SplitGate(def, branches, join, round, deadlines);
    forall i | 0 <= i < |branches| ensures branches[i] in g.branches {
      BranchIsSource(def, branches[i], join.id);
    }
    if Distinct(branches) {
      FewerThan(branches, g.branches);
    }
    if Distinct(g.branches) && forall i :: 0 <= i < |g.branches| ==> g.branches[i] in branches {
      FewerThan(g.branches, branches);
    }
  }
}
