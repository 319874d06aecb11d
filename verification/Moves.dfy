/** From a decision to what it leaves: the path of guards and edges, the Merge facts on it, and the node it lands at. */
module Moves {
  import opened Core
  import opened Routing
  import opened Facts
  import opened Database
  import opened Engine
  import opened Invariants
  import opened Preservation
  import opened Decisions
  import opened Effects

  /** One fact for each Merge passed, in order. */
  function MergeFacts(from: NodeId, merges: seq<NodeId>, round: int): (facts: seq<Fact>)
    ensures |facts| == |merges|
  {
    seq(|merges|, i requires 0 <= i < |merges| => MergePassed(from, merges[i], round))
  }

  lemma {:induction false} MergesLogged(d: Db, from: NodeId, merges: seq<NodeId>, round: int)
    ensures var d' := AppendMerges(d, from, merges, round);
            d' == d.(log := d'.log) && LogsOnly(d.log, d'.log, MergeFacts(from, merges, round))
    decreases |merges|
  {
    if merges != [] {
      var d1 := Append(d, MergePassed(from, merges[0], round), None);
      MergesLogged(d1, from, merges[1..], round);
      var d', facts := AppendMerges(d, from, merges, round), MergeFacts(from, merges, round);
      forall i | 0 <= i < |facts|
        ensures d'.log[|d.log| + i].fact == facts[i] && d'.log[|d.log| + i].key.None?
      {
        if i == 0 {
          assert d'.log[|d.log|] == d1.log[|d.log|];
        } else {
          assert d'.log[|d1.log| + (i - 1)].fact == MergeFacts(from, merges[1..], round)[i - 1];
        }
      }
    }
  }

  /** The token at `src` follows the path and its outcome is carried out at the end of it. */
  predicate MovesTo(env: Env, d: Db, src: nat, path: seq<NodeId>, round: int, fuel: nat, d1: Db, r: Result<Db>)
    requires path != [] && src < |d.activities|
  {
    && d1 == d.(log := d1.log)
    && LogsOnly(d.log, d1.log, MergeFacts(d.activities[src].node, MergesIn(d.def, path[..|path| - 1]), round))
    && r == Landed(env, d1, Last(path), src, round, fuel)
  }

  /** Approved, completed or received, the token follows the first edge of the node on that signal, and the path from
      there that the guards choose under the instance's context. */
  lemma MovesAlong(env: Env, d: Db, at: NodeId, signal: SignalType, target: NodeId, path: seq<NodeId>, src: nat,
                   round: int, fuel: nat) returns (d1: Db)
    requires src < |d.activities| && (signal.Approved? || signal.Completed? || signal.EventReceived?)
    requires FirstEdgeTo(d.def.transitions, at, signal, target) && LeadsAlong(d.def, env.cel, d.Ctx(), target, path)
    ensures var (outcome, trace) := DecideAdvance(d.def, env.cel, d.Ctx(), at, signal);
            MovesTo(env, d, src, path, round, fuel, d1, ApplyOutcome(env, d, outcome, trace, src, round, fuel))
  {
    DecisionAlong(d.def, env.cel, d.Ctx(), at, signal, target, path);
    d1 := LandsAlong(env, d, path, src, round, fuel);
  }

  lemma LandsAlong(env: Env, d: Db, path: seq<NodeId>, src: nat, round: int, fuel: nat) returns (d1: Db)
    requires src < |d.activities| && path != []
    ensures var trace := ResolveTrace(MergesIn(d.def, path[..|path| - 1]), LandingFanOut(d.def, Last(path)));
            MovesTo(env, d, src, path, round, fuel, d1,
                    ApplyOutcome(env, d, Landing(d.def, env.cel, d.Ctx(), Last(path)), trace, src, round, fuel))
  {
    var merges := MergesIn(d.def, path[..|path| - 1]);
    MergesLogged(d, d.activities[src].node, merges, round);
    d1 := AppendMerges(d, d.activities[src].node, merges, round);
  }

  /** A deadline moves the token along the path from the target its node declares. */
  lemma DeadlineMovesAlong(env: Env, d: Db, node: Node, path: seq<NodeId>, src: nat, round: int, fuel: nat)
    returns (d1: Db)
    requires src < |d.activities| && FindNode(d.def.nodes, node.id) == Some(node) && node.config.EventWait?
    requires node.config.timeoutTo.Some? && node.config.timeoutTo.value != ""
    requires LeadsAlong(d.def, env.cel, d.Ctx(), node.config.timeoutTo.value, path)
    ensures var (outcome, trace) := DecideTimeout(d.def, env.cel, d.Ctx(), node.id);
            MovesTo(env, d, src, path, round, fuel, d1, ApplyOutcome(env, d, outcome, trace, src, round, fuel))
  {
    DeadlineAlong(d.def, env.cel, d.Ctx(), node, path);
    d1 := LandsAlong(env, d, path, src, round, fuel);
  }

  // ------------------------------------------------------------------ hand-backs

  /** The rows of a hand-back: an activity of the target in the round after the highest, the instance waiting for it,
      and the fact that says so. */
  ghost predicate HandsBack(d: Db, from: NodeId, node: Node, d': Db) {
    var a, round := |d.activities|, MaxRound(d.activities) + 1;
    exists d1: Db ::
      && Opens(d, node, round, Linear, d1)
      && d' == d1.(status := WorkflowStatus.ReturnedWaiting, current := Some(a), log := d'.log)
      && LogsOnly(d1.log, d'.log, [ReturnedToRework(from, node.id, round, a, RoleOf(node))])
  }

  lemma HandBackActs(env: Env, d: Db, node: Node, src: nat)
    requires src < |d.activities| && TimersOk(d.timers, d.activities) && FindNode(d.def.nodes, node.id) == Some(node)
    ensures var r := HandBack(env, d, node.id, RoleOf(node), src);
            && (r.Ok? <==> && d.status.Active? && MaxRound(d.activities) + 1 <= RoundLimit(env, d.def)
                           && !node.config.SubWorkflow?)
            && (r.Ok? ==> HandsBack(d, d.activities[src].node, node, r.value))
  {
    if CanHandBack(env, d, node.id) {
      var d1, d' := HandBackGoes(env, d, node.id, RoleOf(node), src);
      HandedBackRows(d, node, d.activities[src].node, d1, d');
    } else {
      HandBackStops(env, d, node.id, RoleOf(node), src);
    }
  }

  lemma HandedBackRows(d: Db, node: Node, from: NodeId, d1: Db, d': Db)
    requires TimersOk(d.timers, d.activities) && FindNode(d.def.nodes, node.id) == Some(node)
    requires !node.config.SubWorkflow? && HandedBack(d, node.id, RoleOf(node), from, d1, d')
    requires ScheduleActivity(d, node, RoleOf(node), MaxRound(d.activities) + 1, Linear) == Ok((d1, |d.activities|))
    ensures HandsBack(d, from, node, d')
  {
    OpensExactly(d, node, MaxRound(d.activities) + 1, Linear);
    assert Opens(d, node, MaxRound(d.activities) + 1, Linear, d1);
  }

  /** A review that returns the work: without a RETURNED edge the instance completes as returned; along such an edge it
      is handed back to the activity at the end of the path, for the role that node declares. */
  lemma ReturnsAlong(env: Env, d: Db, at: NodeId, target: NodeId, path: seq<NodeId>, node: Node, src: nat, round: int,
                     fuel: nat) returns (d1: Db)
    requires src < |d.activities| && FirstEdgeTo(d.def.transitions, at, SignalType.Returned, target)
    requires LeadsAlong(d.def, env.cel, d.Ctx(), target, path) && FindNode(d.def.nodes, Last(path)) == Some(node)
    requires node.IsActivity()
    ensures var (outcome, trace) := DecideAdvance(d.def, env.cel, d.Ctx(), at, SignalType.Returned);
            && d1 == d.(log := d1.log)
            && LogsOnly(d.log, d1.log, MergeFacts(d.activities[src].node, MergesIn(d.def, path[..|path| - 1]), round))
            && ApplyOutcome(env, d, outcome, trace, src, round, fuel) == HandBack(env, d1, node.id, RoleOf(node), src)
  {
    var trace := ReturnedTo(d.def, env.cel, d.Ctx(), at, target, path, node);
    MergesLogged(d, d.activities[src].node, trace.merges, round);
    d1 := AppendMerges(d, d.activities[src].node, trace.merges, round);
  }

  lemma ReturnedTo(def: Definition, cel: Cel, ctx: Context, at: NodeId, target: NodeId, path: seq<NodeId>, node: Node)
    returns (trace: ResolveTrace)
    requires FirstEdgeTo(def.transitions, at, SignalType.Returned, target) && LeadsAlong(def, cel, ctx, target, path)
    requires FindNode(def.nodes, Last(path)) == Some(node) && node.IsActivity()
    ensures DecideAdvance(def, cel, ctx, at, SignalType.Returned) == (Rework(node.id, RoleOf(node)), trace)
    ensures trace.merges == MergesIn(def, path[..|path| - 1])
  {
    EdgeFound(def.transitions, at, SignalType.Returned, target);
    ResolvesAlong(def, cel, ctx, target);
    assert Landing(def, cel, ctx, node.id) == Advance(node.id, RoleOf(node));
    trace := Resolve(def, cel, ctx, target).1;
  }

  /** Rounds up to the limit: at most 20, at most what is configured, if that is at least 1, and at most what the
      definition declares, if it declares any. */
  lemma LimitExactly(env: Env, def: Definition, round: int)
    ensures round <= RoundLimit(env, def) <==>
            round <= 20 && (round <= 1 || round <= env.cfg.maxRound) && (def.maxRound > 0 ==> round <= def.maxRound)
  {
  }
}
