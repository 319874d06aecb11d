/** The context of an instance: set by its start, written by the signals whose nodes declare keys, and by
    nothing else. */
module Contexts {
  import opened Core
  import opened Routing
  import opened Facts
  import opened Database
  import opened Engine

  // ------------------------------------------------------------------ moving the graph

  predicate Keeps(d: Db, r: Result<Db>) {
    match r
    case Ok(d') => d'.context == d.context && d'.def == d.def && d'.sideEffects == d.sideEffects
    case Err(_) => true
  }

  lemma ScheduleKeeps(d: Db, node: Node, role: Option<Role>, round: int, via: Via)
    ensures match ScheduleActivity(d, node, role, round, via)
            case Ok((d', _)) => Keeps(d, Ok(d'))
            case Err(_) => true
  {
  }

  lemma {:induction false} TargetsKeep(d: Db, targets: seq<ParallelTarget>, round: int, byForEach: bool)
    ensures Keeps(d, ScheduleTargets(d, targets, round, byForEach))
    decreases |targets|
  {
    if targets != [] && NodeOf(d, targets[0].node).Ok? {
      var node, via := NodeOf(d, targets[0].node).value, Fanned(byForEach, targets[0].item);
      ScheduleKeeps(d, node, targets[0].role, round, via);
      if ScheduleActivity(d, node, targets[0].role, round, via).Ok? {
        var d1 := ScheduleActivity(d, node, targets[0].role, round, via).value.0;
        TargetsKeep(d1, targets[1..], round, byForEach);
      }
    }
  }

  lemma HandBackKeeps(env: Env, d: Db, target: NodeId, role: Option<Role>, src: nat)
    requires src < |d.activities|
    ensures Keeps(d, HandBack(env, d, target, role, src))
  {
    if NextRound(env, d).Ok? && FindNode(d.def.nodes, target).Some? {
      ScheduleKeeps(d, FindNode(d.def.nodes, target).value, role, NextRound(env, d).value, Linear);
    }
  }

  lemma CompletionKeeps(env: Env, d: Db, result: WorkflowResult)
    ensures Keeps(d, CompleteInstance(env, d, result))
  {
  }

  lemma AdvanceKeeps(d: Db, node: Node, role: Option<Role>, round: int)
    ensures Keeps(d, AdvanceTo(d, node, role, round))
  {
    ScheduleKeeps(d, node, role, round, Linear);
  }

  lemma DispatchKeeps(env: Env, d: Db, outcome: AdvanceOutcome, forEach: Option<FanOut>, src: nat, round: int,
                      fuel: nat)
    requires src < |d.activities|
    ensures Keeps(d, Dispatch(env, d, outcome, forEach, src, round, fuel))
    decreases fuel, 3
  {
    match outcome
    case Advance(target, role) =>
      if NodeOf(d, target).Ok? {
        var node := NodeOf(d, target).value;
        if node.config.ParallelJoin? {
          var d1 := Append(d, Fact.BranchReachedJoin(d.activities[src].node, node.id, round), None);
          TryKeeps(env, d1, node, src, round, Some(src), fuel);
        } else {
          AdvanceKeeps(d, node, role, round);
        }
      }
    case AdvanceMulti(targets) => FanOutKeeps(env, d, targets, forEach, src, round, fuel);
    case Complete(result) => CompletionKeeps(env, d, result);
    case Rework(target, role) => HandBackKeeps(env, d, target, role, src);
    case Error =>
  }

  lemma FanOutKeeps(env: Env, d: Db, targets: seq<ParallelTarget>, forEach: Option<FanOut>, src: nat, round: int,
                    fuel: nat)
    requires src < |d.activities|
    ensures Keeps(d, FanOutTo(env, d, targets, forEach, src, round, fuel))
    decreases fuel, 2
  {
    var d1 := MarkFanOut(d, targets, forEach, src, round);
    if targets == [] && forEach.Some? {
      if NodeOf(d1, forEach.value.joinTarget).Ok? {
        TryKeeps(env, d1, NodeOf(d1, forEach.value.joinTarget).value, src, round, None, fuel);
      }
    } else {
      TargetsKeep(d1, targets, round, forEach.Some?);
    }
  }

  lemma SatisfyKeeps(d: Db, join: Node, arrived: int, expected: int, round: int, exclude: Option<nat>)
    ensures var d' := SatisfyJoin(d, join, arrived, expected, round, exclude);
            Keeps(d, Ok(d')) && |d'.activities| == |d.activities|
  {
  }

  lemma TryKeeps(env: Env, d: Db, join: Node, src: nat, round: int, exclude: Option<nat>, fuel: nat)
    requires src < |d.activities|
    ensures Keeps(d, TrySatisfyJoin(env, d, join, src, round, exclude, fuel))
    decreases fuel, 1
  {
    if Expectation(d, join.id, round).Ok? && fuel > 0 {
      var (expected, branches) := Expectation(d, join.id, round).value;
      var arrived := CountArrived(d.activities, branches, round);
      if StrategyOf(join).IsSatisfied(arrived, expected) {
        SatisfyKeeps(d, join, arrived, expected, round, exclude);
        var d1 := SatisfyJoin(d, join, arrived, expected, round, exclude);
        var (outcome, trace) := DecideAdvance(d1.def, env.cel, d1.Ctx(), join.id, SignalType.Approved);
        ApplyKeeps(env, d1, outcome, trace, src, round, fuel - 1);
      }
    }
  }

  lemma ApplyKeeps(env: Env, d: Db, outcome: AdvanceOutcome, trace: ResolveTrace, src: nat, round: int, fuel: nat)
    requires src < |d.activities|
    ensures Keeps(d, ApplyOutcome(env, d, outcome, trace, src, round, fuel))
    decreases fuel, 4
  {
    MergesKeepRows(d, d.activities[src].node, trace.merges, round);
    DispatchKeeps(env, AppendMerges(d, d.activities[src].node, trace.merges, round), outcome, trace.forEach, src, round,
                  fuel);
  }

  // ------------------------------------------------------------------ what writes the context

  /** The context after a write: the declared keys hold the patch's values, every other key what it held, if
      anything. */
  predicate Written(ctx: Context, keys: seq<string>, patch: Context, ctx': Context) {
    && (forall k :: k in keys ==> k in patch && k in ctx' && ctx'[k] == patch[k])
    && (forall k :: k in ctx' && k !in keys ==> k in ctx)
    && (forall k :: k in ctx && k !in keys ==> k in ctx' && ctx'[k] == ctx[k])
  }

  /** The context once an activity of the node has been settled with the patch: an absent one stays absent where no
      key is declared. */
  predicate ContextSettled(d: Db, node: Node, patch: Option<Context>, context: Option<Context>) {
    if node.contextWrites == [] then context == d.context
    else patch.Some? && context.Some? && Written(d.Ctx(), node.contextWrites, patch.value, context.value)
  }

  /** Writing exactly: it goes through if and only if the patch holds every declared key. */
  lemma WritesExactly(d: Db, node: Node, round: int, patch: Option<Context>)
    ensures var r := ApplyContextWrites(d, node, round, patch);
            && (r.Ok? <==> node.contextWrites == []
                           || (patch.Some? && forall k :: k in node.contextWrites ==> k in patch.value))
            && (r.Ok? ==> ContextSettled(d, node, patch, r.value.context))
            && (r.Err? ==> r == Err(Validation))
  {
    if node.contextWrites != [] && patch.Some? {
      assert PatchCovers(node.contextWrites, patch.value)
          <==> forall k :: k in node.contextWrites ==> k in patch.value by {
        if PatchCovers(node.contextWrites, patch.value) {
          forall k | k in node.contextWrites ensures k in patch.value {
            var i :| 0 <= i < |node.contextWrites| && node.contextWrites[i] == k;
          }
        }
      }
    }
  }
}
