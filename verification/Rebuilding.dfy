/** Every building block and every call keeps the rows rebuildable from the log as far as the log tells them; as long
    as the graph is only moved from an active instance, nothing stirs a waiting one. */
module Rebuilding {
  import opened Core
  import opened Routing
  import opened Facts
  import opened Replay
  import opened Database
  import opened Engine
  import opened Invariants
  import opened Preservation
  import opened Calls
  import opened Agreement

  ghost predicate TellsAfter(r: Result<Db>, exact: bool) {
    match r
    case Ok(d) => Tells(d, exact)
    case Err(_) => true
  }

  /** Where the graph may be moved from: an active instance, or one waiting for rework if late calls are allowed. */
  predicate Movable(d: Db, exact: bool) {
    Tells(d, exact) && (d.status.Active? || (!exact && d.status.ReturnedWaiting?))
  }

  // ------------------------------------------------------------------ one fact

  function Next(d: Db, fact: Fact, key: Option<string>): Event {
    Event(MaxNumber(d.log) + 1, fact, key)
  }

  /** Facts that replay ignores and that are no part of a join's bookkeeping. */
  predicate Silent(fact: Fact) {
    SparesRecords(fact) && SparesInstance(fact) && !fact.BranchReachedJoin? && !fact.JoinSatisfied?
  }

  /** A fact that leaves the records alone moves only the replayed instance. */
  lemma FactKeepsRecords(d: Db, fact: Fact, key: Option<string>)
    requires RecordsAgree(d.def, d.activities, d.log) && LogSensible(d.def, d.activities, d.log) && SparesRecords(fact)
    requires fact.BranchReachedJoin? ==> HasJoin(d.def)
    ensures var log := Append(d, fact, key).log;
            && RecordsAgree(d.def, d.activities, log) && LogSensible(d.def, d.activities, log)
            && FoldInstance(log) == ApplyToInstance(FoldInstance(d.log), fact)
  {
    RecordsSpared(d.def, d.activities, d.log, Next(d, fact, key));
    SensibleStays(d.def, d.activities, d.log, d.activities, Next(d, fact, key));
    FoldPush(d.def, d.log, Next(d, fact, key));
  }

  /** A fact that replay does not see in the instance row keeps what the log tells of it. */
  lemma InstanceKept(d: Db, d': Db, e: Event)
    requires InstanceTold(d) && d'.status == d.status && d'.current == d.current && d'.result == d.result
    requires d'.log == d.log + [e]
    requires SparesInstance(e.fact) && !e.fact.BranchReachedJoin? && !e.fact.JoinSatisfied?
    ensures InstanceTold(d') && (Exact(d) ==> Exact(d'))
  {
    FoldPush(d.def, d.log, e);
    MarksPush(d.log, e);
  }

  lemma SilentTells(d: Db, fact: Fact, key: Option<string>, exact: bool)
    requires Tells(d, exact) && Silent(fact)
    ensures Tells(Append(d, fact, key), exact)
  {
    FactKeepsRecords(d, fact, key);
    InstanceKept(d, Append(d, fact, key), Next(d, fact, key));
  }

  lemma {:induction false} MergesTell(d: Db, from: NodeId, merges: seq<NodeId>, round: int, exact: bool)
    requires Tells(d, exact)
    ensures Tells(AppendMerges(d, from, merges, round), exact)
    decreases |merges|
  {
    if merges != [] {
      SilentTells(d, MergePassed(from, merges[0], round), None, exact);
      MergesTell(Append(d, MergePassed(from, merges[0], round), None), from, merges[1..], round, exact);
    }
  }

  // ------------------------------------------------------------------ scheduling

  lemma ScheduledRecords(d: Db, node: NodeId, role: Option<Role>, round: int, via: Via, d': Db)
    requires RecordsTold(d) && Scheduled(d, node, role, round, via, d') && FindNode(d.def.nodes, node).Some?
    ensures RowsOk(d.def, d'.activities) && RecordsAgree(d.def, d'.activities, d'.log)
    ensures LogSensible(d.def, d'.activities, d'.log)
  {
    RowsPush(d.def, d.activities, node, role, round);
    var e := Next(d, ActivityScheduled(|d.activities|, node, round, role, via), None);
    RecordsSchedule(d.def, d.activities, d.log, e);
    SensibleStays(d.def, d.activities, d.log, d'.activities, e);
  }

  lemma ScheduledInstance(d: Db, node: NodeId, role: Option<Role>, round: int, via: Via, d': Db)
    requires Scheduled(d, node, role, round, via, d')
    ensures FoldInstance(d'.log)
         == ApplyToInstance(FoldInstance(d.log), ActivityScheduled(|d.activities|, node, round, role, via))
    ensures RowCurrent(d'.log)
         == if via.Fanned? then None else if Waiting(d.log) then RowCurrent(d.log) else Some(|d.activities|)
    ensures Waiting(d'.log) == Waiting(d.log) && MovedOnPaper(d'.log) == (via.Linear? && Waiting(d.log))
  {
    var e := Next(d, ActivityScheduled(|d.activities|, node, round, role, via), None);
    FoldPush(d.def, d.log, e);
    MarksPush(d.log, e);
  }

  lemma ScheduledTells(d: Db, node: NodeId, role: Option<Role>, round: int, via: Via, d1: Db, exact: bool)
    requires Movable(d, exact) && Scheduled(d, node, role, round, via, d1) && FindNode(d.def.nodes, node).Some?
    requires via.Fanned? ==> d.current.None?
    ensures Tells(if via.Linear? then UpdateCurrent(d1, |d.activities|) else d1, exact)
  {
    ScheduledRecords(d, node, role, round, via, d1);
    ScheduledInstance(d, node, role, round, via, d1);
  }

  lemma AdvanceTells(d: Db, node: Node, role: Option<Role>, round: int, exact: bool)
    requires Movable(d, exact) && FindNode(d.def.nodes, node.id) == Some(node)
    ensures TellsAfter(AdvanceTo(d, node, role, round), exact)
  {
    if !node.config.SubWorkflow? {
      ScheduleShape(d, node, role, round, Linear);
      ScheduledTells(d, node.id, role, round, Linear, ScheduleActivity(d, node, role, round, Linear).value.0, exact);
    }
  }

  lemma {:induction false} TargetsTell(d: Db, targets: seq<ParallelTarget>, round: int, byForEach: bool, exact: bool)
    requires Movable(d, exact) && d.current.None?
    ensures TellsAfter(ScheduleTargets(d, targets, round, byForEach), exact)
    decreases |targets|
  {
    if targets != [] && ScheduleTargets(d, targets, round, byForEach).Ok? {
      var node := FindNode(d.def.nodes, targets[0].node).value;
      var via := Fanned(byForEach, targets[0].item);
      ScheduleShape(d, node, targets[0].role, round, via);
      var d1 := ScheduleActivity(d, node, targets[0].role, round, via).value.0;
      ScheduledTells(d, node.id, targets[0].role, round, via, d1, exact);
      TargetsTell(d1, targets[1..], round, byForEach, exact);
    }
  }

  // ------------------------------------------------------------------ fan-outs and joins

  lemma MarkedInstance(d: Db, d': Db, e: Event)
    requires InstanceTold(d) && (e.fact.SplitScheduled? || e.fact.ForEachFannedOut?) && d'.log == d.log + [e]
    requires d'.current.None? && d'.result == d.result && d'.status == d.status
    ensures InstanceTold(d') && (Exact(d) ==> Exact(d'))
  {
    FoldPush(d.def, d.log, e);
    MarksPush(d.log, e);
  }

  lemma MarkTells(d: Db, fact: Fact, exact: bool)
    requires Tells(d, exact) && (fact.SplitScheduled? || fact.ForEachFannedOut?)
    ensures Tells(Append(ClearCurrent(d), fact, None), exact)
  {
    FactKeepsRecords(ClearCurrent(d), fact, None);
    MarkedInstance(d, Append(ClearCurrent(d), fact, None), Next(d, fact, None));
  }

  lemma MarkFanOutTells(d: Db, targets: seq<ParallelTarget>, forEach: Option<FanOut>, src: nat, round: int, exact: bool)
    requires Movable(d, exact) && src < |d.activities|
    ensures var d' := MarkFanOut(d, targets, forEach, src, round);
            Movable(d', exact) && d'.current.None? && !EndsInArrival(d'.log)
  {
    if forEach.Some? {
      MarkTells(d, ForEachFannedOut(forEach.value.forEachNode, forEach.value.joinTarget, |targets|, round), exact);
    } else {
      MarkTells(d, SplitScheduled(d.activities[src].node, NodesOf(targets), round), exact);
    }
  }

  /** A join is tried on `d1`: right after a branch arrived in `d`, or in `d` itself after an empty fan-out. */
  predicate Trying(d: Db, d1: Db, exact: bool) {
    && Movable(d, exact)
    && ((d1 == d && d.current.None? && !EndsInArrival(d.log))
        || (HasJoin(d.def) && EndsInArrival(d1.log) && d1 == Append(d, d1.log[|d1.log| - 1].fact, None)))
  }

  lemma TryingRecords(d: Db, d1: Db, exact: bool)
    requires Trying(d, d1, exact)
    ensures RecordsAgree(d.def, d1.activities, d1.log) && LogSensible(d.def, d1.activities, d1.log)
    ensures FoldInstance(d1.log) == FoldInstance(d.log)
  {
    if d1 != d {
      FactKeepsRecords(d, d1.log[|d1.log| - 1].fact, None);
    }
  }

  /** The join goes on waiting. */
  lemma WaitTells(d: Db, d1: Db, exact: bool)
    requires Trying(d, d1, exact)
    ensures TellsAfter(Ok(ClearCurrent(d1)), exact)
  {
    TryingRecords(d, d1, exact);
    if d1 != d {
      MarksPush(d.log, d1.log[|d1.log| - 1]);
    }
  }

  /** The marks of the two logs say the same about the instance row. */
  predicate SameMarks(log: seq<Event>, log': seq<Event>) {
    && RowCurrent(log') == RowCurrent(log) && Waiting(log') == Waiting(log)
    && Stirred(log') == Stirred(log) && MovedOnPaper(log') == MovedOnPaper(log)
  }

  lemma PassedMarks(d: Db, d1: Db, fact: Fact, exact: bool)
    requires Trying(d, d1, exact) && fact.JoinSatisfied?
    ensures SameMarks(d.log, Append(d1, fact, None).log)
  {
    MarksPush(d1.log, Next(d1, fact, None));
    if d1 != d {
      assert d1.log[..|d1.log| - 1] == d.log;
      MarksPush(d.log, d1.log[|d.log|]);
    }
  }

  /** The join is satisfied. */
  lemma PassedTells(d: Db, d1: Db, fact: Fact, exact: bool)
    requires Trying(d, d1, exact) && fact.JoinSatisfied?
    ensures Movable(Append(d1, fact, None), exact)
  {
    PassedMarks(d, d1, fact, exact);
    TryingRecords(d, d1, exact);
    FactKeepsRecords(d1, fact, None);
    InstanceTells(d, Append(d1, fact, None), exact);
  }

  /** Records in agreement and an instance row that replay does not see change. */
  lemma InstanceTells(d: Db, d': Db, exact: bool)
    requires Movable(d, exact) && d'.def == d.def && d'.status == d.status && d'.current == d.current
    requires d'.result == d.result
    requires RowsOk(d.def, d'.activities) && RecordsAgree(d.def, d'.activities, d'.log)
    requires LogSensible(d.def, d'.activities, d'.log)
    requires FoldInstance(d'.log) == FoldInstance(d.log) && SameMarks(d.log, d'.log)
    ensures Movable(d', exact)
  {
  }

  lemma SkipAllRecords(d: Db, exclude: Option<nat>, e: Event)
    requires RecordsTold(d) && (exclude.Some? ==> !d.IsActive(exclude.value)) && e.fact == ActivitySkipped(None)
    ensures var acts := SkipOthers(d, exclude).activities;
            RowsOk(d.def, acts) && RecordsAgree(d.def, acts, d.log + [e]) && LogSensible(d.def, acts, d.log + [e])
  {
    RecordsSkipAll(d.def, d.activities, d.log, e);
    SkipOthersRows(d, exclude);
    assert SkipOthers(d, exclude).activities == SkipActive(d.activities);
    SensibleStays(d.def, d.activities, d.log, SkipOthers(d, exclude).activities, e);
  }

  lemma SkipAllTells(d: Db, exclude: Option<nat>, exact: bool)
    requires Movable(d, exact) && (exclude.Some? ==> !d.IsActive(exclude.value))
    ensures Movable(Append(SkipOthers(d, exclude), ActivitySkipped(None), None), exact)
  {
    var e := Next(d, ActivitySkipped(None), None);
    SkipAllRecords(d, exclude, e);
    InstanceKept(d, Append(SkipOthers(d, exclude), ActivitySkipped(None), None), e);
  }

  lemma SatisfyTells(d: Db, d1: Db, join: Node, arrived: int, expected: int, round: int, exclude: Option<nat>,
                     exact: bool)
    requires Trying(d, d1, exact) && (exclude.Some? ==> !d.IsActive(exclude.value))
    ensures Movable(SatisfyJoin(d1, join, arrived, expected, round, exclude), exact)
  {
    PassedTells(d, d1, JoinSatisfied(join.id, arrived, expected, round), exact);
    var d2 := Append(d1, JoinSatisfied(join.id, arrived, expected, round), None);
    if StrategyOf(join).SkipsRemaining() && SkipsAny(d2, exclude) {
      SkipAllTells(d2, exclude, exact);
    }
  }

  lemma SatisfyKeepsEnded(d: Db, join: Node, arrived: int, expected: int, round: int, exclude: Option<nat>, src: nat)
    requires src < |d.activities| && !d.IsActive(src)
    ensures var d' := SatisfyJoin(d, join, arrived, expected, round, exclude);
            src < |d'.activities| && !d'.IsActive(src)
  {
  }

  // ------------------------------------------------------------------ terminal facts and rework

  lemma FailedInstance(d: Db, d': Db, e: Event)
    requires InstanceTold(d) && (d.status.Active? || d.status.ReturnedWaiting?) && e.fact.Errored?
    requires d'.log == d.log + [e]
    requires d'.current == d.current && d'.result == d.result
    requires d'.status == if d.status.Active? then WorkflowStatus.Errored else d.status
    ensures InstanceTold(d') && (d.status.Active? && Exact(d) ==> Exact(d'))
  {
    FoldPush(d.def, d.log, e);
    MarksPush(d.log, e);
  }

  lemma FailTells(d: Db, exact: bool)
    requires Movable(d, exact)
    ensures Tells(FailInstance(d), exact)
  {
    FactKeepsRecords(ErrorWorkflow(d), Fact.Errored, None);
    FailedInstance(d, FailInstance(d), Next(d, Fact.Errored, None));
  }

  lemma CompleteTells(env: Env, d: Db, result: WorkflowResult, exact: bool)
    requires Movable(d, exact)
    ensures TellsAfter(CompleteInstance(env, d, result), exact)
  {
    CompleteShape(env, d, result);
    if CompleteInstance(env, d, result).Ok? {
      CompletedTells(d, result, exact);
    }
  }

  lemma CompletedTells(d: Db, result: WorkflowResult, exact: bool)
    requires Movable(d, exact) && d.status.Active?
    ensures Tells(Append(CompleteWorkflow(d, result).0, Fact.Completed(result), None), exact)
  {
    var d1 := CompleteWorkflow(d, result).0;
    FactKeepsRecords(d1, Fact.Completed(result), None);
    MarksPush(d.log, Next(d, Fact.Completed(result), None));
  }

  lemma HandedBackRecords(d: Db, node: NodeId, role: Option<Role>, from: NodeId, d1: Db, d': Db)
    requires RecordsTold(d) && HandedBack(d, node, role, from, d1, d') && FindNode(d.def.nodes, node).Some?
    ensures RowsOk(d.def, d'.activities) && RecordsAgree(d.def, d'.activities, d'.log)
    ensures LogSensible(d.def, d'.activities, d'.log)
  {
    var round := MaxRound(d.activities) + 1;
    ScheduledRecords(d, node, role, round, Linear, d1);
    var e := Next(d1, ReturnedToRework(from, node, round, |d.activities|, role), None);
    RecordsHandBack(d.def, d1.activities, d1.log, e);
    SensibleStays(d.def, d1.activities, d1.log, d'.activities, e);
  }

  lemma HandedBackTells(d: Db, node: NodeId, role: Option<Role>, from: NodeId, d1: Db, d': Db, exact: bool)
    requires Movable(d, exact) && HandedBack(d, node, role, from, d1, d') && FindNode(d.def.nodes, node).Some?
    ensures Tells(d', exact)
  {
    var round := MaxRound(d.activities) + 1;
    HandedBackRecords(d, node, role, from, d1, d');
    ScheduledInstance(d, node, role, round, Linear, d1);
    var e := Next(d1, ReturnedToRework(from, node, round, |d.activities|, role), None);
    FoldPush(d.def, d1.log, e);
    MarksPush(d1.log, e);
  }

  lemma HandBackTells(env: Env, d: Db, target: NodeId, role: Option<Role>, src: nat, exact: bool)
    requires Movable(d, exact) && src < |d.activities|
    ensures TellsAfter(HandBack(env, d, target, role, src), exact)
  {
    var d1 := HandBackShape(env, d, target, role, src);
    if CanHandBack(env, d, target) {
      HandedBackTells(d, target, role, d.activities[src].node, d1, HandBack(env, d, target, role, src).value, exact);
    }
  }

  // ------------------------------------------------------------------ the outcome recursion

  lemma FoundJoin(def: Definition, id: NodeId)
    requires FindNode(def.nodes, id).Some? && FindNode(def.nodes, id).value.config.ParallelJoin?
    ensures HasJoin(def)
  {
    var node := FindNode(def.nodes, id).value;
    var i :| 0 <= i < |def.nodes| && def.nodes[i] == node;
  }

  /** `d` can be moved from the ended activity `src`. */
  predicate Leaving(d: Db, src: nat, exact: bool) {
    Movable(d, exact) && src < |d.activities| && !d.IsActive(src)
  }

  function Satisfied(d: Db, join: Node, expected: int, branches: seq<NodeId>, round: int, exclude: Option<nat>): Db {
    SatisfyJoin(d, join, CountArrived(d.activities, branches, round), expected, round, exclude)
  }

  /** Moving on from a satisfied join tells. */
  ghost predicate PassTold(env: Env, d: Db, join: NodeId, src: nat, round: int, fuel: nat, exact: bool) {
    src < |d.activities| && TellsAfter(PassJoin(env, d, join, src, round, fuel), exact)
  }

  /** A tried join tells if both its ways of going on do: waiting, and moving past it. */
  lemma TriedTells(env: Env, d: Db, join: Node, src: nat, round: int, exclude: Option<nat>, fuel: nat,
                   expected: int, branches: seq<NodeId>, exact: bool)
    requires src < |d.activities| && Expectation(d, join.id, round) == Ok((expected, branches))
    requires TellsAfter(Ok(ClearCurrent(d)), exact)
    requires fuel > 0 ==>
               PassTold(env, Satisfied(d, join, expected, branches, round, exclude), join.id, src, round, fuel - 1,
                        exact)
    ensures TellsAfter(TrySatisfyJoin(env, d, join, src, round, exclude, fuel), exact)
  {
    TryIs(env, d, join, src, round, exclude, fuel, expected, branches);
  }

  lemma {:induction false} TryingTold(env: Env, d: Db, d1: Db, join: Node, src: nat, round: int, exclude: Option<nat>,
                                      fuel: nat, expected: int, branches: seq<NodeId>, exact: bool)
    requires Trying(d, d1, exact) && Leaving(d, src, exact) && (exclude.Some? ==> exclude.value == src)
    ensures PassTold(env, Satisfied(d1, join, expected, branches, round, exclude), join.id, src, round, fuel, exact)
    decreases fuel, 6
  {
    SatisfiedLeaves(d, d1, join, CountArrived(d1.activities, branches, round), expected, round, exclude, src, exact);
    PassTells(env, Satisfied(d1, join, expected, branches, round, exclude), join.id, src, round, fuel, exact);
  }

  lemma {:induction false} TryTells(env: Env, d: Db, d1: Db, join: Node, src: nat, round: int, exclude: Option<nat>,
                                    fuel: nat, exact: bool)
    requires Trying(d, d1, exact) && Leaving(d, src, exact) && (exclude.Some? ==> exclude.value == src)
    ensures TellsAfter(TrySatisfyJoin(env, d1, join, src, round, exclude, fuel), exact)
    decreases fuel, 1
  {
    if Expectation(d1, join.id, round).Ok? {
      var (expected, branches) := Expectation(d1, join.id, round).value;
      WaitTells(d, d1, exact);
      if fuel > 0 {
        TryingTold(env, d, d1, join, src, round, exclude, fuel - 1, expected, branches, exact);
      }
      TriedTells(env, d1, join, src, round, exclude, fuel, expected, branches, exact);
    }
  }

  lemma SatisfiedLeaves(d: Db, d1: Db, join: Node, arrived: int, expected: int, round: int, exclude: Option<nat>,
                        src: nat, exact: bool)
    requires Trying(d, d1, exact) && Leaving(d, src, exact) && (exclude.Some? ==> exclude.value == src)
    ensures Leaving(SatisfyJoin(d1, join, arrived, expected, round, exclude), src, exact)
  {
    SatisfyTells(d, d1, join, arrived, expected, round, exclude, exact);
    SatisfyKeepsEnded(d1, join, arrived, expected, round, exclude, src);
  }

  lemma {:induction false} PassTells(env: Env, d: Db, join: NodeId, src: nat, round: int, fuel: nat, exact: bool)
    requires Leaving(d, src, exact)
    ensures TellsAfter(PassJoin(env, d, join, src, round, fuel), exact)
    decreases fuel, 5
  {
    var (outcome, trace) := DecideAdvance(d.def, env.cel, d.Ctx(), join, SignalType.Approved);
    ApplyTells(env, d, outcome, trace, src, round, fuel, exact);
  }

  lemma {:induction false} FanOutTells(env: Env, d: Db, targets: seq<ParallelTarget>, forEach: Option<FanOut>,
                                       src: nat, round: int, fuel: nat, exact: bool)
    requires Leaving(d, src, exact)
    ensures TellsAfter(FanOutTo(env, d, targets, forEach, src, round, fuel), exact)
    decreases fuel, 2
  {
    var d1 := MarkFanOut(d, targets, forEach, src, round);
    MarkFanOutTells(d, targets, forEach, src, round, exact);
    if targets == [] && forEach.Some? {
      if NodeOf(d1, forEach.value.joinTarget).Ok? {
        TryTells(env, d1, d1, NodeOf(d1, forEach.value.joinTarget).value, src, round, None, fuel, exact);
      }
    } else {
      TargetsTell(d1, targets, round, forEach.Some?, exact);
    }
  }

  lemma {:induction false} ReachTells(env: Env, d: Db, join: Node, src: nat, round: int, fuel: nat, exact: bool)
    requires Leaving(d, src, exact) && HasJoin(d.def)
    ensures TellsAfter(ReachJoin(env, d, join, src, round, fuel), exact)
    decreases fuel, 2
  {
    var d1 := Append(d, Fact.BranchReachedJoin(d.activities[src].node, join.id, round), None);
    TryTells(env, d, d1, join, src, round, Some(src), fuel, exact);
  }

  lemma {:induction false} DispatchTells(env: Env, d: Db, outcome: AdvanceOutcome, forEach: Option<FanOut>,
                                         src: nat, round: int, fuel: nat, exact: bool)
    requires Leaving(d, src, exact)
    ensures TellsAfter(Dispatch(env, d, outcome, forEach, src, round, fuel), exact)
    decreases fuel, 3
  {
    match outcome
    case Advance(target, role) =>
      if NodeOf(d, target).Ok? {
        var node := NodeOf(d, target).value;
        if node.config.ParallelJoin? {
          FoundJoin(d.def, target);
          ReachTells(env, d, node, src, round, fuel, exact);
        } else {
          AdvanceTells(d, node, role, round, exact);
        }
      }
    case AdvanceMulti(targets) => FanOutTells(env, d, targets, forEach, src, round, fuel, exact);
    case Complete(result) => CompleteTells(env, d, result, exact);
    case Rework(target, role) => HandBackTells(env, d, target, role, src, exact);
    case Error => FailTells(d, exact);
  }

  /** Applying any outcome keeps the rows rebuildable. */
  lemma {:induction false} ApplyTells(env: Env, d: Db, outcome: AdvanceOutcome, trace: ResolveTrace,
                                      src: nat, round: int, fuel: nat, exact: bool)
    requires Leaving(d, src, exact)
    ensures TellsAfter(ApplyOutcome(env, d, outcome, trace, src, round, fuel), exact)
    decreases fuel, 4
  {
    MergesKeepRows(d, d.activities[src].node, trace.merges, round);
    MergesTell(d, d.activities[src].node, trace.merges, round, exact);
    DispatchTells(env, AppendMerges(d, d.activities[src].node, trace.merges, round), outcome, trace.forEach, src, round,
                  fuel, exact);
  }

  lemma MoveOnTells(env: Env, d: Db, a: nat, signal: SignalType, fuel: nat, exact: bool)
    requires Leaving(d, a, exact)
    ensures TellsAfter(MoveOn(env, d, a, signal, fuel), exact)
  {
    var (outcome, trace) := DecideAdvance(d.def, env.cel, d.Ctx(), d.activities[a].node, signal);
    ApplyTells(env, d, outcome, trace, a, d.activities[a].round, fuel, exact);
  }

  // ------------------------------------------------------------------ one row and its fact

  /** A fact that updates the record of `a` the way the row is updated. */
  lemma RowTells(d: Db, a: nat, row: Activity, timers: seq<TimerRow>, fact: Fact, key: Option<string>,
                 change: Activity -> Activity, exact: bool)
    requires Tells(d, exact) && a < |d.activities| && KeepsId(change) && row == change(d.activities[a])
    requires RowsOk(d.def, d.activities[a := row]) && row.round == d.activities[a].round
    requires ApplyToActivities(d.def, FoldActivities(d.def, d.log), fact)
             == UpdateFirst(FoldActivities(d.def, d.log), a, change)
    requires SparesInstance(fact) && !fact.BranchReachedJoin? && !fact.JoinSatisfied? && fact != ActivitySkipped(None)
    ensures Tells(Append(d.(activities := d.activities[a := row], timers := timers), fact, key), exact)
  {
    var e := Next(d, fact, key);
    RecordsUpdate(d.def, d.activities, d.log, e, a, change);
    SensibleStays(d.def, d.activities, d.log, d.activities[a := row], e);
    InstanceKept(d, Append(d.(activities := d.activities[a := row], timers := timers), fact, key), e);
  }

  lemma RowStaysOk(d: Db, a: nat, row: Activity)
    requires RowsOk(d.def, d.activities) && a < |d.activities|
    requires row == d.activities[a].(status := row.status, role := row.role, assignee := row.assignee,
                                     result := row.result, notes := row.notes, reviewer := row.reviewer)
    requires !row.status.Completed? ==> row.result.None? && row.notes.None? && row.reviewer.None?
    ensures RowsOk(d.def, d.activities[a := row])
  {
  }

  // ------------------------------------------------------------------ signal

  lemma ClaimTells(d: Db, a: nat, cmd: SignalCommand, exact: bool)
    requires Tells(d, exact) && d.IsActive(a) && IsClaim(cmd.signal)
    ensures Tells(Claim(d, a, cmd), exact)
  {
    var fact := SignalReceived(cmd.signal, a, None, None, cmd.assignee);
    var row := d.activities[a].(assignee := cmd.assignee);
    RowStaysOk(d, a, row);
    RowTells(d, a, row, d.timers, fact, Some(cmd.key), OnSignal(fact), exact);
  }

  lemma ContextTells(d: Db, node: Node, round: int, patch: Option<Context>, exact: bool)
    requires Tells(d, exact)
    ensures TellsAfter(ApplyContextWrites(d, node, round, patch), exact)
  {
    var r := ApplyContextWrites(d, node, round, patch);
    if r.Ok? && node.contextWrites != [] {
      SilentTells(d.(context := r.value.context), ContextUpdated(node.id, node.contextWrites, round), None, exact);
    }
  }

  lemma ReviewedTells(d: Db, a: nat, cmd: SignalCommand, d1: Db, d2: Db, exact: bool)
    requires Tells(d, exact) && d.IsActive(a) && !IsClaim(cmd.signal) && Reviewed(d, a, cmd, d1, d2)
    ensures Tells(d2, exact)
  {
    ReviewedRecords(d, a, cmd, d1, d2);
    InstanceKept(d, d1, Next(d, SignalReceived(cmd.signal, a, Some(cmd.actor), cmd.notes, None), Some(cmd.key)));
    InstanceKept(d1, d2, Next(d1, ActivityCompleted(a, SignalResult(cmd.signal), false), None));
  }

  lemma ReviewedRecords(d: Db, a: nat, cmd: SignalCommand, d1: Db, d2: Db)
    requires RecordsTold(d) && d.IsActive(a) && !IsClaim(cmd.signal) && Reviewed(d, a, cmd, d1, d2)
    ensures RowsOk(d.def, d2.activities) && RecordsAgree(d.def, d2.activities, d2.log)
    ensures LogSensible(d.def, d2.activities, d2.log)
  {
    var received := SignalReceived(cmd.signal, a, Some(cmd.actor), cmd.notes, None);
    var completed := ActivityCompleted(a, SignalResult(cmd.signal), false);
    var e1, e2 := Next(d, received, Some(cmd.key)), Next(d1, completed, None);
    ReceivedRecords(d, a, e1, e2, d2.activities);
    SensibleStays(d.def, d.activities, d.log, d2.activities, e1);
    SensibleStays(d.def, d2.activities, d.log + [e1], d2.activities, e2);
    RowStaysOk(d, a, ReviewedRow(d.activities[a], cmd));
  }

  /** The two facts of a signal rebuild the one update of the row. */
  lemma ReceivedRecords(d: Db, a: nat, e1: Event, e2: Event, acts: seq<Activity>)
    requires RecordsTold(d) && a < |d.activities|
    requires e1.fact.SignalReceived? && e1.fact.target == a && e2.fact.ActivityCompleted? && e2.fact.activity == a
    requires acts == d.activities[a := OnCompleted(e2.fact)(OnSignal(e1.fact)(d.activities[a]))]
    ensures RecordsAgree(d.def, acts, d.log + [e1] + [e2])
  {
    var acts1 := d.activities[a := OnSignal(e1.fact)(d.activities[a])];
    RecordsUpdate(d.def, d.activities, d.log, e1, a, OnSignal(e1.fact));
    RecordsUpdate(d.def, acts1, d.log + [e1], e2, a, OnCompleted(e2.fact));
    assert acts1[a := OnCompleted(e2.fact)(acts1[a])] == acts;
  }

  lemma ReviewTells(d: Db, a: nat, cmd: SignalCommand, exact: bool)
    requires Tells(d, exact) && d.IsActive(a) && !IsClaim(cmd.signal)
    ensures var d' := Review(d, a, cmd).value;
            && Review(d, a, cmd).Ok? && Tells(d', exact)
            && d'.status == d.status && |d'.activities| == |d.activities| && !d'.IsActive(a)
  {
    var d1 := ReviewShape(d, a, cmd);
    ReviewedTells(d, a, cmd, d1, Review(d, a, cmd).value, exact);
  }

  lemma ResumedInstance(d: Db, d': Db, e: Event)
    requires InstanceTold(d) && e.fact.ReworkResumed? && d'.log == d.log + [e]
    requires d'.status.Active? && d'.current == d.current && d'.result == d.result
    ensures InstanceTold(d') && (Exact(d) ==> Exact(d'))
  {
    FoldPush(d.def, d.log, e);
    MarksPush(d.log, e);
  }

  /** Resuming brings the status together again, if the two had parted. */
  lemma ResumeTells(d: Db, a: nat, exact: bool)
    requires Tells(d, exact) && a < |d.activities|
    ensures var d' := ResumeIfWaiting(d, a);
            Tells(d', exact) && d'.activities == d.activities
                && (d.status.Active? || d.status.ReturnedWaiting? ==> d'.status.Active?)
  {
    if d.status.ReturnedWaiting? {
      var fact := ReworkResumed(d.activities[a].node, d.activities[a].round);
      FactKeepsRecords(ResumeFromReturnedWaiting(d).0, fact, None);
      ResumedInstance(d, ResumeIfWaiting(d, a), Next(d, fact, None));
    }
  }

  lemma ResumedTells(d: Db, a: nat, cmd: SignalCommand, exact: bool)
    requires Tells(d, exact) && d.IsActive(a) && !IsClaim(cmd.signal) && (d.status.Active? || d.status.ReturnedWaiting?)
    ensures var r := Review(d, a, cmd);
            r.Ok? ==> a < |r.value.activities| && Leaving(ResumeIfWaiting(r.value, a), a, exact)
  {
    ReviewTells(d, a, cmd, exact);
    if Review(d, a, cmd).Ok? {
      ResumeTells(Review(d, a, cmd).value, a, exact);
    }
  }

  lemma SettleTells(d: Db, a: nat, node: Node, cmd: SignalCommand, exact: bool)
    requires Tells(d, exact) && d.IsActive(a) && !IsClaim(cmd.signal) && (d.status.Active? || d.status.ReturnedWaiting?)
    ensures var r := SettleSignal(d, a, node, cmd);
            r.Ok? ==> Leaving(r.value, a, exact)
  {
    ContextTells(d, node, d.activities[a].round, cmd.patch, exact);
    var r1 := ApplyContextWrites(d, node, d.activities[a].round, cmd.patch);
    if r1.Ok? {
      assert r1.value.activities == d.activities && r1.value.status == d.status;
      ResumedTells(r1.value, a, cmd, exact);
    }
  }

  lemma SettledMoveTells(env: Env, d: Db, a: nat, node: Node, cmd: SignalCommand, d1: Db, fuel: nat, exact: bool)
    requires Tells(d, exact) && d.IsActive(a) && !IsClaim(cmd.signal) && (d.status.Active? || d.status.ReturnedWaiting?)
    requires SettleSignal(d, a, node, cmd) == Ok(d1)
    ensures a < |d1.activities| && TellsAfter(MoveOn(env, d1, a, cmd.signal, fuel), exact)
  {
    SettleTells(d, a, node, cmd, exact);
    MoveOnTells(env, d1, a, cmd.signal, fuel, exact);
  }

  lemma HeedTells(env: Env, d: Db, a: nat, node: Node, cmd: SignalCommand, fuel: nat, exact: bool)
    requires Tells(d, exact) && d.IsActive(a) && (d.status.Active? || d.status.ReturnedWaiting?)
    ensures TellsAfter(Heed(env, d, a, node, cmd, fuel), exact)
  {
    if IsClaim(cmd.signal) {
      ClaimTells(d, a, cmd, exact);
    } else if SettleSignal(d, a, node, cmd).Ok? {
      SettledMoveTells(env, d, a, node, cmd, SettleSignal(d, a, node, cmd).value, fuel, exact);
    }
  }

  lemma SignalTells(env: Env, d: Db, cmd: SignalCommand, fuel: nat, exact: bool)
    requires Tells(d, exact) && StatusOk(d.status)
    ensures var r := Signal(env, d, cmd, fuel);
            r.Ok? ==> Tells(r.value.0, exact)
  {
    var r := Signal(env, d, cmd, fuel);
    if r.Ok? && !r.value.1 {
      var a := TargetActivity(d, cmd.activity).value;
      HeedTells(env, d, a, NodeOf(d, d.activities[a].node).value, cmd, fuel, exact);
    }
  }

  // ------------------------------------------------------------------ start and resubmit

  /** The records agree and the instance row is active while its entry activity is still to be scheduled. */
  predicate Entering(d: Db) {
    && RecordsTold(d) && !Waiting(d.log)
    && FoldInstance(d.log).result == d.result && FoldInstance(d.log).status == d.status && d.status.Active?
  }

  lemma EnteredTells(d: Db, node: Node, role: Option<Role>, round: int)
    requires Entering(d) && FindNode(d.def.nodes, node.id) == Some(node)
    ensures TellsAfter(AdvanceTo(d, node, role, round), true)
  {
    if !node.config.SubWorkflow? {
      ScheduleShape(d, node, role, round, Linear);
      EnteredAt(d, node.id, role, round, ScheduleActivity(d, node, role, round, Linear).value.0);
    }
  }

  lemma EnteredAt(d: Db, node: NodeId, role: Option<Role>, round: int, d1: Db)
    requires Entering(d) && FindNode(d.def.nodes, node).Some? && Scheduled(d, node, role, round, Linear, d1)
    ensures Tells(UpdateCurrent(d1, |d.activities|), true)
  {
    ScheduledRecords(d, node, role, round, Linear, d1);
    ScheduledInstance(d, node, role, round, Linear, d1);
  }

  lemma StartedEnters(d: Db, callback: Option<string>)
    requires d.log == [Event(1, Started(callback), None)] && d.activities == [] && d.result.None? && d.status.Active?
    ensures Entering(d)
  {
    FoldPush(d.def, [], Event(1, Started(callback), None));
    MarksPush([], Event(1, Started(callback), None));
    SensibleStays(d.def, [], [], [], Event(1, Started(callback), None));
    assert d.log == [] + [Event(1, Started(callback), None)];
  }

  lemma StartTells(env: Env, cmd: StartCommand)
    ensures TellsAfter(StartInstance(env, cmd), true)
  {
    if StartInstance(env, cmd).Ok? {
      var d := Append(NewInstance(cmd.def, cmd.context), Started(cmd.callback), None);
      var entry := DecideStart(cmd.def.nodes).value;
      StartedEnters(d, cmd.callback);
      EnteredTells(d, FindNode(cmd.def.nodes, entry.id).value, entry.AssigneeRole(), 1);
      StartAdvances(env, cmd, d, entry);
    }
  }

  lemma StartAdvances(env: Env, cmd: StartCommand, d: Db, entry: Node)
    requires StartInstance(env, cmd).Ok? && DecideStart(cmd.def.nodes) == Some(entry)
    requires d == Append(NewInstance(cmd.def, cmd.context), Started(cmd.callback), None)
    ensures FindNode(cmd.def.nodes, entry.id).Some?
    ensures StartInstance(env, cmd) == AdvanceTo(d, FindNode(cmd.def.nodes, entry.id).value, entry.AssigneeRole(), 1)
  {
  }

  lemma ReactivatedEnters(d: Db, round: int, key: string)
    requires Told(d) && d.status.Completed? && d.result == Some(WorkflowResult.Returned)
    ensures Entering(Append(ReactivateWorkflow(d).0, Reactivated(round), Some(key)))
  {
    FactKeepsRecords(ReactivateWorkflow(d).0, Reactivated(round), Some(key));
    MarksPush(d.log, Next(d, Reactivated(round), Some(key)));
  }

  lemma ResubmitTells(env: Env, d: Db, key: string, visible: bool, exact: bool)
    requires Tells(d, exact)
    ensures var r := Resubmit(env, d, key, visible);
            r.Ok? ==> Tells(r.value.0, exact)
  {
    var r := Resubmit(env, d, key, visible);
    if r.Ok? && !r.value.1 {
      var d1, entry, node := ResubmitShape(env, d, key, visible);
      ResubmittedTells(env, d, key, entry, node, d1, r.value.0);
    }
  }

  lemma ResubmittedTells(env: Env, d: Db, key: string, entry: Node, node: Node, d1: Db, d': Db)
    requires Told(d) && Calls.Resubmitted(env, d, key, entry, node, d1, d')
    ensures Tells(d', true)
  {
    var round := MaxRound(d.activities) + 1;
    ReactivatedEnters(d, round, key);
    EnteredTells(d1, node, entry.AssigneeRole(), round);
  }

  // ------------------------------------------------------------------ timers

  lemma EscalationTells(d: Db, a: nat, node: Node, exact: bool)
    requires Tells(d, exact) && d.IsActive(a)
    ensures Tells(FireEscalation(d, a, node).0, exact)
  {
    if node.EscalationConfig().Some? {
      var toRole := node.EscalationConfig().value.1;
      EscalationShape(d, a, node);
      RowStaysOk(d, a, d.activities[a].(role := Some(toRole)));
      RowTells(d, a, d.activities[a].(role := Some(toRole)), d.timers, Escalated(a, d.activities[a].role, toRole), None,
               OnEscalated(toRole), exact);
    }
  }

  lemma TimedOutTells(d: Db, a: nat, exact: bool)
    requires Movable(d, exact) && d.IsActive(a)
    ensures Leaving(TimedOutDb(d, a), a, exact)
  {
    var row := d.activities[a].(status := ActivityStatus.Skipped);
    RowStaysOk(d, a, row);
    RowTells(d, a, row, CancelTimers(d, a).timers, ActivitySkipped(Some(a)), None, OnSkipped(), exact);
  }

  lemma TimeoutTells(env: Env, d: Db, a: nat, fuel: nat, exact: bool)
    requires Movable(d, exact) && d.IsActive(a)
    ensures TellsAfter(FireTimeout(env, d, a, fuel), exact)
  {
    TimedOutTells(d, a, exact);
    var d1 := TimedOutDb(d, a);
    var (outcome, trace) := DecideTimeout(d1.def, env.cel, d1.Ctx(), d.activities[a].node);
    ApplyTells(env, d1, outcome, trace, a, d.activities[a].round, fuel, exact);
  }

  lemma OnTimerTells(env: Env, d: Db, kind: TimerKind, a: nat, node: Node, fuel: nat, exact: bool)
    requires Tells(d, exact) && d.IsActive(a) && (kind.Timeout? ==> Movable(d, exact))
    ensures var r := OnTimer(env, d, kind, a, node, fuel);
            r.Ok? ==> Tells(r.value.0, exact)
  {
    match kind
    case Reminder =>
    case Escalation => EscalationTells(d, a, node, exact);
    case Timeout => TimeoutTells(env, d, a, fuel, exact);
  }

  lemma FireTells(env: Env, d: Db, t: nat, fuel: nat, exact: bool)
    requires Tells(d, exact) && StatusOk(d.status) && (exact ==> !LateTimer(d, t))
    ensures var r := FireTimer(env, d, t, fuel);
            r.Ok? ==> Tells(r.value.0, exact)
  {
    var r := FireTimer(env, d, t, fuel);
    var (d1, won) := MarkTimerFired(d, t);
    if r.Ok? && won && !d1.status.IsTerminal() && d1.IsActive(d.timers[t].activity) {
      var a, fact := d.timers[t].activity, Fact.TimerFired(d.timers[t].kind, d.timers[t].activity);
      SilentTells(d1, fact, None, exact);
      OnTimerTells(env, Append(d1, fact, None), d.timers[t].kind, a, NodeOf(d1, d1.activities[a].node).value, fuel,
                   exact);
    }
  }

  // ------------------------------------------------------------------ delivery

  lemma DeliveredTells(d: Db, a: nat, exact: bool)
    requires Movable(d, exact) && d.IsActive(a)
    ensures Leaving(SettleDelivery(d, a), a, exact)
  {
    var row := d.activities[a].(status := ActivityStatus.Completed, result := None, reviewer := Some(SYSTEM_ACTOR),
                                notes := None);
    RowStaysOk(d, a, row);
    RowTells(d, a, row, CancelTimers(d, a).timers, ActivityCompleted(a, None, true), None,
             OnCompleted(ActivityCompleted(a, None, true)), exact);
  }

  lemma DeliverTells(env: Env, d: Db, a: nat, fuel: nat, exact: bool)
    requires Tells(d, exact) && StatusOk(d.status) && (exact ==> !LateDelivery(d, a))
    ensures TellsAfter(OnNotificationDelivered(env, d, a, fuel), exact)
  {
    if !d.status.IsTerminal() && d.IsActive(a) && d.activities[a].activityType.Notification? {
      DeliveredTells(d, a, exact);
      MoveOnTells(env, SettleDelivery(d, a), a, SignalType.Completed, fuel, exact);
    }
  }
}
