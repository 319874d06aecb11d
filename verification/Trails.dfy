/** Where a move ends up: a decision followed through the joins it satisfies, up to the join that still waits or the
    outcome that rests. A trail is read off the rows as they are before the move. */
module Trails {
  import opened Core
  import opened Routing
  import opened Facts
  import opened Replay
  import opened Database
  import opened Engine
  import opened Preservation
  import opened Agreement

  /** What an outcome leads straight to: a join, reached by a branch or by a fan-out over no items; nowhere, if the
      node does not exist; or to its own end. */
  datatype Lead = ToJoin(join: Node, empty: bool) | Lost | Ends(outcome: AdvanceOutcome)

  function LeadOf(def: Definition, outcome: AdvanceOutcome, forEach: Option<FanOut>): Lead {
    match outcome
    case Advance(target, _) =>
      var node := FindNode(def.nodes, target);
      if node.None? then Lost
      else if node.value.config.ParallelJoin? then ToJoin(node.value, false)
      else Ends(outcome)
    case AdvanceMulti(targets) =>
      if targets != [] || forEach.None? then Ends(outcome)
      else
        var node := FindNode(def.nodes, forEach.value.joinTarget);
        if node.None? then Lost else ToJoin(node.value, true)
    case _ => Ends(outcome)
  }

  /** What lies past a join once it is satisfied. */
  function LeadPast(def: Definition, cel: Cel, ctx: Context, join: NodeId): Lead {
    var (outcome, trace) := DecideAdvance(def, cel, ctx, join, SignalType.Approved);
    LeadOf(def, outcome, trace.forEach)
  }

  function Emptied(lead: Lead): set<NodeId> {
    if lead.ToJoin? && lead.empty then {lead.join.id} else {}
  }

  /** What a join expects when the joins in `emptied` have been led to over no items in this move. */
  function Expects(d: Db, emptied: set<NodeId>, join: NodeId, round: int): Result<(int, seq<NodeId>)> {
    if join in emptied then
      match ForEachTemplate(d.def.nodes, join)
      case Some(template) => Ok((0, [template]))
      case None => Err(InvalidState)
    else
      Expectation(d, join, round)
  }

  predicate Satisfies(d: Db, emptied: set<NodeId>, join: Node, round: int) {
    var e := Expects(d, emptied, join.id, round);
    e.Ok? && StrategyOf(join).IsSatisfied(CountArrived(d.activities, e.value.1, round), e.value.0)
  }

  /** A move waits at a join, having led to the joins in `emptied` over no items; breaks off; carries out an outcome; or
      runs on for ever. */
  datatype Stop = Waits(join: NodeId, emptied: set<NodeId>) | Breaks | Rests(outcome: AdvanceOutcome) | Endless

  function Trail(cel: Cel, d: Db, lead: Lead, emptied: set<NodeId>, round: int, fuel: nat): Stop
    decreases fuel, 1
  {
    match lead
    case Ends(outcome) => Rests(outcome)
    case Lost => Breaks
    case ToJoin(join, _) => AtJoin(cel, d, join, emptied + Emptied(lead), round, fuel)
  }

  function AtJoin(cel: Cel, d: Db, join: Node, emptied: set<NodeId>, round: int, fuel: nat): Stop
    decreases fuel, 0
  {
    if Expects(d, emptied, join.id, round).Err? then Breaks
    else if !Satisfies(d, emptied, join, round) then Waits(join.id, emptied)
    else if fuel == 0 then Endless
    else Trail(cel, d, LeadPast(d.def, cel, d.Ctx(), join.id), emptied, round, fuel - 1)
  }

  // ------------------------------------------------------------------ facts that stir

  predicate StirsIn(log: seq<Event>, log': seq<Event>) {
    exists i :: |log| <= i < |log'| && Stirs(log'[i].fact)
  }

  predicate Calm(log: seq<Event>, log': seq<Event>) {
    log <= log' && !StirsIn(log, log')
  }

  lemma CalmThen(a: seq<Event>, b: seq<Event>, c: seq<Event>)
    requires Calm(a, b) && b <= c
    ensures a <= c && (StirsIn(a, c) <==> StirsIn(b, c))
  {
    forall i | |a| <= i < |b| ensures !Stirs(c[i].fact) {
      assert b[i] == c[i];
    }
  }

  /** Outcomes that stir when they are carried out. */
  predicate StirsWhenDone(outcome: AdvanceOutcome) {
    match outcome
    case AdvanceMulti(targets) => targets != []
    case Complete(_) => false
    case _ => true
  }

  /** Outcomes that nothing can keep from being carried out. */
  predicate Certain(def: Definition, outcome: AdvanceOutcome) {
    match outcome
    case Advance(target, _) => FindNode(def.nodes, target).Some?
        && !FindNode(def.nodes, target).value.config.SubWorkflow?
    case Error => true
    case _ => false
  }

  /** The result of a move is the one its trail announces. */
  predicate Goes(def: Definition, log: seq<Event>, stop: Stop, r: Result<Db>) {
    match stop
    case Waits(_, _) => r.Ok? && Calm(log, r.value.log)
    case Breaks => r == Err(InvalidState)
    case Endless => r == Err(Diverges)
    case Rests(outcome) =>
      && r != Err(Diverges) && (Certain(def, outcome) ==> r.Ok?)
      && (r.Ok? && outcome.Complete? ==> r.value.status.Completed?)
      && (r.Ok? ==> log <= r.value.log && (StirsIn(log, r.value.log) <==> StirsWhenDone(outcome)))
  }

  lemma GoesThen(def: Definition, log: seq<Event>, log1: seq<Event>, stop: Stop, r: Result<Db>)
    requires Calm(log, log1) && Goes(def, log1, stop, r)
    ensures Goes(def, log, stop, r)
  {
    if r.Ok? {
      CalmThen(log, log1, r.value.log);
    }
  }

  // ------------------------------------------------------------------ the current activity of a waiting instance

  function Cleared(emptied: set<NodeId>, current: Option<nat>): Option<nat> {
    if emptied == {} then current else None
  }

  /** What a move has made of the current activity of a waiting instance so far: a fan-out over no items clears it in
      the row and in the log alike. */
  predicate CurrentMidway(d: Db, d': Db, emptied: set<NodeId>) {
    d.status.ReturnedWaiting? ==>
      && d'.status.ReturnedWaiting? && d'.current == Cleared(emptied, d.current)
      && FoldInstance(d'.log).current == Cleared(emptied, FoldInstance(d.log).current)
  }

  /** Where a move leaves the current activity of an instance that waits for rework: the row, and what the log makes
      of it. */
  predicate CurrentGoes(d: Db, stop: Stop, r: Result<Db>) {
    match r
    case Err(_) => true
    case Ok(d') => d.status.ReturnedWaiting? ==> CurrentAt(d, stop, d')
  }

  predicate CurrentAt(d: Db, stop: Stop, d': Db) {
    match stop
    case Waits(_, emptied) =>
      d'.current.None? && FoldInstance(d'.log).current == Cleared(emptied, FoldInstance(d.log).current)
    case Rests(outcome) =>
      (match outcome
       case Advance(_, _) =>
         FoldInstance(d'.log).current == Some(|d.activities|) && (d'.current.None? || d'.current == d.current)
       case AdvanceMulti(_) => d'.current.None? && FoldInstance(d'.log).current.None?
       case Error => FoldInstance(d.log).current == d.current ==> FoldInstance(d'.log).current == d'.current
       case _ => false)
    case _ => false
  }

  lemma CurrentPush(log: seq<Event>, e: Event)
    ensures FoldInstance(log + [e]).current == Pointed(FoldInstance(log).current, e.fact)
  {
    assert (log + [e])[..|log|] == log;
    PointedIsReplayed(FoldInstance(log), e.fact);
  }

  // ------------------------------------------------------------------ rows during a move

  predicate KeptOrSkipped(acts: seq<Activity>, acts': seq<Activity>) {
    && |acts'| == |acts|
    && forall i :: 0 <= i < |acts| ==>
         acts'[i] == acts[i] || (acts[i].status.Active? && acts'[i] == acts[i].(status := ActivityStatus.Skipped))
  }

  function CountIn(d: Db, emptied: set<NodeId>, join: NodeId, round: int): Option<nat> {
    if join in emptied then Some(0) else ForEachBranchCount(d.log, join, round)
  }

  /** `d'` is what a move has made of `d` so far, apart from the log. */
  ghost predicate Midway(d: Db, d': Db, emptied: set<NodeId>, round: int) {
    && d'.def == d.def && d'.context == d.context
    && KeptOrSkipped(d.activities, d'.activities) && CurrentMidway(d, d', emptied)
    && forall join :: ForEachBranchCount(d'.log, join, round) == CountIn(d, emptied, join, round)
  }

  lemma {:induction false} SkippingKeepsArrivals(acts: seq<Activity>, acts': seq<Activity>, branches: seq<NodeId>,
                                                 round: int)
    requires KeptOrSkipped(acts, acts')
    ensures CountArrived(acts', branches, round) == CountArrived(acts, branches, round)
  {
    if acts != [] {
      SkippingKeepsArrivals(acts[..|acts| - 1], acts'[..|acts| - 1], branches, round);
    }
  }

  lemma MidwayExpects(d: Db, d': Db, emptied: set<NodeId>, join: Node, round: int)
    requires Midway(d, d', emptied, round)
    ensures Expectation(d', join.id, round) == Expects(d, emptied, join.id, round)
    ensures Expectation(d', join.id, round).Ok? ==>
              var (expected, branches) := Expectation(d', join.id, round).value;
              Satisfies(d, emptied, join, round) <==>
              StrategyOf(join).IsSatisfied(CountArrived(d'.activities, branches, round), expected)
  {
    assert ForEachBranchCount(d'.log, join.id, round) == CountIn(d, emptied, join.id, round);
    if Expectation(d', join.id, round).Ok? {
      SkippingKeepsArrivals(d.activities, d'.activities, Expectation(d', join.id, round).value.1, round);
    }
  }

  /** One more fact, which is not about the current activity. */
  lemma MidwayFact(d: Db, d': Db, emptied: set<NodeId>, round: int, fact: Fact)
    requires Midway(d, d', emptied, round) && !Touches(fact)
    ensures Midway(d, Append(d', fact, None), emptied, round)
  {
    var d2 := Append(d', fact, None);
    CurrentPush(d'.log, d2.log[|d'.log|]);
    assert d2.log[..|d'.log|] == d'.log;
    forall join ensures ForEachBranchCount(d2.log, join, round) == CountIn(d, emptied, join, round) {
      assert ForEachBranchCount(d2.log, join, round) == ForEachBranchCount(d'.log, join, round);
    }
  }

  lemma CalmFact(d: Db, fact: Fact)
    requires !Stirs(fact)
    ensures Calm(d.log, Append(d, fact, None).log)
  {
  }

  lemma {:induction false} MidwayMerges(d: Db, d': Db, emptied: set<NodeId>, from: NodeId, merges: seq<NodeId>,
                                        round: int)
    requires Midway(d, d', emptied, round)
    ensures var d2 := AppendMerges(d', from, merges, round);
            Midway(d, d2, emptied, round) && Calm(d'.log, d2.log)
    decreases |merges|
  {
    if merges != [] {
      var d1 := Append(d', MergePassed(from, merges[0], round), None);
      MidwayFact(d, d', emptied, round, MergePassed(from, merges[0], round));
      CalmFact(d', MergePassed(from, merges[0], round));
      MidwayMerges(d, d1, emptied, from, merges[1..], round);
      CalmThen(d'.log, d1.log, AppendMerges(d1, from, merges[1..], round).log);
    }
  }

  lemma MidwaySkip(d: Db, d': Db, emptied: set<NodeId>, exclude: Option<nat>, round: int)
    requires Midway(d, d', emptied, round)
    ensures var d2 := Append(SkipOthers(d', exclude), ActivitySkipped(None), None);
            Midway(d, d2, emptied, round) && Calm(d'.log, d2.log)
  {
    var d1 := SkipOthers(d', exclude);
    assert KeptOrSkipped(d.activities, d1.activities);
    assert Midway(d, d1, emptied, round);
    MidwayFact(d, d1, emptied, round, ActivitySkipped(None));
    CalmFact(d1, ActivitySkipped(None));
  }

  lemma MidwaySatisfied(d: Db, d': Db, emptied: set<NodeId>, join: Node, arrived: int, expected: int, round: int,
                        exclude: Option<nat>)
    requires Midway(d, d', emptied, round)
    ensures var d2 := SatisfyJoin(d', join, arrived, expected, round, exclude);
            Midway(d, d2, emptied, round) && Calm(d'.log, d2.log)
  {
    var fact := JoinSatisfied(join.id, arrived, expected, round);
    var d1 := Append(d', fact, None);
    MidwayFact(d, d', emptied, round, fact);
    CalmFact(d', fact);
    if StrategyOf(join).SkipsRemaining() && SkipsAny(d1, exclude) {
      MidwaySkip(d, d1, emptied, exclude, round);
      CalmThen(d'.log, d1.log, SatisfyJoin(d', join, arrived, expected, round, exclude).log);
    }
  }

  /** A fan-out over no items towards a join. */
  lemma MidwayEmpty(d: Db, d': Db, emptied: set<NodeId>, fan: FanOut, src: nat, round: int)
    requires Midway(d, d', emptied, round) && src < |d'.activities|
    ensures var d2 := MarkFanOut(d', [], Some(fan), src, round);
            Midway(d, d2, emptied + {fan.joinTarget}, round) && Calm(d'.log, d2.log)
  {
    var d2 := MarkFanOut(d', [], Some(fan), src, round);
    assert d2.log[..|d'.log|] == d'.log;
    CurrentPush(d'.log, d2.log[|d'.log|]);
    forall join
      ensures ForEachBranchCount(d2.log, join, round) == CountIn(d, emptied + {fan.joinTarget}, join, round)
    {
      assert ForEachBranchCount(d'.log, join, round) == CountIn(d, emptied, join, round);
    }
  }

  // ------------------------------------------------------------------ what an end does

  lemma AdvanceGoes(d: Db, target: NodeId, node: Node, role: Option<Role>, round: int)
    requires FindNode(d.def.nodes, target) == Some(node) && !node.config.ParallelJoin?
    ensures Goes(d.def, d.log, Rests(AdvanceOutcome.Advance(target, role)), AdvanceTo(d, node, role, round))
  {
    if !node.config.SubWorkflow? {
      ScheduleShape(d, node, role, round, Linear);
      var log := AdvanceTo(d, node, role, round).value.log;
      assert Stirs(log[|d.log|].fact);
    }
  }

  lemma {:induction false} TargetsGo(d: Db, targets: seq<ParallelTarget>, round: int, byForEach: bool)
    ensures var r := ScheduleTargets(d, targets, round, byForEach);
            && r != Err(Diverges)
            && (r.Ok? ==> d.log <= r.value.log && (StirsIn(d.log, r.value.log) <==> targets != []))
    decreases |targets|
  {
    if targets != [] && NodeOf(d, targets[0].node).Ok? {
      var node, via := NodeOf(d, targets[0].node).value, Fanned(byForEach, targets[0].item);
      if !node.config.SubWorkflow? {
        ScheduleShape(d, node, targets[0].role, round, via);
        var d1 := ScheduleActivity(d, node, targets[0].role, round, via).value.0;
        TargetsGo(d1, targets[1..], round, byForEach);
        if ScheduleTargets(d1, targets[1..], round, byForEach).Ok? {
          assert Stirs(ScheduleTargets(d1, targets[1..], round, byForEach).value.log[|d.log|].fact);
        }
      }
    }
  }

  lemma FanGoes(d: Db, targets: seq<ParallelTarget>, forEach: Option<FanOut>, src: nat, round: int)
    requires src < |d.activities|
    ensures var r := ScheduleTargets(MarkFanOut(d, targets, forEach, src, round), targets, round, forEach.Some?);
            Goes(d.def, d.log, Rests(AdvanceMulti(targets)), r)
  {
    var d1 := MarkFanOut(d, targets, forEach, src, round);
    TargetsGo(d1, targets, round, forEach.Some?);
    var r := ScheduleTargets(d1, targets, round, forEach.Some?);
    if r.Ok? {
      assert Calm(d.log, d1.log);
      CalmThen(d.log, d1.log, r.value.log);
    }
  }

  lemma CompleteGoes(env: Env, d: Db, result: WorkflowResult)
    ensures Goes(d.def, d.log, Rests(AdvanceOutcome.Complete(result)), CompleteInstance(env, d, result))
  {
    CompleteShape(env, d, result);
  }

  lemma HandBackGoesOn(env: Env, d: Db, target: NodeId, role: Option<Role>, src: nat)
    requires src < |d.activities|
    ensures Goes(d.def, d.log, Rests(Rework(target, role)), HandBack(env, d, target, role, src))
  {
    if CanHandBack(env, d, target) {
      var d1, d' := HandBackGoes(env, d, target, role, src);
      assert Stirs(d'.log[|d.log|].fact);
    } else {
      HandBackNotEndless(env, d, target, role, src);
      HandBackStops(env, d, target, role, src);
    }
  }

  lemma HandBackNotEndless(env: Env, d: Db, target: NodeId, role: Option<Role>, src: nat)
    requires src < |d.activities|
    ensures HandBack(env, d, target, role, src) != Err(Diverges)
  {
    if NodeOf(d, target).Ok? {
      EnterReworkNotEndless(d, NodeOf(d, target).value, role, MaxRound(d.activities) + 1, d.activities[src].node);
    }
  }

  lemma EnterReworkNotEndless(d: Db, node: Node, role: Option<Role>, round: int, from: NodeId)
    ensures EnterRework(d, node, role, round, from) != Err(Diverges)
  {
  }

  lemma FailGoes(d: Db)
    ensures Goes(d.def, d.log, Rests(AdvanceOutcome.Error), Ok(FailInstance(d)))
  {
    assert Stirs(FailInstance(d).log[|d.log|].fact);
  }

  // ------------------------------------------------------------------ what an end makes of the current activity

  lemma AdvanceCurrent(d: Db, d': Db, emptied: set<NodeId>, target: NodeId, node: Node, role: Option<Role>, round: int)
    requires Midway(d, d', emptied, round) && FindNode(d.def.nodes, target) == Some(node)
    ensures CurrentGoes(d, Rests(AdvanceOutcome.Advance(target, role)), AdvanceTo(d', node, role, round))
  {
    if !node.config.SubWorkflow? {
      ScheduleShape(d', node, role, round, Linear);
      var d1 := ScheduleActivity(d', node, role, round, Linear).value.0;
      CurrentPush(d'.log, d1.log[|d'.log|]);
    }
  }

  lemma {:induction false} TargetsCurrent(d: Db, targets: seq<ParallelTarget>, round: int, byForEach: bool)
    requires d.current.None? && FoldInstance(d.log).current.None?
    ensures var r := ScheduleTargets(d, targets, round, byForEach);
            r.Ok? ==> r.value.current.None? && FoldInstance(r.value.log).current.None?
    decreases |targets|
  {
    if targets != [] && NodeOf(d, targets[0].node).Ok? {
      var node, via := NodeOf(d, targets[0].node).value, Fanned(byForEach, targets[0].item);
      if !node.config.SubWorkflow? {
        ScheduleShape(d, node, targets[0].role, round, via);
        var d1 := ScheduleActivity(d, node, targets[0].role, round, via).value.0;
        CurrentPush(d.log, d1.log[|d.log|]);
        TargetsCurrent(d1, targets[1..], round, byForEach);
      }
    }
  }

  lemma FanCurrent(d: Db, d': Db, targets: seq<ParallelTarget>, forEach: Option<FanOut>, src: nat, round: int)
    requires src < |d'.activities|
    ensures CurrentGoes(d, Rests(AdvanceMulti(targets)),
                        ScheduleTargets(MarkFanOut(d', targets, forEach, src, round), targets, round, forEach.Some?))
  {
    var d1 := MarkFanOut(d', targets, forEach, src, round);
    CurrentPush(d'.log, d1.log[|d'.log|]);
    TargetsCurrent(d1, targets, round, forEach.Some?);
  }

  lemma EndCurrent(env: Env, d: Db, d': Db, emptied: set<NodeId>, result: WorkflowResult, target: NodeId,
                   role: Option<Role>, src: nat, round: int)
    requires Midway(d, d', emptied, round) && src < |d'.activities|
    ensures CurrentGoes(d, Rests(AdvanceOutcome.Complete(result)), CompleteInstance(env, d', result))
    ensures CurrentGoes(d, Rests(Rework(target, role)), HandBack(env, d', target, role, src))
  {
    if d.status.ReturnedWaiting? {
      CompleteShape(env, d', result);
      HandBackStops(env, d', target, role, src);
    }
  }

  lemma FailCurrent(d: Db, d': Db, emptied: set<NodeId>, round: int)
    requires Midway(d, d', emptied, round)
    ensures CurrentGoes(d, Rests(AdvanceOutcome.Error), Ok(FailInstance(d')))
  {
    CurrentPush(d'.log, FailInstance(d').log[|d'.log|]);
  }

  // ------------------------------------------------------------------ the move

  lemma DispatchGoes(env: Env, d: Db, d': Db, emptied: set<NodeId>, outcome: AdvanceOutcome, forEach: Option<FanOut>,
                     src: nat, round: int, fuel: nat)
    requires Midway(d, d', emptied, round) && src < |d'.activities|
    ensures Goes(d.def, d'.log, Trail(env.cel, d, LeadOf(d.def, outcome, forEach), emptied, round, fuel),
                 Dispatch(env, d', outcome, forEach, src, round, fuel))
    ensures CurrentGoes(d, Trail(env.cel, d, LeadOf(d.def, outcome, forEach), emptied, round, fuel),
                        Dispatch(env, d', outcome, forEach, src, round, fuel))
    decreases fuel, 1
  {
    match outcome
    case Advance(target, role) =>
      var found := FindNode(d.def.nodes, target);
      if found.Some? {
        if found.value.config.ParallelJoin? {
          ReachGoes(env, d, d', emptied, found.value, src, round, fuel);
          assert emptied + Emptied(ToJoin(found.value, false)) == emptied;
        } else {
          AdvanceGoes(d', target, found.value, role, round);
          AdvanceCurrent(d, d', emptied, target, found.value, role, round);
        }
      }
    case AdvanceMulti(targets) =>
      if targets != [] || forEach.None? {
        FanGoes(d', targets, forEach, src, round);
        FanCurrent(d, d', targets, forEach, src, round);
      } else {
        EmptyGoes(env, d, d', emptied, forEach.value, src, round, fuel);
      }
    case Complete(result) =>
      CompleteGoes(env, d', result);
      EndCurrent(env, d, d', emptied, result, "", None, src, round);
    case Rework(target, role) =>
      HandBackGoesOn(env, d', target, role, src);
      EndCurrent(env, d, d', emptied, WorkflowResult.Approved, target, role, src, round);
    case Error =>
      FailGoes(d');
      FailCurrent(d, d', emptied, round);
  }

  lemma EmptyGoes(env: Env, d: Db, d': Db, emptied: set<NodeId>, fan: FanOut, src: nat, round: int, fuel: nat)
    requires Midway(d, d', emptied, round) && src < |d'.activities|
    ensures Goes(d.def, d'.log, Trail(env.cel, d, LeadOf(d.def, AdvanceMulti([]), Some(fan)), emptied, round, fuel),
                 FanOutTo(env, d', [], Some(fan), src, round, fuel))
    ensures CurrentGoes(d, Trail(env.cel, d, LeadOf(d.def, AdvanceMulti([]), Some(fan)), emptied, round, fuel),
                        FanOutTo(env, d', [], Some(fan), src, round, fuel))
    decreases fuel, 0, 1
  {
    var d1 := MarkFanOut(d', [], Some(fan), src, round);
    var found := FindNode(d.def.nodes, fan.joinTarget);
    if found.Some? {
      MidwayEmpty(d, d', emptied, fan, src, round);
      TryGoes(env, d, d1, emptied + {fan.joinTarget}, found.value, src, round, None, fuel);
      GoesThen(d.def, d'.log, d1.log, AtJoin(env.cel, d, found.value, emptied + {fan.joinTarget}, round, fuel),
               TrySatisfyJoin(env, d1, found.value, src, round, None, fuel));
    }
  }

  lemma ReachGoes(env: Env, d: Db, d': Db, emptied: set<NodeId>, join: Node, src: nat, round: int, fuel: nat)
    requires Midway(d, d', emptied, round) && src < |d'.activities|
    ensures Goes(d.def, d'.log, AtJoin(env.cel, d, join, emptied, round, fuel),
                 ReachJoin(env, d', join, src, round, fuel))
    ensures CurrentGoes(d, AtJoin(env.cel, d, join, emptied, round, fuel), ReachJoin(env, d', join, src, round, fuel))
    decreases fuel, 0, 1
  {
    var fact := Fact.BranchReachedJoin(d'.activities[src].node, join.id, round);
    var d1 := Append(d', fact, None);
    MidwayFact(d, d', emptied, round, fact);
    CalmFact(d', fact);
    TryGoes(env, d, d1, emptied, join, src, round, Some(src), fuel);
    GoesThen(d.def, d'.log, d1.log, AtJoin(env.cel, d, join, emptied, round, fuel),
             TrySatisfyJoin(env, d1, join, src, round, Some(src), fuel));
  }

  lemma TryGoes(env: Env, d: Db, d': Db, emptied: set<NodeId>, join: Node, src: nat, round: int, exclude: Option<nat>,
                fuel: nat)
    requires Midway(d, d', emptied, round) && src < |d'.activities|
    ensures Goes(d.def, d'.log, AtJoin(env.cel, d, join, emptied, round, fuel),
                 TrySatisfyJoin(env, d', join, src, round, exclude, fuel))
    ensures CurrentGoes(d, AtJoin(env.cel, d, join, emptied, round, fuel),
                        TrySatisfyJoin(env, d', join, src, round, exclude, fuel))
    decreases fuel, 0, 0
  {
    MidwayExpects(d, d', emptied, join, round);
    if Satisfies(d, emptied, join, round) && fuel > 0 {
      var (expected, branches) := Expectation(d', join.id, round).value;
      var arrived := CountArrived(d'.activities, branches, round);
      var d1 := SatisfyJoin(d', join, arrived, expected, round, exclude);
      MidwaySatisfied(d, d', emptied, join, arrived, expected, round, exclude);
      PassGoes(env, d, d1, emptied, join.id, src, round, fuel - 1);
      GoesThen(d.def, d'.log, d1.log,
               Trail(env.cel, d, LeadPast(d.def, env.cel, d.Ctx(), join.id), emptied, round, fuel - 1),
               PassJoin(env, d1, join.id, src, round, fuel - 1));
    }
  }

  lemma PassGoes(env: Env, d: Db, d': Db, emptied: set<NodeId>, join: NodeId, src: nat, round: int, fuel: nat)
    requires Midway(d, d', emptied, round) && src < |d'.activities|
    ensures Goes(d.def, d'.log, Trail(env.cel, d, LeadPast(d.def, env.cel, d.Ctx(), join), emptied, round, fuel),
                 PassJoin(env, d', join, src, round, fuel))
    ensures CurrentGoes(d, Trail(env.cel, d, LeadPast(d.def, env.cel, d.Ctx(), join), emptied, round, fuel),
                        PassJoin(env, d', join, src, round, fuel))
    decreases fuel, 3
  {
    var (outcome, trace) := DecideAdvance(d.def, env.cel, d.Ctx(), join, SignalType.Approved);
    ApplyGoes(env, d, d', emptied, outcome, trace, src, round, fuel);
  }

  lemma ApplyGoes(env: Env, d: Db, d': Db, emptied: set<NodeId>, outcome: AdvanceOutcome, trace: ResolveTrace,
                  src: nat, round: int, fuel: nat)
    requires Midway(d, d', emptied, round) && src < |d'.activities|
    ensures Goes(d.def, d'.log, Trail(env.cel, d, LeadOf(d.def, outcome, trace.forEach), emptied, round, fuel),
                 ApplyOutcome(env, d', outcome, trace, src, round, fuel))
    ensures CurrentGoes(d, Trail(env.cel, d, LeadOf(d.def, outcome, trace.forEach), emptied, round, fuel),
                        ApplyOutcome(env, d', outcome, trace, src, round, fuel))
    decreases fuel, 2
  {
    var d1 := AppendMerges(d', d'.activities[src].node, trace.merges, round);
    MergesKeepRows(d', d'.activities[src].node, trace.merges, round);
    MidwayMerges(d, d', emptied, d'.activities[src].node, trace.merges, round);
    DispatchGoes(env, d, d1, emptied, outcome, trace.forEach, src, round, fuel);
    GoesThen(d.def, d'.log, d1.log, Trail(env.cel, d, LeadOf(d.def, outcome, trace.forEach), emptied, round, fuel),
             Dispatch(env, d1, outcome, trace.forEach, src, round, fuel));
  }

  lemma MidwayStart(d: Db, round: int)
    ensures Midway(d, d, {}, round)
  {
  }

  /** Trails are exact: applying an outcome waits at a join, breaks, runs on for ever or carries out an outcome
      exactly as its trail, read off the rows before, says. */
  lemma TrailIsExact(env: Env, d: Db, outcome: AdvanceOutcome, trace: ResolveTrace, src: nat, round: int, fuel: nat)
    requires src < |d.activities|
    ensures Goes(d.def, d.log, Trail(env.cel, d, LeadOf(d.def, outcome, trace.forEach), {}, round, fuel),
                 ApplyOutcome(env, d, outcome, trace, src, round, fuel))
    ensures CurrentGoes(d, Trail(env.cel, d, LeadOf(d.def, outcome, trace.forEach), {}, round, fuel),
                        ApplyOutcome(env, d, outcome, trace, src, round, fuel))
  {
    MidwayStart(d, round);
    ApplyGoes(env, d, d, {}, outcome, trace, src, round, fuel);
  }
}
