/** Where the orchestration departs from what its comments suggest, stated exactly: rejected branches, empty
    fan-outs, and instances nothing can move again. */
module Departures {
  import opened Core
  import opened Routing
  import opened Facts
  import opened Database
  import opened Engine
  import opened SingleToken

  // ------------------------------------------------------------------ rejection

  /** An activity other than `a` is active. */
  predicate HasSibling(d: Db, a: nat) {
    exists b :: 0 <= b < |d.activities| && b != a && d.activities[b].status.Active?
  }

  predicate OthersUnchanged(d: Db, a: nat, d': Db) {
    && |d'.activities| == |d.activities|
    && forall b :: 0 <= b < |d.activities| && b != a ==> d'.activities[b] == d.activities[b]
  }

  lemma ReviewTouchesOnly(d: Db, a: nat, cmd: SignalCommand)
    requires d.IsActive(a) && Review(d, a, cmd).Ok?
    ensures var d' := Review(d, a, cmd).value;
            OthersUnchanged(d, a, d') && !d'.IsActive(a) && d'.status == d.status
  {
  }

  lemma SettleTouchesOnly(d: Db, a: nat, node: Node, cmd: SignalCommand)
    requires d.IsActive(a) && SettleSignal(d, a, node, cmd).Ok?
    ensures var d' := SettleSignal(d, a, node, cmd).value;
            && OthersUnchanged(d, a, d') && !d'.IsActive(a)
            && d'.status == if d.status.ReturnedWaiting? then WorkflowStatus.Active else d.status
  {
    var d1 := ApplyContextWrites(d, node, d.activities[a].round, cmd.patch).value;
    assert d1.activities == d.activities && d1.status == d.status;
    ReviewTouchesOnly(d1, a, cmd);
    assert SettleSignal(d, a, node, cmd).value == ResumeIfWaiting(Review(d1, a, cmd).value, a);
  }

  lemma RejectCompletes(env: Env, d: Db, a: nat, fuel: nat)
    requires a < |d.activities|
    ensures var r := MoveOn(env, d, a, SignalType.Rejected, fuel);
            && (r.Ok? <==> d.status.Active?)
            && (r.Ok? ==> r.value.status.Completed? && r.value.result == Some(WorkflowResult.Rejected))
            && (r.Ok? ==> r.value.activities == d.activities)
  {
    var outcome, round := Complete(WorkflowResult.Rejected), d.activities[a].round;
    assert AppendMerges(d, d.activities[a].node, [], round) == d;
    assert MoveOn(env, d, a, SignalType.Rejected, fuel) == ApplyOutcome(env, d, outcome, EMPTY_TRACE, a, round, fuel);
    assert ApplyOutcome(env, d, outcome, EMPTY_TRACE, a, round, fuel)
        == Dispatch(env, d, outcome, None, a, round, fuel);
  }

  /** A rejection ends an instance, active or waiting for rework, and nothing else: the finished instance has no
      active activity if and only if the rejected one was the only one. */
  lemma RejectionLeavesSiblings(env: Env, d: Db, cmd: SignalCommand, fuel: nat)
    requires cmd.signal.Rejected? && !KeySeen(d, cmd.key) && Signal(env, d, cmd, fuel).Ok?
    ensures d.status.Active? || d.status.ReturnedWaiting?
    ensures var d' := Signal(env, d, cmd, fuel).value.0;
            var a := TargetActivity(d, cmd.activity).value;
            && d'.status.Completed? && d'.result == Some(WorkflowResult.Rejected) && OthersUnchanged(d, a, d')
            && (NoneActive(d') <==> !HasSibling(d, a))
  {
    var a := TargetActivity(d, cmd.activity).value;
    var node := NodeOf(d, d.activities[a].node).value;
    SettleTouchesOnly(d, a, node, cmd);
    var d1 := SettleSignal(d, a, node, cmd).value;
    RejectCompletes(env, d1, a, fuel);
    assert Signal(env, d, cmd, fuel).value.0 == MoveOn(env, d1, a, cmd.signal, fuel).value;
  }

  // ------------------------------------------------------------------ instances nothing moves

  /** An instance that is not finished and has no active activity. */
  predicate Hung(d: Db) {
    (d.status.Active? || d.status.ReturnedWaiting?) && NoneActive(d)
  }

  predicate SameInstance(d: Db, d': Db) {
    d'.status == d.status && d'.result == d.result && d'.activities == d.activities
  }

  lemma {:induction false} NoneActiveIds(acts: seq<Activity>)
    requires forall b :: 0 <= b < |acts| ==> !acts[b].status.Active?
    ensures ActiveIds(acts) == []
  {
    if acts != [] {
      NoneActiveIds(acts[..|acts| - 1]);
    }
  }

  lemma {:induction false} ActiveIdsExact(acts: seq<Activity>)
    ensures forall b: nat :: b in ActiveIds(acts) <==> b < |acts| && acts[b].status.Active?
    ensures forall i, j :: 0 <= i < j < |ActiveIds(acts)| ==> ActiveIds(acts)[i] < ActiveIds(acts)[j]
  {
    if acts != [] {
      ActiveIdsExact(acts[..|acts| - 1]);
    }
  }

  predicate TwoActive(d: Db) {
    exists a: nat, b: nat :: a < b < |d.activities| && d.IsActive(a) && d.IsActive(b)
  }

  predicate OneActive(d: Db) {
    exists a: nat :: a < |d.activities| && OnlyActive(d, a)
  }

  lemma ActiveByCount(d: Db)
    ensures var active := ActiveIds(d.activities);
            && (|active| == 0 <==> NoneActive(d))
            && (|active| == 1 ==> OnlyActive(d, active[0]))
            && (|active| >= 2 ==> TwoActive(d))
  {
    ActiveIdsExact(d.activities);
    var active := ActiveIds(d.activities);
    if |active| >= 2 {
      assert active[0] in active && active[1] in active;
      assert d.IsActive(active[0]) && d.IsActive(active[1]);
    } else if |active| == 1 {
      assert active[0] in active;
    }
  }

  lemma ActiveIsOneOfThree(d: Db)
    ensures !(NoneActive(d) && OneActive(d)) && !(NoneActive(d) && TwoActive(d)) && !(OneActive(d) && TwoActive(d))
  {
  }

  /** Whom a signal is for: the activity it names if that is active; unnamed, the only active one. It is refused as
      not found, as ended, as nobody's or as ambiguous in exactly these cases. */
  lemma TargetExactly(d: Db, activity: Option<nat>)
    ensures var r := TargetActivity(d, activity);
            match activity
            case Some(a) =>
              && (r == Ok(a) <==> d.IsActive(a))
              && (r == Err(NotFound) <==> a >= |d.activities|)
              && (r == Err(Conflict) <==> a < |d.activities| && !d.IsActive(a))
            case None =>
              && (r.Ok? ==> OnlyActive(d, r.value))
              && (r.Ok? <==> OneActive(d))
              && (r == Err(Conflict) <==> NoneActive(d))
              && (r == Err(Validation) <==> TwoActive(d))
  {
    if activity.None? {
      ActiveByCount(d);
      ActiveIsOneOfThree(d);
    }
  }

  lemma HungSignal(env: Env, d: Db, cmd: SignalCommand, fuel: nat)
    requires Hung(d)
    ensures Signal(env, d, cmd, fuel).Err? || Signal(env, d, cmd, fuel) == Ok((d, true))
  {
    NoneActiveIds(d.activities);
  }

  lemma HungStays(env: Env, d: Db, step: Step, fuel: nat)
    requires Hung(d)
    ensures SameInstance(d, Commit(env, d, step, fuel))
  {
    match step
    case SignalStep(cmd) => HungSignal(env, d, cmd, fuel);
    case _ =>
  }

  /** An unfinished instance without an active activity is stuck for good: no sequence of calls changes its
      status, its result or its activities. */
  lemma {:induction false} HungForever(env: Env, d: Db, steps: seq<Step>, fuel: nat)
    requires Hung(d)
    ensures SameInstance(d, RunAll(env, d, steps, fuel))
  {
    if steps != [] {
      HungForever(env, d, steps[..|steps| - 1], fuel);
      HungStays(env, RunAll(env, d, steps[..|steps| - 1], fuel), steps[|steps| - 1], fuel);
    }
  }

  // ------------------------------------------------------------------ empty fan-outs

  /** A ForEach over no items whose join, and the template of that join, can be looked up. */
  predicate EmptyFanOut(d: Db, fan: FanOut, src: nat) {
    && src < |d.activities|
    && FindNode(d.def.nodes, fan.joinTarget).Some?
    && ForEachTemplate(d.def.nodes, fan.joinTarget).Some?
  }

  /** Branches of the template that have arrived in the round by then. */
  function ArrivedBefore(d: Db, fan: FanOut, src: nat, round: int): nat
    requires EmptyFanOut(d, fan, src)
  {
    CountArrived(d.activities, [ForEachTemplate(d.def.nodes, fan.joinTarget).value], round)
  }

  lemma EmptyExpectation(d: Db, fan: FanOut, src: nat, round: int)
    requires EmptyFanOut(d, fan, src)
    ensures var d1 := MarkFanOut(d, [], Some(fan), src, round);
            Expectation(d1, fan.joinTarget, round) == Ok((0, [ForEachTemplate(d.def.nodes, fan.joinTarget).value]))
  {
  }

  /** An empty ForEach goes past its join exactly if the strategy is satisfied by what has arrived in the round, nothing
      being expected. Otherwise it leaves the instance where it is with no new activity and no current one, so that
      an instance whose only active activity led there hangs. */
  lemma EmptyForEachExactly(env: Env, d: Db, fan: FanOut, src: nat, round: int, fuel: nat)
    requires EmptyFanOut(d, fan, src)
    ensures var join := FindNode(d.def.nodes, fan.joinTarget).value;
            var r := FanOutTo(env, d, [], Some(fan), src, round, fuel);
            var d1 := MarkFanOut(d, [], Some(fan), src, round);
            var arrived := ArrivedBefore(d, fan, src, round);
            if StrategyOf(join).IsSatisfied(arrived, 0)
            then r == if fuel == 0 then Err(Diverges)
                      else PassJoin(env, SatisfyJoin(d1, join, arrived, 0, round, None), join.id, src, round, fuel - 1)
            else && r.Ok? && r.value == d1.(current := None) && SameInstance(d, r.value)
                 && (NoneActive(d) && d.status.Active? ==> Hung(r.value))
  {
    EmptyExpectation(d, fan, src, round);
    var join := FindNode(d.def.nodes, fan.joinTarget).value;
    assert NodeOf(MarkFanOut(d, [], Some(fan), src, round), fan.joinTarget) == Ok(join);
  }

  /** What the strategies make of a join nobody has arrived at and nobody is expected at. */
  predicate PassesEmpty(strategy: JoinStrategy) {
    strategy.WaitAll? || (strategy.NOfM? && strategy.n <= 0)
  }

  /** In a round in which no branch of the template has arrived it goes past exactly under WaitAll, or NOfM of at most
      zero. */
  lemma FirstEmptyForEach(env: Env, d: Db, fan: FanOut, src: nat, round: int, fuel: nat)
    requires EmptyFanOut(d, fan, src) && ArrivedBefore(d, fan, src, round) == 0
    ensures var join := FindNode(d.def.nodes, fan.joinTarget).value;
            var d1 := MarkFanOut(d, [], Some(fan), src, round);
            FanOutTo(env, d, [], Some(fan), src, round, fuel)
            == if !PassesEmpty(StrategyOf(join)) then Ok(d1.(current := None))
               else if fuel == 0 then Err(Diverges)
               else PassJoin(env, SatisfyJoin(d1, join, 0, 0, round, None), join.id, src, round, fuel - 1)
  {
    EmptyForEachExactly(env, d, fan, src, round, fuel);
  }
}
