/** Many instances in one table, started by business key. The unique index covers pending and active instances:
    a start meets the live instance of its key, and no update may make a second one live. */
module Registry {
  import opened Core
  import opened Routing
  import opened Facts
  import opened Database
  import opened Engine
  import opened Preservation
  import opened Calls
  import opened Runs
  import opened LateSteps
  import Service

  datatype BusinessKey = BusinessKey(kind: string, id: string)

  datatype Instance = Instance(key: BusinessKey, rows: Db)

  datatype StartOutcome = StartOutcome(instance: nat, created: bool)

  /** The statuses the unique index covers. */
  predicate Live(d: Db) {
    d.status.Pending? || d.status.Active?
  }

  predicate LiveAt(table: seq<Instance>, key: BusinessKey, i: nat) {
    i < |table| && table[i].key == key && Live(table[i].rows)
  }

  function LiveOf(table: seq<Instance>, key: BusinessKey): (r: Option<nat>)
    ensures r.Some? ==> LiveAt(table, key, r.value)
    ensures r.None? ==> forall i: nat :: !LiveAt(table, key, i)
  {
    if table == [] then None
    else
      var init := table[..|table| - 1];
      var before := LiveOf(init, key);
      if before.Some? then before
      else if LiveAt(table, key, |init|) then Some(|init|)
      else
        assert forall i: nat :: LiveAt(table, key, i) ==> LiveAt(init, key, i);
        None
  }

  /** What a start refuses it refuses before it looks for an instance of its key. */
  function Registered(env: Env, table: seq<Instance>, key: BusinessKey, cmd: StartCommand)
    : Result<(seq<Instance>, StartOutcome)>
  {
    match StartInstance(env, cmd)
    case Err(e) => Err(e)
    case Ok(d) =>
      match LiveOf(table, key)
      case Some(i) => Ok((table, StartOutcome(i, false)))
      case None => Ok((table + [Instance(key, d)], StartOutcome(|table|, true)))
  }

  // ------------------------------------------------------------------ calls

  /** Facts logged when an instance that was not live becomes active again. */
  predicate Wakes(fact: Fact) {
    fact.ReworkResumed? || fact.Reactivated?
  }

  predicate WakesIn(log: seq<Event>, log': seq<Event>) {
    exists i :: |log| <= i < |log'| && Wakes(log'[i].fact)
  }

  /** Another instance of its key is live. */
  predicate Crowded(table: seq<Instance>, at: nat)
    requires at < |table|
  {
    exists i :: 0 <= i < |table| && i != at && LiveAt(table, table[at].key, i)
  }

  /** A call on one instance; the unique index refuses the update that would make it the second live one of its
      key, and the call is rolled back. */
  function Called(env: Env, table: seq<Instance>, at: nat, step: Step, fuel: nat): seq<Instance> {
    if at >= |table| then table
    else
      var d := table[at].rows;
      var d' := Commit(env, d, step, fuel);
      if !Live(d) && WakesIn(d.log, d'.log) && Crowded(table, at) then table
      else table[at := table[at].(rows := d')]
  }

  datatype Op = Open(key: BusinessKey, cmd: StartCommand) | Call(at: nat, step: Step)

  function Apply(env: Env, table: seq<Instance>, op: Op, fuel: nat): seq<Instance> {
    match op
    case Open(key, cmd) => (match Registered(env, table, key, cmd) case Ok(r) => r.0 case Err(_) => table)
    case Call(at, step) => Called(env, table, at, step, fuel)
  }

  function ApplyAll(env: Env, table: seq<Instance>, ops: seq<Op>, fuel: nat): seq<Instance> {
    if ops == [] then table
    else Apply(env, ApplyAll(env, table, ops[..|ops| - 1], fuel), ops[|ops| - 1], fuel)
  }

  // ------------------------------------------------------------------ nothing becomes live without waking

  /** A call on an instance that is not live leaves it so unless it wakes it. */
  ghost predicate WokenIfLive(d: Db, r: Result<Db>) {
    r.Ok? && Live(r.value) ==> WakesIn(d.log, r.value.log)
  }

  lemma WakesThen(a: seq<Event>, b: seq<Event>, c: seq<Event>)
    requires |a| <= |b| && b <= c && WakesIn(a, b)
    ensures WakesIn(a, c)
  {
    var i :| |a| <= i < |b| && Wakes(b[i].fact);
    assert Wakes(c[i].fact);
  }

  lemma ResumeWakes(d: Db, a: nat)
    requires d.status.ReturnedWaiting? && a < |d.activities|
    ensures WakesIn(d.log, ResumeIfWaiting(d, a).log)
  {
    assert Wakes(ResumeIfWaiting(d, a).log[|d.log|].fact);
  }

  lemma SettleWakes(env: Env, d: Db, a: nat, node: Node, cmd: SignalCommand)
    requires Good(env, d) && d.status.ReturnedWaiting? && d.IsActive(a) && !KeySeen(d, cmd.key) && !IsClaim(cmd.signal)
    ensures var r := SettleSignal(d, a, node, cmd);
            r.Ok? ==> |d.log| <= |r.value.log| && WakesIn(d.log, r.value.log)
  {
    var r1 := ApplyContextWrites(d, node, d.activities[a].round, cmd.patch);
    if r1.Ok? && Review(r1.value, a, cmd).Ok? {
      var d2 := Review(r1.value, a, cmd).value;
      assert d2.status.ReturnedWaiting? && a < |d2.activities| && |d.log| <= |d2.log|;
      ResumeWakes(d2, a);
      var i :| |d2.log| <= i < |ResumeIfWaiting(d2, a).log| && Wakes(ResumeIfWaiting(d2, a).log[i].fact);
    }
  }

  /** Every committed decision on a waiting instance wakes it. */
  lemma SignalWakes(env: Env, d: Db, cmd: SignalCommand, fuel: nat)
    requires Good(env, d) && d.status.ReturnedWaiting? && !IsClaim(cmd.signal)
    requires Signal(env, d, cmd, fuel).Ok? && !Signal(env, d, cmd, fuel).value.1
    ensures WakesIn(d.log, Signal(env, d, cmd, fuel).value.0.log)
  {
    var a := TargetActivity(d, cmd.activity).value;
    var node := NodeOf(d, d.activities[a].node).value;
    SettleWakes(env, d, a, node, cmd);
    SettleAfter(env, d, a, node, cmd);
    var d1 := SettleSignal(d, a, node, cmd).value;
    MoveOnAfter(env, d1, a, cmd.signal, fuel);
    WakesThen(d.log, d1.log, Signal(env, d, cmd, fuel).value.0.log);
  }

  lemma SignalWokenIfLive(env: Env, d: Db, cmd: SignalCommand, fuel: nat)
    requires Good(env, d) && !Live(d)
    ensures WokenIfLive(d, Run(env, d, SignalStep(cmd), fuel))
  {
    var r := Signal(env, d, cmd, fuel);
    if r.Ok? && !r.value.1 && !IsClaim(cmd.signal) {
      SignalWakes(env, d, cmd, fuel);
    }
  }

  lemma AdvanceExtends(d: Db, node: Node, role: Option<Role>, round: int)
    requires FindNode(d.def.nodes, node.id) == Some(node)
    ensures var r := AdvanceTo(d, node, role, round);
            r.Ok? ==> d.log <= r.value.log
  {
    if !node.config.SubWorkflow? {
      ScheduleShape(d, node, role, round, Linear);
    }
  }

  lemma ReopenWakes(d: Db, key: string, round: int)
    requires Reopen(d, key, round).Ok?
    ensures WakesIn(d.log, Reopen(d, key, round).value.log)
  {
    var d1 := Append(ReactivateWorkflow(d).0, Reactivated(round), Some(key));
    var entry := DecideStart(d.def.nodes).value;
    var node := NodeOf(d1, entry.id).value;
    assert Wakes(d1.log[|d.log|].fact);
    AdvanceExtends(d1, node, entry.AssigneeRole(), round);
    WakesThen(d.log, d1.log, Reopen(d, key, round).value.log);
  }

  /** Every committed resubmit wakes the instance. */
  lemma ResubmitWakes(env: Env, d: Db, key: string, visible: bool)
    requires Resubmit(env, d, key, visible).Ok? && !Resubmit(env, d, key, visible).value.1
    ensures WakesIn(d.log, Resubmit(env, d, key, visible).value.0.log)
  {
    var round := NextRound(env, d).value;
    assert Readmit(env, d, key) == Acted(Reopen(d, key, round));
    ReopenWakes(d, key, round);
  }

  lemma ResubmitWokenIfLive(env: Env, d: Db, key: string, visible: bool, fuel: nat)
    requires !Live(d)
    ensures WokenIfLive(d, Run(env, d, ResubmitStep(key, visible), fuel))
  {
    var r := Resubmit(env, d, key, visible);
    if r.Ok? && !r.value.1 {
      ResubmitWakes(env, d, key, visible);
    }
  }

  lemma EscalationKeepsStatus(d: Db, a: nat, node: Node)
    requires a < |d.activities|
    ensures FireEscalation(d, a, node).0.status == d.status
  {
  }

  lemma FireKeepsDormant(env: Env, d: Db, t: nat, fuel: nat)
    requires StatusOk(d.status) && !Live(d)
    ensures var r := FireTimer(env, d, t, fuel);
            r.Ok? ==> !Live(r.value.0)
  {
    var (d1, won) := MarkTimerFired(d, t);
    if won && d.status.ReturnedWaiting? {
      var kind, a := d.timers[t].kind, d.timers[t].activity;
      if kind.Timeout? {
        FireLingers(env, d, t, fuel);
      } else if d1.IsActive(a) && NodeOf(d1, d1.activities[a].node).Ok? {
        EscalationKeepsStatus(Append(d1, Fact.TimerFired(kind, a), None), a, NodeOf(d1, d1.activities[a].node).value);
      }
    }
  }

  lemma DeliverKeepsDormant(env: Env, d: Db, a: nat, fuel: nat)
    requires StatusOk(d.status) && !Live(d)
    ensures var r := OnNotificationDelivered(env, d, a, fuel);
            r.Ok? ==> !Live(r.value)
  {
    if LateDelivery(d, a) {
      DeliveryLingers(env, d, a, fuel);
    }
  }

  lemma LiveNeedsWaking(env: Env, d: Db, step: Step, fuel: nat)
    requires Good(env, d) && !Live(d) && Live(Commit(env, d, step, fuel))
    ensures WakesIn(d.log, Commit(env, d, step, fuel).log)
  {
    match step
    case SignalStep(cmd) => SignalWokenIfLive(env, d, cmd, fuel);
    case ResubmitStep(key, visible) => ResubmitWokenIfLive(env, d, key, visible, fuel);
    case FireStep(t) => FireKeepsDormant(env, d, t, fuel);
    case DeliverStep(a) => DeliverKeepsDormant(env, d, a, fuel);
    case CallbackStep =>
    case DeadLetterStep(_, _) =>
  }

  // ------------------------------------------------------------------ every instance is a run of its own

  ghost predicate IsRun(env: Env, d: Db, fuel: nat) {
    exists cmd: StartCommand, steps: seq<Step> :: RunsTo(env, cmd, steps, fuel, d)
  }

  predicate RunsTo(env: Env, cmd: StartCommand, steps: seq<Step>, fuel: nat, d: Db) {
    StartInstance(env, cmd).Ok? && d == RunAll(env, Began(env, cmd), steps, fuel)
  }

  lemma RunGoesOn(env: Env, d: Db, step: Step, fuel: nat)
    requires IsRun(env, d, fuel)
    ensures IsRun(env, Commit(env, d, step, fuel), fuel)
  {
    var cmd: StartCommand, steps: seq<Step> :| RunsTo(env, cmd, steps, fuel, d);
    assert (steps + [step])[..|steps|] == steps;
    assert RunsTo(env, cmd, steps + [step], fuel, Commit(env, d, step, fuel));
  }

  lemma RunIsGood(env: Env, d: Db, fuel: nat)
    requires IsRun(env, d, fuel)
    ensures Good(env, d)
  {
    var cmd: StartCommand, steps: seq<Step> :| RunsTo(env, cmd, steps, fuel, d);
    StartGood(env, cmd);
    RunGood(env, Began(env, cmd), steps, fuel);
  }

  predicate OneLive(table: seq<Instance>) {
    forall i, j :: 0 <= i < j < |table| && table[i].key == table[j].key ==>
        !(Live(table[i].rows) && Live(table[j].rows))
  }

  ghost predicate Sound(env: Env, table: seq<Instance>, fuel: nat) {
    OneLive(table) && forall i :: 0 <= i < |table| ==> IsRun(env, table[i].rows, fuel)
  }

  lemma StartSound(env: Env, table: seq<Instance>, key: BusinessKey, cmd: StartCommand, fuel: nat)
    requires Sound(env, table, fuel) && Registered(env, table, key, cmd).Ok?
    ensures Sound(env, Registered(env, table, key, cmd).value.0, fuel)
  {
    assert RunsTo(env, cmd, [], fuel, Began(env, cmd));
    if LiveOf(table, key).None? {
      var table' := table + [Instance(key, Began(env, cmd))];
      forall i, j | 0 <= i < j < |table'| && table'[i].key == table'[j].key
        ensures !(Live(table'[i].rows) && Live(table'[j].rows))
      {
        if j == |table| { assert !LiveAt(table, key, i); }
      }
    }
  }

  lemma RunCarriesOn(env: Env, d: Db, step: Step, fuel: nat)
    requires IsRun(env, d, fuel)
    ensures var d' := Commit(env, d, step, fuel);
            IsRun(env, d', fuel) && (Live(d') ==> Live(d) || WakesIn(d.log, d'.log))
  {
    RunGoesOn(env, d, step, fuel);
    RunIsGood(env, d, fuel);
    if !Live(d) && Live(Commit(env, d, step, fuel)) {
      LiveNeedsWaking(env, d, step, fuel);
    }
  }

  lemma UpdateSound(env: Env, table: seq<Instance>, at: nat, d': Db, fuel: nat)
    requires Sound(env, table, fuel) && at < |table| && IsRun(env, d', fuel)
    requires Live(d') ==> Live(table[at].rows) || !Crowded(table, at)
    ensures Sound(env, table[at := table[at].(rows := d')], fuel)
  {
    StaysOneLive(table, at, d');
  }

  lemma CallSound(env: Env, table: seq<Instance>, at: nat, step: Step, fuel: nat)
    requires Sound(env, table, fuel)
    ensures Sound(env, Called(env, table, at, step, fuel), fuel)
  {
    if at < |table| {
      var d' := Commit(env, table[at].rows, step, fuel);
      RunCarriesOn(env, table[at].rows, step, fuel);
      if Live(table[at].rows) || !WakesIn(table[at].rows.log, d'.log) || !Crowded(table, at) {
        UpdateSound(env, table, at, d', fuel);
      }
    }
  }

  lemma StaysOneLive(table: seq<Instance>, at: nat, d': Db)
    requires OneLive(table) && at < |table| && (Live(d') ==> Live(table[at].rows) || !Crowded(table, at))
    ensures OneLive(table[at := table[at].(rows := d')])
  {
    forall i | 0 <= i < |table| && i != at && table[i].key == table[at].key ensures !(Live(d') && Live(table[i].rows)) {
      assert Live(table[i].rows) ==> LiveAt(table, table[at].key, i);
    }
  }

  /** However starts and calls on any instances are interleaved, every instance is a run of its own, so that all that
      holds of runs holds of it, and no business key has two live instances. */
  lemma {:induction false} TableSound(env: Env, table: seq<Instance>, ops: seq<Op>, fuel: nat)
    requires Sound(env, table, fuel)
    ensures Sound(env, ApplyAll(env, table, ops, fuel), fuel)
  {
    if ops != [] {
      TableSound(env, table, ops[..|ops| - 1], fuel);
      var before := ApplyAll(env, table, ops[..|ops| - 1], fuel);
      match ops[|ops| - 1]
      case Open(key, cmd) =>
        if Registered(env, before, key, cmd).Ok? {
          StartSound(env, before, key, cmd, fuel);
        }
      case Call(at, step) => CallSound(env, before, at, step, fuel);
    }
  }

  // ------------------------------------------------------------------ idempotent starts

  lemma TheLiveOne(table: seq<Instance>, key: BusinessKey, i: nat)
    requires OneLive(table) && LiveAt(table, key, i)
    ensures LiveOf(table, key) == Some(i)
  {
    var j := LiveOf(table, key).value;
    assert LiveAt(table, key, j);
  }

  /** Starting again is idempotent while the instance is live: after any starts and calls on any instances, another
      accepted start of its key, whatever it asks for, finds that instance and changes nothing. */
  lemma RestartFindsIt(env: Env, table: seq<Instance>, key: BusinessKey, cmd: StartCommand, between: seq<Op>,
                       again: StartCommand, fuel: nat)
    requires Sound(env, table, fuel) && Registered(env, table, key, cmd).Ok? && StartInstance(env, again).Ok?
    requires var (table1, outcome) := Registered(env, table, key, cmd).value;
             LiveAt(ApplyAll(env, table1, between, fuel), key, outcome.instance)
    ensures var (table1, outcome) := Registered(env, table, key, cmd).value;
            var table2 := ApplyAll(env, table1, between, fuel);
            Registered(env, table2, key, again) == Ok((table2, StartOutcome(outcome.instance, false)))
  {
    var (table1, outcome) := Registered(env, table, key, cmd).value;
    StartSound(env, table, key, cmd, fuel);
    TableSound(env, table1, between, fuel);
    TheLiveOne(ApplyAll(env, table1, between, fuel), key, outcome.instance);
  }

  predicate UnfinishedAt(table: seq<Instance>, key: BusinessKey, i: nat) {
    i < |table| && table[i].key == key && !table[i].rows.status.IsTerminal()
  }

  predicate WaitingAt(table: seq<Instance>, key: BusinessKey, i: nat) {
    i < |table| && table[i].key == key && table[i].rows.status.ReturnedWaiting?
  }

  /** A start creates a second unfinished instance of its key. */
  predicate Duplicates(env: Env, table: seq<Instance>, key: BusinessKey, cmd: StartCommand) {
    && Registered(env, table, key, cmd).Ok? && Registered(env, table, key, cmd).value.1.created
    && exists i :: 0 <= i < |table| && UnfinishedAt(table, key, i)
  }

  lemma UnfinishedMeans(env: Env, table: seq<Instance>, key: BusinessKey, i: nat, fuel: nat)
    requires Sound(env, table, fuel) && i < |table|
    ensures UnfinishedAt(table, key, i) <==> LiveAt(table, key, i) || WaitingAt(table, key, i)
  {
    RunIsGood(env, table[i].rows, fuel);
  }

  lemma NoneLiveFound(table: seq<Instance>, key: BusinessKey)
    ensures LiveOf(table, key).None? <==> forall i: nat :: !LiveAt(table, key, i)
  {
    if LiveOf(table, key).Some? {
      assert LiveAt(table, key, LiveOf(table, key).value);
    }
  }

  /** Exactly when an accepted start duplicates an unfinished instance of its key: one waits for rework and none is
      live. */
  lemma DuplicatesExactly(env: Env, table: seq<Instance>, key: BusinessKey, cmd: StartCommand, fuel: nat)
    requires Sound(env, table, fuel) && StartInstance(env, cmd).Ok?
    ensures Duplicates(env, table, key, cmd) <==>
            (exists i :: 0 <= i < |table| && WaitingAt(table, key, i)) && forall i: nat :: !LiveAt(table, key, i)
  {
    NoneLiveFound(table, key);
    if Duplicates(env, table, key, cmd) {
      var i: nat :| i < |table| && UnfinishedAt(table, key, i);
      UnfinishedMeans(env, table, key, i, fuel);
      assert WaitingAt(table, key, i);
    }
    if exists i :: 0 <= i < |table| && WaitingAt(table, key, i) {
      var i: nat :| i < |table| && WaitingAt(table, key, i);
      UnfinishedMeans(env, table, key, i, fuel);
    }
  }

  predicate Decides(step: Step) {
    (step.SignalStep? && !IsClaim(step.cmd.signal)) || step.ResubmitStep?
  }

  lemma DecisionWakes(env: Env, d: Db, step: Step, fuel: nat)
    requires Good(env, d) && !Live(d) && Decides(step)
    ensures Commit(env, d, step, fuel) == d || WakesIn(d.log, Commit(env, d, step, fuel).log)
  {
    match step
    case SignalStep(cmd) =>
      var r := Signal(env, d, cmd, fuel);
      if r.Ok? && !r.value.1 {
        SignalWakes(env, d, cmd, fuel);
      }
    case ResubmitStep(key, visible) =>
      var r := Resubmit(env, d, key, visible);
      if r.Ok? && !r.value.1 {
        ResubmitWakes(env, d, key, visible);
      }
  }

  /** What the duplicate costs: while it is live the instance that waits can neither be decided nor resubmitted; the
      call is rolled back, whatever it says. */
  lemma DuplicateBlocks(env: Env, table: seq<Instance>, at: nat, step: Step, fuel: nat)
    requires Sound(env, table, fuel) && at < |table| && !Live(table[at].rows) && Crowded(table, at) && Decides(step)
    ensures Called(env, table, at, step, fuel) == table
  {
    RunIsGood(env, table[at].rows, fuel);
    DecisionWakes(env, table[at].rows, step, fuel);
    assert table[at := table[at].(rows := table[at].rows)] == table;
  }

  // ------------------------------------------------------------------ one instance by itself

  function CallsOn(at: nat, steps: seq<Step>): (r: seq<Op>)
    ensures |r| == |steps|
  {
    seq(|steps|, i requires 0 <= i < |steps| => Call(at, steps[i]))
  }

  /** Alone in the table an instance just runs. */
  lemma {:induction false} AloneItRuns(env: Env, key: BusinessKey, d: Db, steps: seq<Step>, fuel: nat)
    ensures ApplyAll(env, [Instance(key, d)], CallsOn(0, steps), fuel) == [Instance(key, RunAll(env, d, steps, fuel))]
  {
    if steps != [] {
      var init := steps[..|steps| - 1];
      AloneItRuns(env, key, d, init, fuel);
      assert CallsOn(0, steps)[..|steps| - 1] == CallsOn(0, init);
    }
  }

  // ------------------------------------------------------------------ the table as it is written

  class InstanceTable {
    var instances: seq<Instance>

    constructor ()
      ensures instances == []
    {
      instances := [];
    }

    /** The first live instance of a key. */
    method ActiveByKey(key: BusinessKey) returns (r: Option<nat>)
      ensures r == LiveOf(instances, key)
    {
      for i := 0 to |instances|
        invariant LiveOf(instances[..i], key).None?
      {
        assert instances[..i + 1][..i] == instances[..i];
        if instances[i].key == key && Live(instances[i].rows) {
          LiveOfPrefix(instances, i + 1, key);
          return Some(i);
        }
      }
      assert instances[..|instances|] == instances;
      return None;
    }

    /** A start by business key: its rows are kept only if no live instance of the key is in the way. */
    method Start(service: Service.WorkflowService, key: BusinessKey, cmd: StartCommand)
      returns (r: Result<StartOutcome>)
      modifies this
      ensures match Registered(service.env, old(instances), key, cmd)
              case Ok((table, outcome)) => r == Ok(outcome) && instances == table
              case Err(e) => r == Err(e) && instances == old(instances)
    {
      var store :- service.Start(cmd);
      var existing := ActiveByKey(key);
      if existing.Some? {
        return Ok(StartOutcome(existing.value, false));
      }
      instances := instances + [Instance(key, store.View())];
      return Ok(StartOutcome(|instances| - 1, true));
    }
  }

  lemma {:induction false} LiveOfPrefix(table: seq<Instance>, n: nat, key: BusinessKey)
    requires n <= |table| && LiveOf(table[..n], key).Some?
    ensures LiveOf(table, key) == LiveOf(table[..n], key)
    decreases |table|
  {
    if n == |table| {
      assert table[..n] == table;
    } else {
      var init := table[..|table| - 1];
      assert init[..n] == table[..n];
      LiveOfPrefix(init, n, key);
    }
  }
}
