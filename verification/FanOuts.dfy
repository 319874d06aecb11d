/** What a fan-out leaves: which branch stands for which target or item, in the rows and in the log. */
module FanOuts {
  import opened Core
  import opened Routing
  import opened Facts
  import opened Database
  import opened Engine
  import opened Invariants
  import opened Effects

  // ------------------------------------------------------------------ branches one after the other

  /** Branch `i` is the node's activity at this id, scheduled with this item. */
  predicate BranchLogged(e: Event, id: nat, node: Node, round: int, byForEach: bool, item: Option<(nat, Json)>) {
    e.key.None? && e.fact == ActivityScheduled(id, node.id, round, RoleOf(node), Fanned(byForEach, item))
  }

  /** One activity per node, in order. */
  predicate BranchRows(acts: seq<Activity>, nodes: seq<Node>, round: int, acts': seq<Activity>) {
    var n := |acts|;
    && |acts'| == n + |nodes| && acts <= acts'
    && forall i :: 0 <= i < |nodes| ==> FreshFor(acts'[n + i], n + i, nodes[i], round)
  }

  /** One fact per node, in order, each with its item; the activities have the ids from `n` on. */
  predicate BranchFacts(log: seq<Event>, n: nat, nodes: seq<Node>, items: seq<Option<(nat, Json)>>, round: int,
                        byForEach: bool, log': seq<Event>)
    requires |items| == |nodes|
  {
    && |log'| == |log| + |nodes| && log <= log'
    && forall i :: 0 <= i < |nodes| ==> BranchLogged(log'[|log| + i], n + i, nodes[i], round, byForEach, items[i])
  }

  /** The branches in the table and in the log, with their timers and deliveries, and nothing else. */
  ghost predicate Branches(d: Db, nodes: seq<Node>, items: seq<Option<(nat, Json)>>, round: int, byForEach: bool,
                           d': Db)
    requires |items| == |nodes|
  {
    var n := |d.activities|;
    && d' == d.(activities := d'.activities, log := d'.log, timers := d'.timers, outbox := d'.outbox)
    && BranchRows(d.activities, nodes, round, d'.activities)
    && BranchFacts(d.log, n, nodes, items, round, byForEach, d'.log)
    && BranchTimers(d.timers, n, nodes, d'.timers) && BranchDeliveries(d.outbox, n, nodes, d'.outbox)
  }

  /** Just the timers the branches' nodes ask for are new. */
  ghost predicate BranchTimers(timers: seq<TimerRow>, n: nat, nodes: seq<Node>, timers': seq<TimerRow>) {
    && timers <= timers'
    && (forall i: nat, kind :: i < |nodes| ==>
          (TimerRow(n + i, kind, TimerStatus.Pending) in timers' <==> AsksFor(nodes[i].config, kind)))
    && (forall t :: |timers| <= t < |timers'| ==> n <= timers'[t].activity < n + |nodes| && timers'[t].status.Pending?)
  }

  ghost predicate BranchDeliveries(outbox: seq<Intent>, n: nat, nodes: seq<Node>, outbox': seq<Intent>) {
    && outbox <= outbox'
    && (forall i: nat :: i < |nodes| && nodes[i].config.Notification? ==> Intent(n + i, OutboxKind.Notify) in outbox')
    && (forall x :: x in outbox' && x !in outbox ==>
          n <= x.activity < n + |nodes| && x.kind.Notify? && nodes[x.activity - n].config.Notification?)
  }

  lemma BranchesNone(d: Db, round: int, byForEach: bool)
    ensures Branches(d, [], [], round, byForEach, d)
  {
  }

  lemma TimersMore(timers: seq<TimerRow>, n: nat, nodes: seq<Node>, timers1: seq<TimerRow>, timers': seq<TimerRow>)
    requires nodes != [] && forall t :: 0 <= t < |timers| ==> timers[t].activity < n
    requires TimersSet(timers, n, nodes[0], timers1) && BranchTimers(timers1, n + 1, nodes[1..], timers')
    ensures BranchTimers(timers, n, nodes, timers')
  {
    forall i: nat, kind | i < |nodes|
      ensures TimerRow(n + i, kind, TimerStatus.Pending) in timers' <==> AsksFor(nodes[i].config, kind)
    {
      if i == 0 {
        assert TimerRow(n, kind, TimerStatus.Pending) in timers' ==> TimerRow(n, kind, TimerStatus.Pending) in timers1;
      } else {
        assert nodes[i] == nodes[1..][i - 1] && n + i == n + 1 + (i - 1);
      }
    }
  }

  lemma DeliveriesMore(outbox: seq<Intent>, n: nat, nodes: seq<Node>, outbox1: seq<Intent>, outbox': seq<Intent>)
    requires nodes != []
    requires DeliveryOwed(outbox, n, nodes[0], outbox1) && BranchDeliveries(outbox1, n + 1, nodes[1..], outbox')
    ensures BranchDeliveries(outbox, n, nodes, outbox')
  {
    forall i: nat | i < |nodes| && nodes[i].config.Notification? ensures Intent(n + i, OutboxKind.Notify) in outbox' {
      if i > 0 {
        assert nodes[1..][i - 1].config.Notification? && n + i == n + 1 + (i - 1);
      }
    }
    forall x | x in outbox' && x !in outbox
      ensures n <= x.activity < n + |nodes| && x.kind.Notify? && nodes[x.activity - n].config.Notification?
    {
      if x !in outbox1 {
        assert nodes[1..][x.activity - (n + 1)] == nodes[x.activity - n];
      }
    }
  }

  lemma OneLogged(log: seq<Event>, log': seq<Event>, fact: Fact)
    requires LogsOnly(log, log', [fact])
    ensures log'[|log|].fact == fact && log'[|log|].key.None?
  {
    assert log'[|log| + 0].fact == [fact][0];
  }

  lemma RowsMore(acts: seq<Activity>, nodes: seq<Node>, round: int, acts1: seq<Activity>, acts': seq<Activity>)
    requires nodes != [] && |acts1| == |acts| + 1 && acts <= acts1
    requires FreshFor(acts1[|acts|], |acts|, nodes[0], round) && BranchRows(acts1, nodes[1..], round, acts')
    ensures BranchRows(acts, nodes, round, acts')
  {
    var n := |acts|;
    forall i | 0 <= i < |nodes| ensures FreshFor(acts'[n + i], n + i, nodes[i], round) {
      if i > 0 {
        assert nodes[1..][i - 1] == nodes[i] && |acts1| + (i - 1) == n + i;
      }
    }
  }

  lemma FactsMore(log: seq<Event>, n: nat, nodes: seq<Node>, items: seq<Option<(nat, Json)>>, round: int,
                  byForEach: bool, log1: seq<Event>, log': seq<Event>)
    requires nodes != [] && |items| == |nodes|
    requires LogsOnly(log, log1, [ActivityScheduled(n, nodes[0].id, round, RoleOf(nodes[0]),
                                                    Fanned(byForEach, items[0]))])
    requires BranchFacts(log1, n + 1, nodes[1..], items[1..], round, byForEach, log')
    ensures BranchFacts(log, n, nodes, items, round, byForEach, log')
  {
    OneLogged(log, log1, ActivityScheduled(n, nodes[0].id, round, RoleOf(nodes[0]), Fanned(byForEach, items[0])));
    forall i | 0 <= i < |nodes|
      ensures BranchLogged(log'[|log| + i], n + i, nodes[i], round, byForEach, items[i])
    {
      if i > 0 {
        assert nodes[1..][i - 1] == nodes[i] && items[1..][i - 1] == items[i];
        assert |log1| + (i - 1) == |log| + i && n + 1 + (i - 1) == n + i;
      }
    }
  }

  lemma BranchesMore(d: Db, nodes: seq<Node>, items: seq<Option<(nat, Json)>>, round: int, byForEach: bool, d1: Db,
                     d': Db)
    requires nodes != [] && |items| == |nodes| && Opens(d, nodes[0], round, Fanned(byForEach, items[0]), d1)
    requires forall t :: 0 <= t < |d.timers| ==> d.timers[t].activity < |d.activities|
    requires Branches(d1, nodes[1..], items[1..], round, byForEach, d')
    ensures Branches(d, nodes, items, round, byForEach, d')
  {
    var n := |d.activities|;
    assert BranchRows(d.activities, nodes, round, d'.activities) by {
      RowsMore(d.activities, nodes, round, d1.activities, d'.activities);
    }
    assert BranchFacts(d.log, n, nodes, items, round, byForEach, d'.log) by {
      FactsMore(d.log, n, nodes, items, round, byForEach, d1.log, d'.log);
    }
    assert BranchTimers(d.timers, n, nodes, d'.timers) by {
      TimersMore(d.timers, n, nodes, d1.timers, d'.timers);
    }
    assert BranchDeliveries(d.outbox, n, nodes, d'.outbox) by {
      DeliveriesMore(d.outbox, n, nodes, d1.outbox, d'.outbox);
    }
  }

  /** The targets are these nodes, each with its own role and this item. */
  predicate TargetsAre(def: Definition, targets: seq<ParallelTarget>, nodes: seq<Node>, items: seq<Option<(nat, Json)>>)
  {
    && |nodes| == |targets| && |items| == |targets|
    && forall i :: 0 <= i < |targets| ==>
         && FindNode(def.nodes, targets[i].node) == Some(nodes[i]) && nodes[i].id == targets[i].node
         && nodes[i].IsActivity() && targets[i].role == RoleOf(nodes[i]) && targets[i].item == items[i]
  }

  lemma {:induction false} TargetsBranch(d: Db, targets: seq<ParallelTarget>, nodes: seq<Node>,
                                         items: seq<Option<(nat, Json)>>, round: int, byForEach: bool)
    requires TimersOk(d.timers, d.activities) && TargetsAre(d.def, targets, nodes, items)
    ensures var r := ScheduleTargets(d, targets, round, byForEach);
            r.Ok? && Branches(d, nodes, items, round, byForEach, r.value)
    decreases |targets|
  {
    if targets == [] {
      BranchesNone(d, round, byForEach);
    } else {
      var via := Fanned(byForEach, items[0]);
      OpensExactly(d, nodes[0], round, via);
      var d1 := ScheduleActivity(d, nodes[0], RoleOf(nodes[0]), round, via).value.0;
      TargetsBranch(d1, targets[1..], nodes[1..], items[1..], round, byForEach);
      BranchesMore(d, nodes, items, round, byForEach, d1, ScheduleTargets(d1, targets[1..], round, byForEach).value);
    }
  }

  // ------------------------------------------------------------------ the whole fan-out

  /** The fan-out's own fact, then the branches'; the instance has no single current activity any more. */
  ghost predicate FansOut(d: Db, mark: Fact, nodes: seq<Node>, items: seq<Option<(nat, Json)>>, round: int,
                          byForEach: bool, d': Db)
    requires |items| == |nodes|
  {
    exists d1: Db :: && LogsOnly(d.log, d1.log, [mark]) && d1 == d.(current := None, log := d1.log)
                     && Branches(d1, nodes, items, round, byForEach, d')
  }

  lemma MarkLogs(d: Db, targets: seq<ParallelTarget>, forEach: Option<FanOut>, src: nat, round: int, mark: Fact)
    requires src < |d.activities|
    requires mark == if forEach.Some?
                     then ForEachFannedOut(forEach.value.forEachNode, forEach.value.joinTarget, |targets|, round)
                     else SplitScheduled(d.activities[src].node, NodesOf(targets), round)
    ensures var d1 := MarkFanOut(d, targets, forEach, src, round);
            LogsOnly(d.log, d1.log, [mark]) && d1 == d.(current := None, log := d1.log)
  {
  }

  lemma FanOutBranches(env: Env, d: Db, targets: seq<ParallelTarget>, forEach: Option<FanOut>, src: nat, round: int,
                       fuel: nat, nodes: seq<Node>, items: seq<Option<(nat, Json)>>, mark: Fact)
    requires src < |d.activities| && TimersOk(d.timers, d.activities) && TargetsAre(d.def, targets, nodes, items)
    requires targets != [] || forEach.None?
    requires mark == if forEach.Some?
                     then ForEachFannedOut(forEach.value.forEachNode, forEach.value.joinTarget, |targets|, round)
                     else SplitScheduled(d.activities[src].node, NodesOf(targets), round)
    ensures var r := FanOutTo(env, d, targets, forEach, src, round, fuel);
            r.Ok? && FansOut(d, mark, nodes, items, round, forEach.Some?, r.value)
  {
    MarkLogs(d, targets, forEach, src, round, mark);
    var d1 := MarkFanOut(d, targets, forEach, src, round);
    TargetsBranch(d1, targets, nodes, items, round, forEach.Some?);
  }

  // ------------------------------------------------------------------ splits

  /** The nodes a split names, if they all are of kinds that become an activity. */
  predicate CanBranchTo(def: Definition, branches: seq<NodeId>) {
    forall i :: 0 <= i < |branches| ==>
      FindNode(def.nodes, branches[i]).Some? && FindNode(def.nodes, branches[i]).value.IsActivity()
  }

  function BranchNodes(def: Definition, branches: seq<NodeId>): (nodes: seq<Node>)
    requires CanBranchTo(def, branches)
    ensures |nodes| == |branches|
  {
    seq(|branches|, i requires 0 <= i < |branches| => FindNode(def.nodes, branches[i]).value)
  }

  function NoItems(n: nat): (items: seq<Option<(nat, Json)>>)
    ensures |items| == n
  {
    seq(n, _ => None)
  }

  lemma {:induction false} SplitTargetsExactly(def: Definition, branches: seq<NodeId>)
    ensures var r := SplitTargets(def.nodes, branches);
            && (r.Some? <==> CanBranchTo(def, branches))
            && (r.Some? ==> |r.value| == |branches| && NodesOf(r.value) == branches
                            && TargetsAre(def, r.value, BranchNodes(def, branches), NoItems(|branches|)))
  {
    if branches != [] {
      SplitTargetsExactly(def, branches[1..]);
      assert CanBranchTo(def, branches) <==>
             && FindNode(def.nodes, branches[0]).Some? && FindNode(def.nodes, branches[0]).value.IsActivity()
             && CanBranchTo(def, branches[1..]) by {
        assert forall i :: 0 < i < |branches| ==> branches[i] == branches[1..][i - 1];
      }
      if SplitTargets(def.nodes, branches).Some? {
        SplitTargetsMore(def, branches);
      }
    }
  }

  lemma SplitTargetsMore(def: Definition, branches: seq<NodeId>)
    requires branches != [] && SplitTargets(def.nodes, branches).Some? && CanBranchTo(def, branches)
    requires CanBranchTo(def, branches[1..])
    requires var rest := SplitTargets(def.nodes, branches[1..]);
             && rest.Some? && |rest.value| == |branches| - 1 && NodesOf(rest.value) == branches[1..]
             && TargetsAre(def, rest.value, BranchNodes(def, branches[1..]), NoItems(|branches| - 1))
    ensures var targets := SplitTargets(def.nodes, branches).value;
            && |targets| == |branches| && NodesOf(targets) == branches
            && TargetsAre(def, targets, BranchNodes(def, branches), NoItems(|branches|))
  {
    var targets, rest := SplitTargets(def.nodes, branches).value, SplitTargets(def.nodes, branches[1..]).value;
    forall i | 0 <= i < |targets|
      ensures targets[i].node == branches[i] && targets[i].role == RoleOf(BranchNodes(def, branches)[i])
      ensures targets[i].item == None
    {
      if i > 0 {
        assert targets[i] == rest[i - 1] && branches[i] == branches[1..][i - 1];
        assert BranchNodes(def, branches[1..])[i - 1] == BranchNodes(def, branches)[i];
        assert NodesOf(rest)[i - 1] == branches[1..][i - 1];
      }
    }
    assert NodesOf(targets) == branches;
  }

  /** At a split: the split's fact naming its branches, then branch by branch, in the order in which the split names
      them, an activity of that node for the node's own role. A split with a branch that cannot be one fails. */
  lemma SplitLands(env: Env, d: Db, split: Node, src: nat, round: int, fuel: nat)
    requires src < |d.activities| && TimersOk(d.timers, d.activities)
    requires FindNode(d.def.nodes, split.id) == Some(split) && split.config.ParallelSplit?
    ensures var r, branches := Landed(env, d, split.id, src, round, fuel), split.config.branchTargets;
            if CanBranchTo(d.def, branches)
            then r.Ok? && FansOut(d, SplitScheduled(d.activities[src].node, branches, round),
                                  BranchNodes(d.def, branches), NoItems(|branches|), round, false, r.value)
            else Fails(d, r)
  {
    var branches := split.config.branchTargets;
    SplitTargetsExactly(d.def, branches);
    if CanBranchTo(d.def, branches) {
      var targets := SplitTargets(d.def.nodes, branches).value;
      assert Landing(d.def, env.cel, d.Ctx(), split.id) == AdvanceMulti(targets);
      FanOutBranches(env, d, targets, None, src, round, fuel, BranchNodes(d.def, branches), NoItems(|branches|),
                     SplitScheduled(d.activities[src].node, branches, round));
    }
  }

  // ------------------------------------------------------------------ fan-outs over items

  /** The item each branch stands for, with its position. */
  function Numbered(items: seq<Json>): (r: seq<Option<(nat, Json)>>)
    ensures |r| == |items|
  {
    seq(|items|, i requires 0 <= i < |items| => Some((i, items[i])))
  }

  function Copies(node: Node, n: nat): (nodes: seq<Node>)
    ensures |nodes| == n
  {
    seq(n, _ => node)
  }

  /** Kinds a ForEach may have as its template. */
  predicate CanRepeat(c: NodeConfig) {
    c.Approval? || c.Assignment? || c.EventWait?
  }

  /** More items than a positive cap allows. */
  predicate TooMany(cap: Option<int>, items: seq<Json>) {
    cap.Some? && cap.value > 0 && |items| > cap.value
  }

  lemma ForEachTargetsExactly(def: Definition, template: Node, items: seq<Json>)
    requires FindNode(def.nodes, template.id) == Some(template) && CanRepeat(template.config)
    ensures var targets := ForEachTargets(template, items);
            |targets| == |items| && TargetsAre(def, targets, Copies(template, |items|), Numbered(items))
  {
    var targets := ForEachTargets(template, items);
    forall i | 0 <= i < |items|
      ensures targets[i].node == template.id && targets[i].role == RoleOf(template)
      ensures targets[i].item == Numbered(items)[i]
    {
      assert targets[i] == ParallelTarget(template.id, InstantiatedType(template.config), template.AssigneeRole(),
                                          Some((i, items[i])));
    }
  }

  /** At a ForEach over items: its fact with their number, then item by item, in order, an activity of the template for
      the template's role, logged with the item and its position. */
  lemma ForEachLands(env: Env, d: Db, fan: Node, template: Node, items: seq<Json>, src: nat, round: int, fuel: nat)
    requires src < |d.activities| && TimersOk(d.timers, d.activities)
    requires FindNode(d.def.nodes, fan.id) == Some(fan) && fan.config.ForEach?
    requires FindNode(d.def.nodes, fan.config.branchTemplate) == Some(template) && CanRepeat(template.config)
    requires env.cel.items(fan.config.itemsPath, d.Ctx()) == Some(items) && items != []
    requires !TooMany(fan.config.maxFanoutRaw, items)
    ensures var r := Landed(env, d, fan.id, src, round, fuel);
            r.Ok? && FansOut(d, ForEachFannedOut(fan.id, fan.config.joinTarget, |items|, round),
                             Copies(template, |items|), Numbered(items), round, true, r.value)
  {
    var targets := ForEachTargets(template, items);
    assert Landing(d.def, env.cel, d.Ctx(), fan.id) == AdvanceMulti(targets);
    ForEachTargetsExactly(d.def, template, items);
    FanOutBranches(env, d, targets, Some(FanOut(fan.id, fan.config.joinTarget)), src, round, fuel,
                   Copies(template, |items|), Numbered(items),
                   ForEachFannedOut(fan.id, fan.config.joinTarget, |items|, round));
  }

  /** A ForEach fails if its items cannot be evaluated or exceed the cap, or its template cannot be repeated. */
  lemma ForEachFails(env: Env, d: Db, fan: Node, src: nat, round: int, fuel: nat)
    requires src < |d.activities| && FindNode(d.def.nodes, fan.id) == Some(fan) && fan.config.ForEach?
    requires var template := FindNode(d.def.nodes, fan.config.branchTemplate);
             var items := env.cel.items(fan.config.itemsPath, d.Ctx());
             || items.None? || TooMany(fan.config.maxFanoutRaw, items.value)
             || template.None? || !CanRepeat(template.value.config)
    ensures Fails(d, Landed(env, d, fan.id, src, round, fuel))
  {
    assert Landing(d.def, env.cel, d.Ctx(), fan.id) == AdvanceOutcome.Error;
  }
}
