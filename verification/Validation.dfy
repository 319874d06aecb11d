/** The publish gate: which definitions are accepted, and the loops that decide it. */
module Validation {
  import opened Core

  // ------------------------------------------------------------------ what acceptance means

  function Ids(nodes: seq<Node>): set<NodeId> {
    set n | n in nodes :: n.id
  }

  predicate HasEdge(transitions: seq<Transition>, from: NodeId, signal: SignalType) {
    exists t :: t in transitions && t.from == from && t.onSignal == signal
  }

  /** Transitions a join counts its branches by. */
  function Incoming(transitions: seq<Transition>, join: NodeId): seq<Transition> {
    if transitions == [] then []
    else
      (if transitions[0].to == join && IsJoinIncoming(transitions[0].onSignal) then [transitions[0]] else [])
      + Incoming(transitions[1..], join)
  }

  function Outgoing(transitions: seq<Transition>, from: NodeId, signal: SignalType): seq<Transition> {
    if transitions == [] then []
    else
      (if transitions[0].from == from && transitions[0].onSignal == signal then [transitions[0]] else [])
      + Outgoing(transitions[1..], from, signal)
  }

  predicate ForEachFeeds(nodes: seq<Node>, join: NodeId) {
    exists n :: n in nodes && n.config.ForEach? && n.config.joinTarget == join
  }

  predicate DistinctNonEmpty(keys: seq<string>) {
    && (forall i :: 0 <= i < |keys| ==> keys[i] != "")
    && (forall i, j :: 0 <= i < j < |keys| ==> keys[i] != keys[j])
  }

  predicate EscalationPaired(node: Node)
    requires node.config.Approval?
  {
    var secs := Positive(node.config.escalationSecs);
    var role := NonEmpty(node.config.escalationRole);
    secs.Some? == role.Some?
    && (secs.Some? && node.SlaSeconds().Some? ==> secs.value > node.SlaSeconds().value)
  }

  /** Node the completion edge of a split branch leads to. */
  function BranchJoin(def: Definition, branch: NodeId): Option<NodeId> {
    var node := FindNode(def.nodes, branch);
    if node.None? || CompletionSignal(node.value.config).None? then None
    else
      match FindTransition(def.transitions, branch, CompletionSignal(node.value.config).value)
      case Some(t) => Some(t.to)
      case None => None
  }

  predicate SplitBranchValid(def: Definition, branch: NodeId) {
    var node := FindNode(def.nodes, branch);
    && node.Some?
    && CompletionSignal(node.value.config).Some?
    && node.value.contextWrites == []
    && BranchJoin(def, branch).Some?
    && var join := FindNode(def.nodes, BranchJoin(def, branch).value);
       join.Some? && join.value.config.ParallelJoin?
  }

  predicate SplitValid(def: Definition, branches: seq<NodeId>) {
    && |branches| >= 2
    && forall i :: 0 <= i < |branches| ==>
         SplitBranchValid(def, branches[i]) && BranchJoin(def, branches[i]) == BranchJoin(def, branches[0])
  }

  predicate JoinValid(def: Definition, node: Node)
    requires node.config.ParallelJoin?
  {
    var incoming := |Incoming(def.transitions, node.id)|;
    var dynamic := ForEachFeeds(def.nodes, node.id);
    && (dynamic || incoming >= 2)
    && HasEdge(def.transitions, node.id, SignalType.Approved)
    && (node.config.strategy.NOfM? ==>
          node.config.strategy.n >= 1 && (dynamic || node.config.strategy.n <= incoming))
  }

  /** No branch of this split is approved straight into the Merge. */
  predicate SplitAvoids(def: Definition, split: Node, merge: NodeId) {
    split.config.ParallelSplit? ==>
      forall i :: 0 <= i < |split.config.branchTargets| ==>
        Transition(split.config.branchTargets[i], merge, SignalType.Approved) !in def.transitions
  }

  predicate MergeValid(def: Definition, node: Node) {
    var out := Outgoing(def.transitions, node.id, SignalType.Approved);
    && |out| == 1
    && (var next := FindNode(def.nodes, out[0].to); next.Some? ==> !next.value.config.ParallelSplit?)
    && forall i :: 0 <= i < |def.nodes| ==> SplitAvoids(def, def.nodes[i], node.id)
  }

  predicate ForEachValid(def: Definition, cel: Cel, node: Node)
    requires node.config.ForEach?
  {
    var template := FindNode(def.nodes, node.config.branchTemplate);
    var join := FindNode(def.nodes, node.config.joinTarget);
    && node.config.itemsPath != ""
    && cel.compiles(node.config.itemsPath)
    && template.Some?
    && (template.value.config.Approval? || template.value.config.Assignment? || template.value.config.EventWait?)
    && template.value.contextWrites == []
    && join.Some? && join.value.config.ParallelJoin?
    && (exists t :: t in def.transitions && t.from == node.config.branchTemplate && t.to == node.config.joinTarget
                    && IsJoinIncoming(t.onSignal))
  }

  predicate BranchesValid(def: Definition, cel: Cel, branches: seq<Branch>) {
    forall i :: 0 <= i < |branches| ==> branches[i].target in Ids(def.nodes) && cel.compiles(branches[i].guard)
  }

  predicate ConfigValid(def: Definition, cel: Cel, node: Node) {
    match node.config
    case Parallel => false
    case Timer => false
    case Notification(template, recipient) =>
      && NonEmpty(template).Some? && recipient.Some?
      && HasEdge(def.transitions, node.id, SignalType.Completed)
    case Assignment(assignee, queue) =>
      && (assignee.Some? || NonEmpty(queue).Some?)
      && HasEdge(def.transitions, node.id, SignalType.Completed)
    case Approval(role, _, _, _) =>
      && NonEmpty(role).Some?
      && HasEdge(def.transitions, node.id, SignalType.Approved)
      && EscalationPaired(node)
    case Condition(defaultTarget, branches) =>
      defaultTarget != "" && defaultTarget in Ids(def.nodes) && BranchesValid(def, cel, branches)
    case EventWait(eventType, _, _) =>
      && eventType != ""
      && (node.TimeoutTarget().Some? ==> node.TimeoutTarget().value in Ids(def.nodes))
      && (HasEdge(def.transitions, node.id, SignalType.EventReceived) || node.TimeoutTarget().Some?)
    case ParallelSplit(branches) => SplitValid(def, branches)
    case ParallelJoin(_) => JoinValid(def, node)
    case Merge => MergeValid(def, node)
    case ForEach(_, _, _, _) => ForEachValid(def, cel, node)
    case SubWorkflow(flowType, onFailed) =>
      && flowType != ""
      && HasEdge(def.transitions, node.id, SignalType.EventReceived)
      && (onFailed.Some? ==> onFailed.value in Ids(def.nodes))
    case Start => true
    case End(_) => true
  }

  predicate NodeValid(def: Definition, cel: Cel, node: Node) {
    && (node.contextWrites != [] ==> node.IsActivity() && DistinctNonEmpty(node.contextWrites))
    && ConfigValid(def, cel, node)
  }

  function CountStarts(nodes: seq<Node>): nat {
    if nodes == [] then 0 else (if nodes[0].config.Start? then 1 else 0) + CountStarts(nodes[1..])
  }

  /** The definitions the gate accepts. */
  predicate ValidDefinition(def: Definition, cel: Cel) {
    && UniqueIds(def.nodes)
    && CountStarts(def.nodes) == 1
    && (exists n :: n in def.nodes && n.config.End?)
    && (forall i {:trigger NodeValid(def, cel, def.nodes[i])} :: 0 <= i < |def.nodes| ==>
        NodeValid(def, cel, def.nodes[i]))
    && (forall i :: 0 <= i < |def.transitions| ==>
          def.transitions[i].from in Ids(def.nodes) && def.transitions[i].to in Ids(def.nodes))
  }

  /** Definitions that only a caller's signal can move. */
  predicate DomainDriven(def: Definition) {
    forall i :: 0 <= i < |def.nodes| ==>
      var c := def.nodes[i].config;
      c.Start? || c.Approval? || c.Condition? || c.End? || c.Merge?
  }

  // ------------------------------------------------------------------ the gate as it runs

  method CheckKeys(keys: seq<string>) returns (ok: bool)
    ensures ok <==> DistinctNonEmpty(keys)
  {
    var seen: set<string> := {};
    for i := 0 to |keys|
      invariant seen == set k | k in keys[..i]
      invariant DistinctNonEmpty(keys[..i])
    {
      if keys[i] == "" || keys[i] in seen {
        return false;
      }
      assert keys[..i + 1] == keys[..i] + [keys[i]];
      seen := seen + {keys[i]};
    }
    assert keys[..|keys|] == keys;
    return true;
  }

  method CheckSplit(def: Definition, branches: seq<NodeId>) returns (ok: bool)
    ensures ok <==> SplitValid(def, branches)
  {
    if |branches| < 2 {
      return false;
    }
    var join: Option<NodeId> := None;
    for i := 0 to |branches|
      invariant forall k :: 0 <= k < i ==> SplitBranchValid(def, branches[k]) && BranchJoin(def, branches[k]) == join
      invariant i == 0 ==> join.None?
      invariant i > 0 ==> join.Some?
    {
      var node := FindNode(def.nodes, branches[i]);
      if node.None? || CompletionSignal(node.value.config).None? || node.value.contextWrites != [] {
        return false;
      }
      var edge := FindTransition(def.transitions, branches[i], CompletionSignal(node.value.config).value);
      if edge.None? {
        return false;
      }
      var target := FindNode(def.nodes, edge.value.to);
      if target.None? || !target.value.config.ParallelJoin? {
        return false;
      }
      if join.None? {
        join := Some(edge.value.to);
      } else if join.value != edge.value.to {
        return false;
      }
    }
    return true;
  }

  method CheckBranches(def: Definition, cel: Cel, branches: seq<Branch>) returns (ok: bool)
    ensures ok <==> BranchesValid(def, cel, branches)
  {
    for i := 0 to |branches|
      invariant BranchesValid(def, cel, branches[..i])
    {
      if branches[i].target !in Ids(def.nodes) || !cel.compiles(branches[i].guard) {
        return false;
      }
    }
    return true;
  }

  predicate StartAt(nodes: seq<Node>, i: int) {
    0 <= i < |nodes| && nodes[i].config.Start?
  }

  predicate OnlyStart(nodes: seq<Node>, i: int) {
    StartAt(nodes, i) && forall j :: 0 <= j < |nodes| && StartAt(nodes, j) ==> j == i
  }

  lemma {:induction false} NoStart(nodes: seq<Node>)
    ensures CountStarts(nodes) == 0 <==> forall n :: n in nodes ==> !n.config.Start?
  {
    if nodes != [] {
      NoStart(nodes[1..]);
      assert forall n :: n in nodes <==> n == nodes[0] || n in nodes[1..];
    }
  }

  lemma {:induction false} StartsCounted(nodes: seq<Node>, i: nat)
    requires StartAt(nodes, i)
    ensures CountStarts(nodes) == 1 + CountStarts(nodes[..i]) + CountStarts(nodes[i + 1..])
  {
    if i > 0 {
      StartsCounted(nodes[1..], i - 1);
      assert nodes[1..][..i - 1] == nodes[..i][1..] && nodes[1..][i..] == nodes[i + 1..];
    }
  }

  lemma StartAlone(nodes: seq<Node>, i: nat)
    requires StartAt(nodes, i)
    ensures CountStarts(nodes) == 1 <==> OnlyStart(nodes, i)
  {
    var before, after := nodes[..i], nodes[i + 1..];
    StartsCounted(nodes, i);
    NoStart(before);
    NoStart(after);
    forall j | 0 <= j < |nodes| && StartAt(nodes, j) && j != i
      ensures nodes[j] in before || nodes[j] in after
    {
      assert if j < i then nodes[j] == before[j] else nodes[j] == after[j - i - 1];
    }
    forall n | (n in before || n in after) && n.config.Start?
      ensures exists j :: 0 <= j < |nodes| && StartAt(nodes, j) && j != i
    {
      if n in before {
        var j :| 0 <= j < i && before[j] == n;
        assert StartAt(nodes, j);
      } else {
        var j :| 0 <= j < |after| && after[j] == n;
        assert StartAt(nodes, i + 1 + j);
      }
    }
  }

  /** One node is a Start, exactly. */
  lemma StartsExactly(nodes: seq<Node>)
    ensures CountStarts(nodes) == 1 <==> exists i :: 0 <= i < |nodes| && OnlyStart(nodes, i)
  {
    if i :| 0 <= i < |nodes| && OnlyStart(nodes, i) {
      StartAlone(nodes, i);
    }
    if CountStarts(nodes) == 1 {
      NoStart(nodes);
      var n :| n in nodes && n.config.Start?;
      var i :| 0 <= i < |nodes| && nodes[i] == n;
      StartAlone(nodes, i);
    }
  }

  predicate LeavesAt(ts: seq<Transition>, from: NodeId, signal: SignalType, k: int) {
    0 <= k < |ts| && ts[k].from == from && ts[k].onSignal == signal
  }

  predicate OnlyAt(ts: seq<Transition>, from: NodeId, signal: SignalType, k: int) {
    && LeavesAt(ts, from, signal, k)
    && forall j :: 0 <= j < |ts| && LeavesAt(ts, from, signal, j) ==> j == k
  }

  lemma {:induction false} NoneOutgoing(ts: seq<Transition>, from: NodeId, signal: SignalType)
    ensures Outgoing(ts, from, signal) == [] <==> !HasEdge(ts, from, signal)
  {
    if ts != [] {
      NoneOutgoing(ts[1..], from, signal);
      assert forall t :: t in ts <==> t == ts[0] || t in ts[1..];
    }
  }

  lemma {:induction false} OutgoingSplits(ts: seq<Transition>, from: NodeId, signal: SignalType, k: nat)
    requires LeavesAt(ts, from, signal, k)
    ensures Outgoing(ts, from, signal)
         == Outgoing(ts[..k], from, signal) + [ts[k]] + Outgoing(ts[k + 1..], from, signal)
  {
    if k > 0 {
      OutgoingSplits(ts[1..], from, signal, k - 1);
      assert ts[1..][..k - 1] == ts[..k][1..] && ts[1..][k..] == ts[k + 1..];
    }
  }

  lemma AloneLeaves(ts: seq<Transition>, from: NodeId, signal: SignalType, k: nat)
    requires LeavesAt(ts, from, signal, k)
    ensures |Outgoing(ts, from, signal)| == 1 <==> OnlyAt(ts, from, signal, k)
    ensures OnlyAt(ts, from, signal, k) ==> Outgoing(ts, from, signal) == [ts[k]]
  {
    var before, after := ts[..k], ts[k + 1..];
    OutgoingSplits(ts, from, signal, k);
    NoneOutgoing(before, from, signal);
    NoneOutgoing(after, from, signal);
    forall j | 0 <= j < |ts| && LeavesAt(ts, from, signal, j) && j != k
      ensures HasEdge(before, from, signal) || HasEdge(after, from, signal)
    {
      assert if j < k then ts[j] == before[j] else ts[j] == after[j - k - 1];
    }
    if HasEdge(before, from, signal) {
      var t :| t in before && t.from == from && t.onSignal == signal;
      var j :| 0 <= j < k && before[j] == t;
      assert LeavesAt(ts, from, signal, j);
    }
    if HasEdge(after, from, signal) {
      var t :| t in after && t.from == from && t.onSignal == signal;
      var j :| 0 <= j < |after| && after[j] == t;
      assert LeavesAt(ts, from, signal, k + 1 + j);
    }
  }

  lemma OneOutgoing(ts: seq<Transition>, from: NodeId, signal: SignalType)
    ensures |Outgoing(ts, from, signal)| == 1 <==> exists k :: 0 <= k < |ts| && OnlyAt(ts, from, signal, k)
    ensures forall k :: 0 <= k < |ts| && OnlyAt(ts, from, signal, k) ==> Outgoing(ts, from, signal) == [ts[k]]
  {
    forall k | 0 <= k < |ts| && OnlyAt(ts, from, signal, k) ensures Outgoing(ts, from, signal) == [ts[k]] {
      AloneLeaves(ts, from, signal, k);
    }
    if |Outgoing(ts, from, signal)| == 1 {
      NoneOutgoing(ts, from, signal);
      var t :| t in ts && t.from == from && t.onSignal == signal;
      var k :| 0 <= k < |ts| && ts[k] == t;
      AloneLeaves(ts, from, signal, k);
    }
  }

  /** A Merge is left by one APPROVED edge, not into a split, and no branch of any split is approved straight
      into it. */
  lemma MergeExactly(def: Definition, node: Node)
    ensures MergeValid(def, node) <==>
              && (exists k :: 0 <= k < |def.transitions| && OnlyAt(def.transitions, node.id, SignalType.Approved, k)
                              && var next := FindNode(def.nodes, def.transitions[k].to);
                                 next.None? || !next.value.config.ParallelSplit?)
              && (forall n, b :: n in def.nodes && n.config.ParallelSplit? && b in n.config.branchTargets ==>
                    Transition(b, node.id, SignalType.Approved) !in def.transitions)
  {
    OneOutgoing(def.transitions, node.id, SignalType.Approved);
  }

  method CheckMerge(def: Definition, node: Node) returns (ok: bool)
    ensures ok <==> MergeValid(def, node)
  {
    var out := Outgoing(def.transitions, node.id, SignalType.Approved);
    if |out| != 1 {
      return false;
    }
    var next := FindNode(def.nodes, out[0].to);
    if next.Some? && next.value.config.ParallelSplit? {
      return false;
    }
    for i := 0 to |def.nodes|
      invariant forall k :: 0 <= k < i ==> SplitAvoids(def, def.nodes[k], node.id)
    {
      if def.nodes[i].config.ParallelSplit? {
        var branches := def.nodes[i].config.branchTargets;
        for j := 0 to |branches|
          invariant forall k :: 0 <= k < j ==>
                      Transition(branches[k], node.id, SignalType.Approved) !in def.transitions
        {
          if Transition(branches[j], node.id, SignalType.Approved) in def.transitions {
            return false;
          }
        }
      }
    }
    return true;
  }

  /** Some transition leads out of the node on the signal. */
  method HasOutgoing(transitions: seq<Transition>, from: NodeId, signal: SignalType) returns (found: bool)
    ensures found <==> exists t :: t in transitions && t.from == from && t.onSignal == signal
  {
    for i := 0 to |transitions|
      invariant forall k :: 0 <= k < i ==> !(transitions[k].from == from && transitions[k].onSignal == signal)
    {
      if transitions[i].from == from && transitions[i].onSignal == signal {
        return true;
      }
    }
    return false;
  }

  /** An approval names a role and has a way on. An escalation has both a time and a role, or neither, and comes after
      the SLA, if there is one. */
  method CheckApproval(def: Definition, node: Node) returns (ok: bool)
    requires node.config.Approval?
    ensures var c := node.config;
            var timed := c.escalationSecs.Some? && c.escalationSecs.value > 0;
            var named := c.escalationRole.Some? && c.escalationRole.value != "";
            ok <==> && c.assigneeRole.Some? && c.assigneeRole.value != ""
                    && (exists t :: t in def.transitions && t.from == node.id && t.onSignal.Approved?)
                    && (timed <==> named)
                    && (timed && c.slaSecs.Some? && c.slaSecs.value > 0 ==> c.escalationSecs.value > c.slaSecs.value)
  {
    if node.AssigneeRole().None? || node.AssigneeRole().value == "" {
      return false;
    }
    var approved := HasOutgoing(def.transitions, node.id, SignalType.Approved);
    if !approved {
      return false;
    }
    var secs, role := Positive(node.config.escalationSecs), NonEmpty(node.config.escalationRole);
    match (secs, role)
    case (None, None) => ok := true;
    case (Some(delay), Some(_)) => ok := node.SlaSeconds().None? || delay > node.SlaSeconds().value;
    case (_, _) => ok := false;
  }

  method CheckNotification(def: Definition, node: Node) returns (ok: bool)
    requires node.config.Notification?
    ensures ok <==> && node.config.templateCode.Some? && node.config.templateCode.value != ""
                    && node.config.recipient.Some?
                    && (exists t :: t in def.transitions && t.from == node.id && t.onSignal.Completed?)
  {
    if node.config.templateCode.None? || node.config.templateCode.value == "" {
      return false;
    }
    if node.config.recipient.None? {
      return false;
    }
    ok := HasOutgoing(def.transitions, node.id, SignalType.Completed);
  }

  method CheckAssignment(def: Definition, node: Node) returns (ok: bool)
    requires node.config.Assignment?
    ensures ok <==> && (node.config.assignee.Some?
                        || (node.config.queueCode.Some? && node.config.queueCode.value != ""))
                    && (exists t :: t in def.transitions && t.from == node.id && t.onSignal.Completed?)
  {
    if node.config.assignee.None? && (node.config.queueCode.None? || node.config.queueCode.value == "") {
      return false;
    }
    ok := HasOutgoing(def.transitions, node.id, SignalType.Completed);
  }

  /** An event wait names its event and can be left: by the event or by its deadline, whose target exists. */
  method CheckEventWait(def: Definition, node: Node) returns (ok: bool)
    requires node.config.EventWait?
    ensures var c := node.config;
            var timed := c.timeoutTo.Some? && c.timeoutTo.value != "";
            ok <==> && c.eventType != "" && (timed ==> c.timeoutTo.value in Ids(def.nodes))
                    && (timed || exists t :: t in def.transitions && t.from == node.id && t.onSignal.EventReceived?)
  {
    if node.config.eventType == "" {
      return false;
    }
    if node.TimeoutTarget().Some? && node.TimeoutTarget().value !in Ids(def.nodes) {
      return false;
    }
    var received := HasOutgoing(def.transitions, node.id, SignalType.EventReceived);
    ok := received || node.TimeoutTarget().Some?;
  }

  /** A join has at least two incoming edges and a way on, and a threshold its edges can reach; where a ForEach feeds it
      the number of edges does not matter. */
  method CheckJoin(def: Definition, node: Node) returns (ok: bool)
    requires node.config.ParallelJoin?
    ensures var incoming := |Incoming(def.transitions, node.id)|;
            var fed := exists n :: n in def.nodes && n.config.ForEach? && n.config.joinTarget == node.id;
            ok <==> && (fed || incoming >= 2)
                    && (exists t :: t in def.transitions && t.from == node.id && t.onSignal.Approved?)
                    && (node.config.strategy.NOfM? ==>
                        node.config.strategy.n >= 1 && (fed || node.config.strategy.n <= incoming))
  {
    var incoming, fed := |Incoming(def.transitions, node.id)|, ForEachFeeds(def.nodes, node.id);
    if !fed && incoming < 2 {
      return false;
    }
    var approved := HasOutgoing(def.transitions, node.id, SignalType.Approved);
    if !approved {
      return false;
    }
    match node.config.strategy
    case NOfM(n) => ok := n >= 1 && (fed || n <= incoming);
    case _ => ok := true;
  }

  /** A ForEach has a path that compiles, a template of a kind that can be repeated and writes no context, and a join
      the template leads to. */
  method CheckForEach(def: Definition, cel: Cel, node: Node) returns (ok: bool)
    requires node.config.ForEach?
    ensures var c := node.config;
            var template, join := FindNode(def.nodes, c.branchTemplate), FindNode(def.nodes, c.joinTarget);
            ok <==> && c.itemsPath != "" && cel.compiles(c.itemsPath)
                    && template.Some? && template.value.contextWrites == []
                    && (template.value.config.Approval? || template.value.config.Assignment?
                        || template.value.config.EventWait?)
                    && join.Some? && join.value.config.ParallelJoin?
                    && exists t :: && t in def.transitions && t.from == c.branchTemplate && t.to == c.joinTarget
                                   && IsJoinIncoming(t.onSignal)
  {
    var c := node.config;
    if c.itemsPath == "" || !cel.compiles(c.itemsPath) {
      return false;
    }
    var template := FindNode(def.nodes, c.branchTemplate);
    if template.None? {
      return false;
    }
    if !(template.value.config.Approval? || template.value.config.Assignment? || template.value.config.EventWait?) {
      return false;
    }
    if template.value.contextWrites != [] {
      return false;
    }
    var join := FindNode(def.nodes, c.joinTarget);
    if join.None? || !join.value.config.ParallelJoin? {
      return false;
    }
    for i := 0 to |def.transitions|
      invariant forall k :: 0 <= k < i ==>
                  var t := def.transitions[k];
                  !(t.from == c.branchTemplate && t.to == c.joinTarget && IsJoinIncoming(t.onSignal))
    {
      var t := def.transitions[i];
      if t.from == c.branchTemplate && t.to == c.joinTarget && IsJoinIncoming(t.onSignal) {
        return true;
      }
    }
    return false;
  }

  method CheckSubWorkflow(def: Definition, node: Node) returns (ok: bool)
    requires node.config.SubWorkflow?
    ensures var c := node.config;
            ok <==> && c.childFlowType != ""
                    && (exists t :: t in def.transitions && t.from == node.id && t.onSignal.EventReceived?)
                    && (c.onChildFailed.Some? ==> c.onChildFailed.value in Ids(def.nodes))
  {
    if node.config.childFlowType == "" {
      return false;
    }
    var received := HasOutgoing(def.transitions, node.id, SignalType.EventReceived);
    ok := received && (node.config.onChildFailed.None? || node.config.onChildFailed.value in Ids(def.nodes));
  }

  /** What a node writes into the context: an activity's own keys, each named once. */
  method CheckWrites(node: Node) returns (ok: bool)
    ensures ok <==> node.contextWrites != [] ==>
                      && (node.config.Approval? || node.config.EventWait? || node.config.Notification?
                          || node.config.Assignment?)
                      && (forall i :: 0 <= i < |node.contextWrites| ==> node.contextWrites[i] != "")
                      && (forall i, j :: 0 <= i < j < |node.contextWrites| ==>
                            node.contextWrites[i] != node.contextWrites[j])
  {
    if node.contextWrites == [] {
      return true;
    }
    if !node.IsActivity() {
      return false;
    }
    ok := CheckKeys(node.contextWrites);
  }

  method CheckNode(def: Definition, cel: Cel, node: Node) returns (ok: bool)
    ensures ok <==> NodeValid(def, cel, node)
  {
    var writes := CheckWrites(node);
    if !writes {
      return false;
    }
    match node.config
    case Parallel => ok := false;
    case Timer => ok := false;
    case Notification(_, _) => ok := CheckNotification(def, node);
    case Assignment(_, _) => ok := CheckAssignment(def, node);
    case Approval(_, _, _, _) => ok := CheckApproval(def, node);
    case Condition(defaultTarget, branches) =>
      if defaultTarget == "" || defaultTarget !in Ids(def.nodes) {
        return false;
      }
      ok := CheckBranches(def, cel, branches);
    case EventWait(_, _, _) => ok := CheckEventWait(def, node);
    case ParallelSplit(branches) => ok := CheckSplit(def, branches);
    case ParallelJoin(_) => ok := CheckJoin(def, node);
    case Merge => ok := CheckMerge(def, node);
    case ForEach(_, _, _, _) => ok := CheckForEach(def, cel, node);
    case SubWorkflow(_, _) => ok := CheckSubWorkflow(def, node);
    case Start => ok := true;
    case End(_) => ok := true;
  }

  method CheckIds(nodes: seq<Node>) returns (ok: bool, seen: set<NodeId>)
    ensures ok <==> UniqueIds(nodes)
    ensures ok ==> seen == Ids(nodes)
  {
    seen := {};
    for i := 0 to |nodes|
      invariant seen == Ids(nodes[..i])
      invariant UniqueIds(nodes[..i])
    {
      if nodes[i].id in seen {
        return false, seen;
      }
      assert nodes[..i + 1] == nodes[..i] + [nodes[i]];
      seen := seen + {nodes[i].id};
    }
    assert nodes[..|nodes|] == nodes;
    ok := true;
  }

  method CheckEnds(transitions: seq<Transition>, ids: set<NodeId>) returns (ok: bool)
    ensures ok <==> forall i :: 0 <= i < |transitions| ==> transitions[i].from in ids && transitions[i].to in ids
  {
    for i := 0 to |transitions|
      invariant forall k :: 0 <= k < i ==> transitions[k].from in ids && transitions[k].to in ids
    {
      if transitions[i].from !in ids || transitions[i].to !in ids {
        return false;
      }
    }
    return true;
  }

  /** The gate: rejects at the first violation it meets, and accepts exactly the valid definitions. */
  method ValidateDefinition(def: Definition, cel: Cel) returns (ok: bool)
    ensures ok <==> ValidDefinition(def, cel)
  {
    var unique, seen := CheckIds(def.nodes);
    if !unique {
      return false;
    }
    if CountStarts(def.nodes) != 1 || !(exists n :: n in def.nodes && n.config.End?) {
      return false;
    }
    for i := 0 to |def.nodes|
      invariant forall k :: 0 <= k < i ==> NodeValid(def, cel, def.nodes[k])
    {
      var valid := CheckNode(def, cel, def.nodes[i]);
      if !valid {
        return false;
      }
    }
    ok := CheckEnds(def.transitions, seen);
  }

  /** Domain-driven check: a whitelist over node kinds. */
  method ValidateDomainDriven(def: Definition) returns (ok: bool)
    ensures ok <==> DomainDriven(def)
  {
    for i := 0 to |def.nodes|
      invariant forall k :: 0 <= k < i ==>
                  var c := def.nodes[k].config;
                  c.Start? || c.Approval? || c.Condition? || c.End? || c.Merge?
    {
      var c := def.nodes[i].config;
      if !(c.Start? || c.Approval? || c.Condition? || c.End? || c.Merge?) {
        return false;
      }
    }
    return true;
  }
}
