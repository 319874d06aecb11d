/** Domain vocabulary of the workflow engine: statuses, signals, join strategies, the graph model
    and the accessors the runtime and the service read it through. */
module Core {

  datatype Option<+T> = None | Some(value: T)

  datatype Result<+T> = Ok(value: T) | Err(error: FlowError) {
    predicate IsFailure() {
      Err?
    }

    function PropagateFailure<U>(): Result<U>
      requires Err?
    {
      Err(error)
    }

    function Extract(): T
      requires Ok?
    {
      value
    }
  }

  /** The engine's error classes. `Diverges` is the model's own: the join recursion did not finish
      within the fuel it was given. */
  datatype FlowError = Validation | NotFound | Conflict | InvalidState | Diverges

  type NodeId = string
  type Role = string

  datatype WorkflowStatus = Pending | Active | Completed | Errored | Cancelled | ReturnedWaiting {
    predicate IsTerminal() {
      Completed? || Errored? || Cancelled?
    }
  }

  datatype WorkflowResult = Approved | Rejected | Returned

  datatype ActivityType = Approval | Notification | EventWait | Assignment

  datatype ActivityStatus = Active | Completed | Skipped

  /** The values of the `result` column of an activity. */
  datatype ActivityResult = Approved | Rejected | Returned | Completed

  datatype SignalType =
    | Approved | Returned | Rejected | Resubmitted | EventReceived | Claimed | Reassigned | Completed

  datatype JoinStrategy = WaitAll | WaitAny | NOfM(n: int) {
    predicate IsSatisfied(arrived: int, expected: int) {
      match this
      case WaitAll => arrived >= expected
      case WaitAny => arrived >= 1
      case NOfM(n) => arrived >= n
    }

    predicate SkipsRemaining() {
      !WaitAll?
    }
  }

  /** JSON documents as the engine's context holds them. Objects keep their entries in insertion
      order; a number is its rendered text. */
  datatype Json =
    | Null
    | Bool(b: bool)
    | Num(text: string)
    | Str(s: string)
    | Arr(items: seq<Json>)
    | Obj(entries: seq<(string, Json)>)

  type Context = map<string, Json>

  /** The expression language, seen only through its three entry points: each is a deterministic
      function of the expression text and the context, and may fail (`None`). */
  datatype Cel = Cel(
    compiles: string -> bool,
    guard: (string, Context) -> Option<bool>,
    items: (string, Context) -> Option<seq<Json>>)

  datatype Branch = Branch(guard: string, target: NodeId)

  datatype NodeConfig =
    | Start
    | Approval(assigneeRole: Option<Role>, slaSecs: Option<int>, escalationSecs: Option<int>,
               escalationRole: Option<Role>)
    | Notification(templateCode: Option<string>, recipient: Option<string>)
    | End(resultCode: Option<string>)
    | Condition(defaultTarget: NodeId, branches: seq<Branch>)
    | Parallel
    | Timer
    | EventWait(eventType: string, timeoutSecs: Option<int>, timeoutTo: Option<NodeId>)
    | ParallelSplit(branchTargets: seq<NodeId>)
    | ParallelJoin(strategy: JoinStrategy)
    | Assignment(assignee: Option<string>, queueCode: Option<string>)
    | Merge
    | ForEach(itemsPath: string, branchTemplate: NodeId, joinTarget: NodeId, maxFanoutRaw: Option<int>)
    | SubWorkflow(childFlowType: string, onChildFailed: Option<NodeId>)

  function Positive(n: Option<int>): Option<int> {
    if n.Some? && n.value > 0 then n else None
  }

  function NonEmpty(s: Option<string>): Option<string> {
    if s.Some? && s.value != "" then s else None
  }

  datatype Node = Node(id: NodeId, contextWrites: seq<string>, config: NodeConfig) {
    function AssigneeRole(): Option<Role> {
      if config.Approval? then config.assigneeRole else None
    }

    function SlaSeconds(): Option<int> {
      if config.Approval? then Positive(config.slaSecs) else None
    }

    function EscalationConfig(): Option<(int, Role)> {
      if config.Approval? && Positive(config.escalationSecs).Some? && NonEmpty(config.escalationRole).Some? then
        Some((config.escalationSecs.value, config.escalationRole.value))
      else
        None
    }

    function TimeoutTarget(): Option<NodeId> {
      if config.EventWait? then NonEmpty(config.timeoutTo) else None
    }

    function TimeoutSeconds(): Option<int> {
      if config.EventWait? then Positive(config.timeoutSecs) else None
    }

    /** Routing nodes are walked through without leaving an activity behind. */
    predicate Routes() {
      config.Condition? || config.Merge?
    }

    /** The kinds that become an activity row. */
    predicate IsActivity() {
      config.Approval? || config.Notification? || config.EventWait? || config.Assignment?
    }
  }

  datatype Transition = Transition(from: NodeId, to: NodeId, onSignal: SignalType)

  /** The immutable snapshot bound to an instance. `maxRound` 0 means "not declared". */
  datatype Definition = Definition(nodes: seq<Node>, transitions: seq<Transition>, maxRound: int)

  /** First node carrying an id. */
  function FindNode(nodes: seq<Node>, id: NodeId): (r: Option<Node>)
    ensures r.Some? ==> r.value in nodes && r.value.id == id
  {
    if nodes == [] then None
    else if nodes[0].id == id then Some(nodes[0])
    else FindNode(nodes[1..], id)
  }

  /** First transition out of a node on a signal. */
  function FindTransition(transitions: seq<Transition>, from: NodeId, signal: SignalType): (r: Option<Transition>)
    ensures r.Some? ==> r.value in transitions && r.value.from == from && r.value.onSignal == signal
  {
    if transitions == [] then None
    else if transitions[0].from == from && transitions[0].onSignal == signal then Some(transitions[0])
    else FindTransition(transitions[1..], from, signal)
  }

  /** A lookup misses only ids no node carries. */
  lemma {:induction false} FindNodeMisses(nodes: seq<Node>, id: NodeId)
    ensures FindNode(nodes, id).None? <==> forall n :: n in nodes ==> n.id != id
  {
    if nodes != [] && nodes[0].id != id {
      FindNodeMisses(nodes[1..], id);
      assert forall n :: n in nodes <==> n == nodes[0] || n in nodes[1..];
    }
  }

  lemma {:induction false} FindTransitionMisses(transitions: seq<Transition>, from: NodeId, signal: SignalType)
    ensures FindTransition(transitions, from, signal).None? <==>
            forall t :: t in transitions ==> !(t.from == from && t.onSignal == signal)
  {
    if transitions != [] && !(transitions[0].from == from && transitions[0].onSignal == signal) {
      FindTransitionMisses(transitions[1..], from, signal);
      assert forall t :: t in transitions <==> t == transitions[0] || t in transitions[1..];
    }
  }

  predicate UniqueIds(nodes: seq<Node>) {
    forall i, j :: 0 <= i < j < |nodes| ==> nodes[i].id != nodes[j].id
  }

  /** With unique ids, looking a listed node up by its id finds that very node. */
  lemma {:induction false} FindNodeIsNode(nodes: seq<Node>, n: Node)
    requires UniqueIds(nodes) && n in nodes
    ensures FindNode(nodes, n.id) == Some(n)
  {
    if nodes[0] != n {
      var i :| 0 <= i < |nodes| && nodes[i] == n;
      assert nodes[1..][i - 1] == n;
      FindNodeIsNode(nodes[1..], n);
    }
  }

  predicate IsJoinIncoming(signal: SignalType) {
    signal.Approved? || signal.Completed? || signal.EventReceived?
  }

  /** The signal that ends an activity of a node kind on its regular path. */
  function CompletionSignal(c: NodeConfig): Option<SignalType> {
    match c
    case Approval(_, _, _, _) => Some(SignalType.Approved)
    case Assignment(_, _) => Some(SignalType.Completed)
    case Notification(_, _) => Some(SignalType.Completed)
    case EventWait(_, _, _) => Some(SignalType.EventReceived)
    case _ => None
  }

  /** Activity type a node is instantiated with. */
  function InstantiatedType(c: NodeConfig): ActivityType {
    match c
    case EventWait(_, _, _) => ActivityType.EventWait
    case Notification(_, _) => ActivityType.Notification
    case Assignment(_, _) => ActivityType.Assignment
    case _ => ActivityType.Approval
  }
}
