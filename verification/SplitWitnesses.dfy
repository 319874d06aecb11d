/** Accepted definitions whose split does not match its join, although nothing leads back into the region: one names a
    branch twice, and its join fires twice; in the other an edge that no branch uses leads into the join, which never
    fires. */
module SplitWitnesses {
  import opened Core
  import opened Routing
  import opened Validation
  import opened Facts
  import opened Database
  import opened Engine
  import opened Calls
  import opened Runs
  import opened JoinRegion
  import opened RegionFence
  import opened JoinOnce
  import opened JoinDrive
  import opened RegionGraph
  import opened Samples

  // ------------------------------------------------------------------ the definitions

  /** Start; an approval; a split over two approvals, which names the first twice if it `repeats`; their join, which
      waits for all; an approval past it; one more approval, which leads into the join unless the split repeats; an
      end. */
  function UnevenKinds(ids: seq<NodeId>, repeats: bool): seq<NodeConfig>
    requires |ids| == 9
  {
    [NodeConfig.Start, Approves(), ParallelSplit(UnevenBranches(ids, repeats)), Approves(), Approves(),
     NodeConfig.ParallelJoin(WaitAll), Approves(), Approves(), NodeConfig.End(None)]
  }

  function UnevenBranches(ids: seq<NodeId>, repeats: bool): seq<NodeId>
    requires |ids| == 9
  {
    if repeats then [ids[3], ids[3], ids[4]] else [ids[3], ids[4]]
  }

  function UnevenArcs(repeats: bool): seq<Arc> {
    [Arc(1, 2, APPROVED), Arc(3, 5, APPROVED), Arc(4, 5, APPROVED), Arc(5, 6, APPROVED), Arc(6, 8, APPROVED),
     Arc(7, if repeats then 8 else 5, APPROVED)]
  }

  predicate UnevenIds(ids: seq<NodeId>) {
    |ids| == 9 && forall i, j :: 0 <= i < j < 9 ==> ids[i] != ids[j]
  }

  function Uneven(ids: seq<NodeId>, repeats: bool): Definition
    requires UnevenIds(ids)
  {
    Sample(ids, UnevenKinds(ids, repeats), UnevenArcs(repeats))
  }

  function UnevenNode(ids: seq<NodeId>, repeats: bool, i: nat): Node
    requires UnevenIds(ids) && i < 9
  {
    NodeAt(ids, UnevenKinds(ids, repeats), i)
  }

  lemma UnevenFound(ids: seq<NodeId>, repeats: bool, i: nat)
    requires UnevenIds(ids) && i < 9
    ensures FindNode(Uneven(ids, repeats).nodes, ids[i]) == Some(UnevenNode(ids, repeats, i))
  {
    Found(ids, UnevenKinds(ids, repeats), UnevenArcs(repeats), i);
  }

  /** Every approval has just its one edge. */
  lemma UnevenEdge(ids: seq<NodeId>, repeats: bool, k: nat)
    requires UnevenIds(ids) && k < 6
    ensures var ts, arc := Uneven(ids, repeats).transitions, UnevenArcs(repeats)[k];
            FindTransition(ts, ids[arc.from], APPROVED) == Some(Transition(ids[arc.from], ids[arc.to], APPROVED))
            && HasEdge(ts, ids[arc.from], APPROVED)
  {
    ArcFollowed(ids, UnevenKinds(ids, repeats), UnevenArcs(repeats), k);
  }

  function IntoJoin(repeats: bool): seq<nat> {
    if repeats then [1, 2] else [1, 2, 5]
  }

  lemma UnevenArcsInto(repeats: bool)
    ensures ArcsInto(UnevenArcs(repeats), 5, IntoJoin(repeats))
  {
  }

  lemma UnevenIncoming(ids: seq<NodeId>, repeats: bool)
    requires UnevenIds(ids)
    ensures Sources(Incoming(Uneven(ids, repeats).transitions, ids[5])) == UnevenSources(ids, repeats)
  {
    UnevenArcsInto(repeats);
    SourcesAt(ids, UnevenKinds(ids, repeats), UnevenArcs(repeats), 5, IntoJoin(repeats));
    UnevenSourcesAre(ids, repeats, Sources(Incoming(Uneven(ids, repeats).transitions, ids[5])));
  }

  lemma UnevenSourcesAre(ids: seq<NodeId>, repeats: bool, sources: seq<NodeId>)
    requires UnevenIds(ids) && |sources| == |IntoJoin(repeats)|
    requires forall i :: 0 <= i < |sources| ==> sources[i] == ids[UnevenArcs(repeats)[IntoJoin(repeats)[i]].from]
    ensures sources == UnevenSources(ids, repeats)
  {
  }

  function UnevenSources(ids: seq<NodeId>, repeats: bool): seq<NodeId>
    requires UnevenIds(ids)
  {
    if repeats then [ids[3], ids[4]] else [ids[3], ids[4], ids[7]]
  }

  lemma UnevenHome(ids: seq<NodeId>, repeats: bool, i: nat)
    requires UnevenIds(ids) && (i == 3 || i == 4)
    ensures FindTransition(Uneven(ids, repeats).transitions, ids[i], APPROVED)
            == Some(Transition(ids[i], ids[5], APPROVED))
  {
    if i == 3 {
      UnevenEdge(ids, repeats, 1);
    } else {
      UnevenEdge(ids, repeats, 2);
    }
  }

  lemma UnevenBranch(ids: seq<NodeId>, repeats: bool, i: nat)
    requires UnevenIds(ids) && (i == 3 || i == 4)
    ensures SplitBranchValid(Uneven(ids, repeats), ids[i]) && BranchJoin(Uneven(ids, repeats), ids[i]) == Some(ids[5])
  {
    UnevenFound(ids, repeats, i);
    UnevenFound(ids, repeats, 5);
    UnevenHome(ids, repeats, i);
    BranchValid(Uneven(ids, repeats), UnevenNode(ids, repeats, i), Transition(ids[i], ids[5], APPROVED),
                UnevenNode(ids, repeats, 5));
  }

  lemma UnevenSplitValid(ids: seq<NodeId>, repeats: bool)
    requires UnevenIds(ids)
    ensures SplitValid(Uneven(ids, repeats), UnevenBranches(ids, repeats))
  {
    UnevenBranch(ids, repeats, 3);
    UnevenBranch(ids, repeats, 4);
  }

  lemma UnevenNodeValid(ids: seq<NodeId>, repeats: bool, cel: Cel, i: nat)
    requires UnevenIds(ids) && i < 9
    ensures NodeValid(Uneven(ids, repeats), cel, UnevenNode(ids, repeats, i))
  {
    var def := Uneven(ids, repeats);
    if i == 1 || i == 3 || i == 4 || i == 6 || i == 7 {
      UnevenEdge(ids, repeats, if i == 1 then 0 else i - 2);
      ApprovalValid(def, cel, UnevenNode(ids, repeats, i));
    } else if i == 2 {
      UnevenSplitValid(ids, repeats);
    } else if i == 5 {
      UnevenEdge(ids, repeats, 3);
      UnevenIncoming(ids, repeats);
    }
  }

  lemma UnevenAccepted(ids: seq<NodeId>, repeats: bool, cel: Cel)
    requires UnevenIds(ids)
    ensures ValidDefinition(Uneven(ids, repeats), cel)
  {
    var kinds, arcs := UnevenKinds(ids, repeats), UnevenArcs(repeats);
    forall i | 0 <= i < 9 ensures NodeValid(Sample(ids, kinds, arcs), cel, NodeAt(ids, kinds, i)) {
      UnevenNodeValid(ids, repeats, cel, i);
    }
    Accepted(ids, kinds, arcs, cel);
  }

  // ------------------------------------------------------------------ the decisions

  /** The branch nodes in the order in which the split names them. */
  function UnevenCast(ids: seq<NodeId>, repeats: bool): seq<Node>
    requires UnevenIds(ids)
  {
    var x, y := UnevenNode(ids, repeats, 3), UnevenNode(ids, repeats, 4);
    if repeats then [x, x, y] else [x, y]
  }

  lemma UnevenCanBranch(ids: seq<NodeId>, repeats: bool)
    requires UnevenIds(ids)
    ensures CanBranch(Uneven(ids, repeats), UnevenBranches(ids, repeats), UnevenCast(ids, repeats))
  {
    UnevenFound(ids, repeats, 3);
    UnevenFound(ids, repeats, 4);
  }

  lemma UnevenEnters(ids: seq<NodeId>, repeats: bool, cel: Cel)
    requires UnevenIds(ids)
    ensures DecideAdvance(Uneven(ids, repeats), cel, map[], ids[1], APPROVED)
            == (AdvanceMulti(TargetsOf(UnevenCast(ids, repeats))), EMPTY_TRACE)
  {
    var def := Uneven(ids, repeats);
    UnevenEdge(ids, repeats, 0);
    UnevenFound(ids, repeats, 2);
    UnevenCanBranch(ids, repeats);
    LandsAt(def, cel, map[], Transition(ids[1], ids[2], APPROVED), UnevenNode(ids, repeats, 2));
    SplitsInto(def, cel, map[], UnevenNode(ids, repeats, 2), UnevenCast(ids, repeats));
  }

  lemma UnevenPasses(ids: seq<NodeId>, repeats: bool, cel: Cel)
    requires UnevenIds(ids)
    ensures PassesOn(Uneven(ids, repeats), cel, ids[5])
  {
    var def := Uneven(ids, repeats);
    UnevenEdge(ids, repeats, 3);
    UnevenFound(ids, repeats, 6);
    forall ctx ensures GoesToWork(def, DecideAdvance(def, cel, ctx, ids[5], APPROVED).0) {
      LandsAt(def, cel, ctx, Transition(ids[5], ids[6], APPROVED), UnevenNode(ids, repeats, 6));
    }
  }

  // ------------------------------------------------------------------ the region

  function UnevenGate(ids: seq<NodeId>, repeats: bool): Gate
    requires UnevenIds(ids)
  {
    SplitGate(Uneven(ids, repeats), UnevenBranches(ids, repeats), UnevenNode(ids, repeats, 5), 1, false)
  }

  /** What lies past the join: the approval there and the end. */
  function Past(ids: seq<NodeId>): iset<NodeId>
    requires UnevenIds(ids)
  {
    iset{ids[6], ids[8]}
  }

  lemma UnevenLeads(ids: seq<NodeId>, repeats: bool, i: nat, b: NodeId)
    requires UnevenIds(ids) && 3 <= i < 9 && LeadsTo(Uneven(ids, repeats), ids[i], b)
    ensures b == ids[if i <= 4 then 5 else if i == 5 then 6 else if i == 6 then 8 else if repeats then 8 else 5]
    ensures i != 8
  {
    var k := UnevenLeadsByArc(ids, repeats, i, b);
  }

  lemma UnevenNames(ids: seq<NodeId>, repeats: bool, i: nat, b: NodeId)
    requires UnevenIds(ids) && 3 <= i < 9
    ensures !Names(UnevenNode(ids, repeats, i), b)
  {
  }

  /** Past the split every way on is an arc. */
  lemma UnevenLeadsByArc(ids: seq<NodeId>, repeats: bool, i: nat, b: NodeId) returns (k: nat)
    requires UnevenIds(ids) && 3 <= i < 9 && LeadsTo(Uneven(ids, repeats), ids[i], b)
    ensures k < 6 && UnevenArcs(repeats)[k].from == i && b == ids[UnevenArcs(repeats)[k].to]
  {
    UnevenFound(ids, repeats, i);
    UnevenNames(ids, repeats, i, b);
    var ts, arcs := Uneven(ids, repeats).transitions, UnevenArcs(repeats);
    k :| 0 <= k < |ts| && IsEdge(ts[k], ids[i], b);
    assert ts[k] == EdgeAt(ids, arcs, k);
  }

  lemma UnevenPastLeads(ids: seq<NodeId>, repeats: bool, a: NodeId, b: NodeId)
    requires UnevenIds(ids) && a in {ids[5], ids[6], ids[8]} && LeadsTo(Uneven(ids, repeats), a, b)
    ensures b in Past(ids)
  {
    UnevenLeads(ids, repeats, if a == ids[5] then 5 else if a == ids[6] then 6 else 8, b);
  }

  lemma UnevenBranchLeads(ids: seq<NodeId>, repeats: bool, a: NodeId, b: NodeId)
    requires UnevenIds(ids) && a in UnevenSources(ids, repeats) && LeadsTo(Uneven(ids, repeats), a, b)
    ensures b == ids[5]
  {
    UnevenLeads(ids, repeats, if a == ids[3] then 3 else if a == ids[4] then 4 else 7, b);
  }

  lemma UnevenNoDeadline(ids: seq<NodeId>, repeats: bool, a: NodeId)
    requires UnevenIds(ids) && a in UnevenSources(ids, repeats)
    ensures !TimesOutTo(Uneven(ids, repeats), a, ids[5])
  {
    var i: nat := if a == ids[3] then 3 else if a == ids[4] then 4 else 7;
    UnevenFound(ids, repeats, i);
    assert UnevenNode(ids, repeats, i).config == Approves();
  }

  /** Nothing leads back into the region: only the approval past the join and the end lie behind it. */
  lemma UnevenSetApart(ids: seq<NodeId>, repeats: bool)
    requires UnevenIds(ids)
    ensures SetApart(Uneven(ids, repeats), UnevenGate(ids, repeats), Past(ids))
  {
    var def, g := Uneven(ids, repeats), UnevenGate(ids, repeats);
    UnevenIncoming(ids, repeats);
    UnevenFound(ids, repeats, 5);
    forall a, b | a in {ids[5], ids[6], ids[8]} && LeadsTo(def, a, b) ensures b in Past(ids) {
      UnevenPastLeads(ids, repeats, a, b);
    }
    forall a, b | a in g.branches && LeadsTo(def, a, b) ensures b == ids[5] {
      UnevenBranchLeads(ids, repeats, a, b);
    }
    forall a | a in g.branches ensures !TimesOutTo(def, a, ids[5]) {
      UnevenNoDeadline(ids, repeats, a);
    }
  }

  // ------------------------------------------------------------------ the split entered

  function SplitScene(ids: seq<NodeId>, repeats: bool): Scene
    requires UnevenIds(ids)
  {
    Scene(WorkflowStatus.Active, [Mark(ids[1], 1, Done)] + LiveAll(UnevenCast(ids, repeats), 1), [], [])
  }

  lemma SplitReached(env: Env, ids: seq<NodeId>, repeats: bool, fuel: nat) returns (steps: seq<Step>)
    requires UnevenIds(ids)
    ensures Reached(env, Bare(Uneven(ids, repeats)), steps, fuel, SplitScene(ids, repeats))
  {
    var def, entry := Uneven(ids, repeats), UnevenNode(ids, repeats, 1);
    UnevenAccepted(ids, repeats, env.cel);
    UnevenFound(ids, repeats, 1);
    FirstApproval(def.nodes, 1);
    Begins(env, def, entry, fuel);
    var s := Scene(WorkflowStatus.Active, [Mark(ids[1], 1, Live)], [], []);
    var d1, cmd := Reviews(env, RunAll(env, Began(env, Bare(def)), [], fuel), def, s, 0, APPROVED, entry);
    SplitMoves(env, ids, repeats, d1, fuel);
    ReachedMore(env, Bare(def), [], fuel, s, SignalStep(cmd), SplitScene(ids, repeats));
    steps := [] + [SignalStep(cmd)];
  }

  lemma UnevenCastSchedules(ids: seq<NodeId>, repeats: bool)
    requires UnevenIds(ids)
    ensures AllSchedule(Uneven(ids, repeats), UnevenCast(ids, repeats))
  {
    UnevenFound(ids, repeats, 3);
    UnevenFound(ids, repeats, 4);
  }

  lemma SplitMoves(env: Env, ids: seq<NodeId>, repeats: bool, d: Db, fuel: nat)
    requires UnevenIds(ids)
    requires Looks(d, Uneven(ids, repeats), Scene(WorkflowStatus.Active, [Mark(ids[1], 1, Done)], [], []))
    ensures LooksAfter(MoveOn(env, d, 0, APPROVED, fuel), Uneven(ids, repeats), SplitScene(ids, repeats))
  {
    UnevenEnters(ids, repeats, env.cel);
    UnevenCastSchedules(ids, repeats);
    MovesInto(env, d, Uneven(ids, repeats), Scene(WorkflowStatus.Active, [Mark(ids[1], 1, Done)], [], []), 0, APPROVED,
              UnevenCast(ids, repeats), fuel);
  }

  lemma {:induction false} NoneFired(log: seq<Event>, g: Gate)
    requires JoinsPassed(log) == []
    ensures Firings(log, g) == 0
  {
    if log != [] {
      assert JoinsPassed(log[..|log| - 1]) == [];
      assert Passing(log[|log| - 1].fact) == [];
      NoneFired(log[..|log| - 1], g);
    }
  }

  lemma UnevenGateOk(ids: seq<NodeId>, repeats: bool, cel: Cel)
    requires UnevenIds(ids)
    ensures var g := UnevenGate(ids, repeats);
            && GateOk(Uneven(ids, repeats), g) && g.join.id == ids[5] && StrategyOf(g.join).WaitAll?
            && g.branches == UnevenSources(ids, repeats) && g.expected == |g.branches|
            && g.size == |UnevenCast(ids, repeats)|
  {
    UnevenIncoming(ids, repeats);
    UnevenAccepted(ids, repeats, cel);
    UnevenFound(ids, repeats, 5);
    JoinNeeds(Uneven(ids, repeats), cel, UnevenNode(ids, repeats, 5), UnevenGate(ids, repeats));
  }

  /** The first activity is outside the region and has ended, the others are its branches under way. */
  predicate Forked(def: Definition, marks: seq<Mark>, g: Gate) {
    && |marks| > 0 && marks[0].phase.Done? && marks[0].round == g.round && marks[0].node !in g.branches
    && forall i :: 1 <= i < |marks| ==> IsFork(def, marks[i], g)
  }

  predicate IsFork(def: Definition, mark: Mark, g: Gate) {
    mark.phase.Live? && mark.round == g.round && mark.node in g.branches && BranchInto(def, mark.node, g.join.id)
  }

  lemma ForkedRegion(def: Definition, acts: seq<Activity>, marks: seq<Mark>, g: Gate, away: iset<NodeId>)
    requires AllShow(acts, marks) && Forked(def, marks, g)
    ensures AllInto(def, acts, g) && NoneLost(acts, g) && Begun(acts, g) && Fenced(acts, g, away)
    ensures CountRegion(acts, g) == |marks| - 1 && Count(acts, g) == 0
  {
    assert Shows(acts[0], marks[0]);
    forall i | 1 <= i < |acts|
      ensures InRegion(acts[i], g) && acts[i].status.Active? && BranchInto(def, acts[i].node, g.join.id)
    {
      assert Shows(acts[i], marks[i]) && IsFork(def, marks[i], g);
    }
    CountFresh(acts, g, 1);
  }

  lemma SceneForks(ids: seq<NodeId>, repeats: bool, g: Gate)
    requires UnevenIds(ids) && g.round == 1 && g.branches == UnevenSources(ids, repeats) && g.join.id == ids[5]
    ensures Forked(Uneven(ids, repeats), SplitScene(ids, repeats).marks, g)
  {
    var marks := SplitScene(ids, repeats).marks;
    forall i | 1 <= i < |marks| ensures IsFork(Uneven(ids, repeats), marks[i], g) {
      assert marks[i] == Mark(UnevenCast(ids, repeats)[i - 1].id, 1, Live);
      MarkForks(ids, repeats, UnevenCast(ids, repeats)[i - 1].id, g);
    }
  }

  lemma MarkForks(ids: seq<NodeId>, repeats: bool, branch: NodeId, g: Gate)
    requires UnevenIds(ids) && g.round == 1 && g.branches == UnevenSources(ids, repeats) && g.join.id == ids[5]
    requires branch == ids[3] || branch == ids[4]
    ensures IsFork(Uneven(ids, repeats), Mark(branch, 1, Live), g)
  {
    UnevenBranch(ids, repeats, if branch == ids[3] then 3 else 4);
  }

  lemma SceneOpens(ids: seq<NodeId>, repeats: bool, d: Db, cel: Cel)
    requires UnevenIds(ids) && Looks(d, Uneven(ids, repeats), SplitScene(ids, repeats))
    ensures var g := UnevenGate(ids, repeats);
            Open(d, g) && Fenced(d.activities, g, Past(ids)) && Begun(d.activities, g) && Firings(d.log, g) == 0
  {
    var g := UnevenGate(ids, repeats);
    UnevenGateOk(ids, repeats, cel);
    SceneForks(ids, repeats, g);
    ForkedRegion(Uneven(ids, repeats), d.activities, SplitScene(ids, repeats).marks, g, Past(ids));
    NoFanNoCount(d.log, ids[5], 1);
    NoneFired(d.log, g);
  }

  lemma UnevenReady(env: Env, ids: seq<NodeId>, repeats: bool, fuel: nat) returns (steps: seq<Step>)
    requires UnevenIds(ids) && fuel > 0
    ensures StartInstance(env, Bare(Uneven(ids, repeats))).Ok?
    ensures var d := RunAll(env, Began(env, Bare(Uneven(ids, repeats))), steps, fuel);
            Ready(env, d, fuel, UnevenGate(ids, repeats), Past(ids)) && Firings(d.log, UnevenGate(ids, repeats)) == 0
  {
    steps := SplitReached(env, ids, repeats, fuel);
    var cmd := Bare(Uneven(ids, repeats));
    StartGood(env, cmd);
    RunGood(env, Began(env, cmd), steps, fuel);
    SceneOpens(ids, repeats, RunAll(env, Began(env, cmd), steps, fuel), env.cel);
    UnevenSetApart(ids, repeats);
    UnevenPasses(ids, repeats, env.cel);
    SeparateByGraph(Uneven(ids, repeats), env.cel, UnevenGate(ids, repeats), Past(ids));
  }

  /** The join has been satisfied at least so often by the end of the run. */
  predicate FiredBy(env: Env, d: Db, steps: seq<Step>, fuel: nat, g: Gate, least: nat) {
    Firings(RunAll(env, d, steps, fuel).log, g) >= least
  }

  lemma TwiceFromStart(env: Env, d0: Db, first: seq<Step>, fuel: nat, g: Gate, away: iset<NodeId>)
    returns (steps: seq<Step>)
    requires Ready(env, RunAll(env, d0, first, fuel), fuel, g, away) && !Even(g)
    ensures FiredBy(env, d0, steps, fuel, g, 2)
  {
    var more := FiresTwice(env, RunAll(env, d0, first, fuel), fuel, g, away);
    RunThen(env, d0, first, more, fuel);
    steps := first + more;
  }

  /** Every branch has arrived, and the join is satisfied neither now nor later. */
  ghost predicate InVain(env: Env, d: Db, fuel: nat, g: Gate) {
    && Count(d.activities, g) == CountRegion(d.activities, g) == g.size
    && forall later :: Firings(RunAll(env, d, later, fuel).log, g) == 0
  }

  lemma InVainFromStart(env: Env, d0: Db, first: seq<Step>, fuel: nat, g: Gate, away: iset<NodeId>)
    returns (steps: seq<Step>)
    requires Ready(env, RunAll(env, d0, first, fuel), fuel, g, away) && StrategyOf(g.join).WaitAll?
    requires g.size < g.expected
    requires Firings(RunAll(env, d0, first, fuel).log, g) == 0
    ensures InVain(env, RunAll(env, d0, steps, fuel), fuel, g)
  {
    var more := AllComeInVain(env, RunAll(env, d0, first, fuel), fuel, g, away);
    RunThen(env, d0, first, more, fuel);
    steps := first + more;
  }

  // ------------------------------------------------------------------ what comes of it

  /** A split that names a branch twice: the definition is accepted, nothing leads back into the region, and in some
      run the join is satisfied twice in the round. */
  lemma RepeatedBranchFiresTwice(env: Env, ids: seq<NodeId>, fuel: nat) returns (steps: seq<Step>)
    requires UnevenIds(ids) && fuel > 0
    ensures var cmd, g := Bare(Uneven(ids, true)), UnevenGate(ids, true);
            && ValidDefinition(cmd.def, env.cel) && SetApart(cmd.def, g, Past(ids)) && StartInstance(env, cmd).Ok?
            && FiredBy(env, Began(env, cmd), steps, fuel, g, 2)
  {
    var first := UnevenReady(env, ids, true, fuel);
    UnevenAccepted(ids, true, env.cel);
    UnevenSetApart(ids, true);
    UnevenGateOk(ids, true, env.cel);
    steps := TwiceFromStart(env, Began(env, Bare(Uneven(ids, true))), first, fuel, UnevenGate(ids, true), Past(ids));
  }

  /** An edge into the join that no branch uses: the definition is accepted, nothing leads back into the region, and a
      run brings in both branches, but neither then nor later is the join satisfied. */
  lemma SpareEdgeNeverFires(env: Env, ids: seq<NodeId>, fuel: nat) returns (steps: seq<Step>)
    requires UnevenIds(ids) && fuel > 0
    ensures var cmd, g := Bare(Uneven(ids, false)), UnevenGate(ids, false);
            && ValidDefinition(cmd.def, env.cel) && SetApart(cmd.def, g, Past(ids)) && StartInstance(env, cmd).Ok?
            && g.size == 2 && InVain(env, RunAll(env, Began(env, cmd), steps, fuel), fuel, g)
  {
    var first := UnevenReady(env, ids, false, fuel);
    UnevenAccepted(ids, false, env.cel);
    UnevenSetApart(ids, false);
    UnevenGateOk(ids, false, env.cel);
    steps := InVainFromStart(env, Began(env, Bare(Uneven(ids, false))), first, fuel, UnevenGate(ids, false), Past(ids));
  }
}
