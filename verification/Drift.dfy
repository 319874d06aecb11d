/** The drift check: comparing the replayed projection with the live rows, and exactly when it finds
    nothing to report. */
module Drift {
  import opened Core
  import opened Facts
  import opened Replay
  import opened Database
  import opened Engine
  import opened Preservation
  import opened Calls
  import opened Agreement
  import opened Rebuilding
  import opened Runs

  datatype Field = Status | Result | Round | AssigneeRole | AssigneeId | ReviewNotes | ReviewedBy

  datatype Difference =
    | InstanceStatus
    | InstanceCurrent
    | InstanceResult
    | OnlyReplayed(id: nat)
    | FieldDiffers(id: nat, field: Field)
    | OnlyLive(id: nat)

  /** Row the check pairs an id with: the last one listed. */
  function LiveRow(live: seq<Activity>, id: nat): Option<Activity> {
    if live == [] then None
    else if live[|live| - 1].id == id then Some(live[|live| - 1])
    else LiveRow(live[..|live| - 1], id)
  }

  function FieldDifferences(ra: Activity, la: Activity): seq<Difference> {
    (if ra.status != la.status then [FieldDiffers(ra.id, Status)] else [])
    + (if ra.result != la.result then [FieldDiffers(ra.id, Field.Result)] else [])
    + (if ra.round != la.round then [FieldDiffers(ra.id, Round)] else [])
    + (if ra.role != la.role then [FieldDiffers(ra.id, AssigneeRole)] else [])
    + (if ra.assignee != la.assignee then [FieldDiffers(ra.id, AssigneeId)] else [])
    + (if ra.notes != la.notes then [FieldDiffers(ra.id, ReviewNotes)] else [])
    + (if ra.reviewer != la.reviewer then [FieldDiffers(ra.id, ReviewedBy)] else [])
  }

  /** Agreement on every field the check compares. */
  predicate SameFields(ra: Activity, la: Activity) {
    && ra.status == la.status && ra.result == la.result && ra.round == la.round && ra.role == la.role
    && ra.assignee == la.assignee && ra.notes == la.notes && ra.reviewer == la.reviewer
  }

  predicate RecordMatches(record: Activity, live: seq<Activity>) {
    var row := LiveRow(live, record.id);
    row.Some? && SameFields(record, row.value)
  }

  predicate Matches(p: Projection, status: WorkflowStatus, current: Option<nat>, result: Option<WorkflowResult>,
                    live: seq<Activity>)
  {
    && p.instance == ReplayedInstance(status, current, result)
    && (forall k :: 0 <= k < |p.activities| ==> RecordMatches(p.activities[k], live))
    && (forall i :: 0 <= i < |live| ==> HasId(p.activities, live[i].id))
  }

  predicate Differs(field: Field, ra: Activity, la: Activity) {
    match field
    case Status => ra.status != la.status
    case Result => ra.result != la.result
    case Round => ra.round != la.round
    case AssigneeRole => ra.role != la.role
    case AssigneeId => ra.assignee != la.assignee
    case ReviewNotes => ra.notes != la.notes
    case ReviewedBy => ra.reviewer != la.reviewer
  }

  predicate InstanceReports(x: Difference, p: Projection, status: WorkflowStatus, current: Option<nat>,
                            result: Option<WorkflowResult>)
  {
    || (x.InstanceStatus? && p.instance.status != status)
    || (x.InstanceCurrent? && p.instance.current != current)
    || (x.InstanceResult? && p.instance.result != result)
  }

  /** The differences one replayed record accounts for. */
  predicate RecordReports(x: Difference, record: Activity, live: seq<Activity>) {
    var row := LiveRow(live, record.id);
    if row.None? then x == OnlyReplayed(record.id)
    else x.FieldDiffers? && x.id == record.id && Differs(x.field, record, row.value)
  }

  predicate RowReports(x: Difference, row: Activity, records: seq<Activity>) {
    x == OnlyLive(row.id) && !HasId(records, row.id)
  }

  lemma FieldDifferencesExact(ra: Activity, la: Activity, x: Difference)
    ensures x in FieldDifferences(ra, la) <==> x.FieldDiffers? && x.id == ra.id && Differs(x.field, ra, la)
  {
  }

  /** The check as it runs: it reports exactly the instance fields, record fields and ids that differ. */
  method DiffProjection(p: Projection, status: WorkflowStatus, current: Option<nat>, result: Option<WorkflowResult>,
                        live: seq<Activity>)
    returns (diffs: seq<Difference>)
    ensures forall x :: x in diffs <==>
              || InstanceReports(x, p, status, current, result)
              || (exists k :: 0 <= k < |p.activities| && RecordReports(x, p.activities[k], live))
              || (exists i :: 0 <= i < |live| && RowReports(x, live[i], p.activities))
  {
    diffs := [];
    if p.instance.status != status {
      diffs := diffs + [InstanceStatus];
    }
    if p.instance.current != current {
      diffs := diffs + [InstanceCurrent];
    }
    if p.instance.result != result {
      diffs := diffs + [InstanceResult];
    }
    for k := 0 to |p.activities|
      invariant forall x :: x in diffs <==>
                  || InstanceReports(x, p, status, current, result)
                  || exists j :: 0 <= j < k && RecordReports(x, p.activities[j], live)
    {
      var row := LiveRow(live, p.activities[k].id);
      var more := if row.None? then [OnlyReplayed(p.activities[k].id)]
          else FieldDifferences(p.activities[k], row.value);
      forall x ensures x in more <==> RecordReports(x, p.activities[k], live) {
        if row.Some? {
          FieldDifferencesExact(p.activities[k], row.value, x);
        }
      }
      diffs := diffs + more;
    }
    for i := 0 to |live|
      invariant forall x :: x in diffs <==>
                  || InstanceReports(x, p, status, current, result)
                  || (exists j :: 0 <= j < |p.activities| && RecordReports(x, p.activities[j], live))
                  || exists j :: 0 <= j < i && RowReports(x, live[j], p.activities)
    {
      if !HasId(p.activities, live[i].id) {
        diffs := diffs + [OnlyLive(live[i].id)];
      }
    }
  }

  lemma SameFieldsDifferNowhere(ra: Activity, la: Activity)
    ensures SameFields(ra, la) <==> forall f :: !Differs(f, ra, la)
  {
    if !SameFields(ra, la) {
      assert || Differs(Status, ra, la) || Differs(Field.Result, ra, la) || Differs(Round, ra, la)
             || Differs(AssigneeRole, ra, la) || Differs(AssigneeId, ra, la) || Differs(ReviewNotes, ra, la)
             || Differs(ReviewedBy, ra, la);
    }
  }

  lemma RecordMatchesReportsNothing(record: Activity, live: seq<Activity>)
    ensures RecordMatches(record, live) <==> forall x :: !RecordReports(x, record, live)
  {
    var row := LiveRow(live, record.id);
    if row.None? {
      assert RecordReports(OnlyReplayed(record.id), record, live);
    } else {
      SameFieldsDifferNowhere(record, row.value);
      if !SameFields(record, row.value) {
        var f :| Differs(f, record, row.value);
        assert RecordReports(FieldDiffers(record.id, f), record, live);
      }
    }
  }

  /** `verify_projection`: replay the log and compare; consistent exactly when the projections match. */
  method VerifyProjection(d: Db) returns (consistent: bool, differences: seq<Difference>)
    ensures consistent <==> Consistent(d)
    ensures consistent <==> differences == []
  {
    var p := FoldEvents(d.def, d.log);
    differences := DiffProjection(p, d.status, d.current, d.result, d.activities);
    consistent := differences == [];
    forall k | 0 <= k < |p.activities|
      ensures RecordMatches(p.activities[k], d.activities) <==>
              forall x :: !RecordReports(x, p.activities[k], d.activities)
    {
      RecordMatchesReportsNothing(p.activities[k], d.activities);
    }
    if consistent {
      forall k, x | 0 <= k < |p.activities| ensures !RecordReports(x, p.activities[k], d.activities) {
        assert x !in differences;
      }
      assert !InstanceReports(InstanceStatus, p, d.status, d.current, d.result);
      assert !InstanceReports(InstanceCurrent, p, d.status, d.current, d.result);
      assert !InstanceReports(InstanceResult, p, d.status, d.current, d.result);
      forall i | 0 <= i < |d.activities| ensures HasId(p.activities, d.activities[i].id) {
        assert OnlyLive(d.activities[i].id) !in differences;
        assert !RowReports(OnlyLive(d.activities[i].id), d.activities[i], p.activities);
      }
    } else {
      assert differences[0] in differences;
    }
  }

  function Replayed(d: Db): Projection {
    Projection(FoldInstance(d.log), FoldActivities(d.def, d.log))
  }

  /** Whether the drift check finds an instance consistent. */
  predicate Consistent(d: Db) {
    Matches(Replayed(d), d.status, d.current, d.result, d.activities)
  }

  lemma {:induction false} LiveRowDense(live: seq<Activity>, id: nat)
    requires Dense(live)
    ensures LiveRow(live, id) == if id < |live| then Some(live[id]) else None
  {
    if live != [] {
      LiveRowDense(live[..|live| - 1], id);
    }
  }

  /** Every record is a first record or a surplus one. */
  lemma RecordIsPrimaryOrSurplus(acts: seq<Activity>, a: Activity)
    ensures a in acts <==> a in Primary(acts) || a in Surplus(acts)
  {
    PrimaryAndSurplusPartition(acts);
    assert a in acts <==> a in multiset(acts);
    assert a in Primary(acts) <==> a in multiset(Primary(acts));
    assert a in Surplus(acts) <==> a in multiset(Surplus(acts));
  }

  predicate SurplusMatches(surplus: seq<Activity>, live: seq<Activity>) {
    forall i :: 0 <= i < |surplus| ==> surplus[i].id < |live| && SameFields(surplus[i], live[surplus[i].id])
  }

  /** A record that is a row matches; any other matches if its row has its fields. */
  lemma RecordMatchesRow(a: Activity, live: seq<Activity>)
    requires Dense(live)
    ensures a in live ==> RecordMatches(a, live)
    ensures RecordMatches(a, live) <==> a.id < |live| && SameFields(a, live[a.id])
  {
    LiveRowDense(live, a.id);
  }

  lemma RecordsMatch(acts: seq<Activity>, live: seq<Activity>)
    requires Primary(acts) == live && Dense(live)
    ensures (forall k :: 0 <= k < |acts| ==> RecordMatches(acts[k], live)) <==> SurplusMatches(Surplus(acts), live)
  {
    var surplus := Surplus(acts);
    if SurplusMatches(surplus, live) {
      forall k | 0 <= k < |acts| ensures RecordMatches(acts[k], live) {
        RecordIsPrimaryOrSurplus(acts, acts[k]);
        RecordMatchesRow(acts[k], live);
        if acts[k] !in live {
          var i :| 0 <= i < |surplus| && surplus[i] == acts[k];
        }
      }
    }
    if forall k :: 0 <= k < |acts| ==> RecordMatches(acts[k], live) {
      forall i | 0 <= i < |surplus| ensures surplus[i].id < |live| && SameFields(surplus[i], live[surplus[i].id]) {
        RecordIsPrimaryOrSurplus(acts, surplus[i]);
        RecordMatchesRow(surplus[i], live);
      }
    }
  }

  // ------------------------------------------------------------------ exactly when there is no drift

  /** The activity handed back at `p` looks as it did when it was scheduled, skipped along with the others if the
      log says so. */
  predicate LooksHandedBack(d: Db, p: nat)
    requires HandsBackAt(d.log, p)
  {
    var fact := d.log[p].fact;
    && fact.activity < |d.activities|
    && var row := d.activities[fact.activity];
       && row.assignee.None? && row.role == fact.role && !row.status.Completed?
       && (row.status.Skipped? <==> SkippedAfter(d.log, p))
  }

  lemma ExtraMatches(d: Db, p: nat)
    requires Told(d) && HandsBackAt(d.log, p)
    ensures var extra := ExtraAt(d.def, d.log, p);
            extra.id < |d.activities| && (SameFields(extra, d.activities[extra.id]) <==> LooksHandedBack(d, p))
  {
    assert Sensible(d.def, d.activities, d.log[p].fact);
  }

  predicate AllLookHandedBack(d: Db) {
    forall p: nat :: p < |d.log| && HandsBackAt(d.log, p) ==> LooksHandedBack(d, p)
  }

  lemma SurplusLooks(d: Db)
    requires Told(d)
    ensures SurplusMatches(Extras(d.def, d.log), d.activities) <==> AllLookHandedBack(d)
  {
    var extras := Extras(d.def, d.log);
    ExtrasAreHandBacks(d.def, d.log);
    forall p: nat | p < |d.log| && HandsBackAt(d.log, p)
      ensures SurplusMatches(extras, d.activities) ==> LooksHandedBack(d, p)
    {
      ExtraMatches(d, p);
      var i :| 0 <= i < |extras| && extras[i] == ExtraAt(d.def, d.log, p);
    }
    forall i | 0 <= i < |extras|
      ensures AllLookHandedBack(d) ==>
                extras[i].id < |d.activities| && SameFields(extras[i], d.activities[extras[i].id])
    {
      assert IsExtra(d.def, d.log, extras[i]);
      var p: nat :| p < |d.log| && HandsBackAt(d.log, p) && extras[i] == ExtraAt(d.def, d.log, p);
      ExtraMatches(d, p);
    }
  }

  lemma ConsistentExactly(d: Db)
    requires Told(d)
    ensures Consistent(d) <==>
            && FoldInstance(d.log).status == d.status
            && FoldInstance(d.log).current == d.current
            && AllLookHandedBack(d)
  {
    var records := FoldActivities(d.def, d.log);
    RecordsMatch(records, d.activities);
    SurplusLooks(d);
    forall i | 0 <= i < |d.activities| ensures HasId(records, d.activities[i].id) {
      PrimaryHasIds(records, i);
    }
  }

  /** Exactly when the drift check finds nothing, in every run: nothing has stirred the instance since it was handed
      back, if it still waits for rework; since the last fact about the current activity no join has gone on waiting,
      and that fact did not schedule it while the instance was waiting; and every activity handed back for rework has
      no assignee, the role it was handed back with, is not completed, and is skipped if and only if the log skipped
      every active activity after its hand-back. */
  lemma DriftExactly(env: Env, cmd: StartCommand, steps: seq<Step>, fuel: nat)
    requires StartInstance(env, cmd).Ok?
    ensures var d := RunAll(env, Began(env, cmd), steps, fuel);
            Consistent(d) <==>
              && !(Waiting(d.log) && Stirred(d.log))
              && !ClearedByJoin(d.log) && !MovedOnPaper(d.log)
              && AllLookHandedBack(d)
  {
    RunTold(env, cmd, steps, fuel);
    var d := RunAll(env, Began(env, cmd), steps, fuel);
    ConsistentExactly(d);
    StatusExactly(d);
    CurrentExactly(d);
  }

  lemma {:induction false} NoHandBackAt(log: seq<Event>, p: nat)
    requires ReworkIds(log) == []
    ensures !HandsBackAt(log, p)
  {
    if p < |log| - 1 {
      NoHandBackAt(log[..|log| - 1], p);
    }
  }

  /** Without hand-backs and joins the check never finds drift. */
  lemma NoDriftWithoutReworkOrJoin(env: Env, cmd: StartCommand, steps: seq<Step>, fuel: nat)
    requires StartInstance(env, cmd).Ok? && !HasJoin(cmd.def)
    requires ReworkIds(RunAll(env, Began(env, cmd), steps, fuel).log) == []
    ensures Consistent(RunAll(env, Began(env, cmd), steps, fuel))
  {
    var d := RunAll(env, Began(env, cmd), steps, fuel);
    DriftExactly(env, cmd, steps, fuel);
    RunTold(env, cmd, steps, fuel);
    StartGood(env, cmd);
    RunGood(env, Began(env, cmd), steps, fuel);
    NoHandBackNoWaiting(d.log);
    ClearedHasJoin(d.def, d.activities, d.log);
    forall p: nat | p < |d.log| ensures !HandsBackAt(d.log, p) {
      NoHandBackAt(d.log, p);
    }
  }

  /** The activity handed back at `p` has been completed. */
  predicate CompletedRework(d: Db, p: nat) {
    && HandsBackAt(d.log, p) && d.log[p].fact.activity < |d.activities|
    && d.activities[d.log[p].fact.activity].status.Completed?
  }

  lemma CompletedReworkShows(d: Db, p: nat)
    requires Told(d) && CompletedRework(d, p)
    ensures !Consistent(d)
  {
    ConsistentExactly(d);
  }

  lemma CompletedReworkStays(env: Env, d: Db, steps: seq<Step>, fuel: nat, p: nat)
    requires Good(env, d) && Told(d) && CompletedRework(d, p)
    ensures var d' := RunAll(env, d, steps, fuel);
            Told(d') && CompletedRework(d', p)
  {
    RunGood(env, d, steps, fuel);
    RunTells(env, d, steps, fuel, false);
    assert RunAll(env, d, steps, fuel).log[p] == d.log[p];
  }

  /** Once an activity that was handed back for rework is completed, the check reports drift, in this and every
      later state of any run. */
  lemma CompletedReworkDrifts(env: Env, cmd: StartCommand, steps: seq<Step>, later: seq<Step>, fuel: nat, p: nat)
    requires StartInstance(env, cmd).Ok? && CompletedRework(RunAll(env, Began(env, cmd), steps, fuel), p)
    ensures var d := RunAll(env, Began(env, cmd), steps, fuel);
            !Consistent(d) && !Consistent(RunAll(env, d, later, fuel))
  {
    StartGood(env, cmd);
    StartTells(env, cmd);
    RunGood(env, Began(env, cmd), steps, fuel);
    RunTells(env, Began(env, cmd), steps, fuel, false);
    var d := RunAll(env, Began(env, cmd), steps, fuel);
    CompletedReworkShows(d, p);
    CompletedReworkStays(env, d, later, fuel, p);
    CompletedReworkShows(RunAll(env, d, later, fuel), p);
  }
}
