/** What it means that the rows of an instance can be rebuilt from its log: which records the reducer leaves
    besides the rows, and which activity the row of the instance points to. */
module Agreement {
  import opened Core
  import opened Facts
  import opened Replay
  import opened Database
  import opened Invariants

  // ------------------------------------------------------------------ the surplus records

  /** The second records that hand-backs leave behind: each as it was pushed, except that a later "skip every
      active activity" skips it too. */
  function Extras(def: Definition, log: seq<Event>): seq<Activity> {
    if log == [] then []
    else Left(def, Extras(def, log[..|log| - 1]), log[|log| - 1].fact)
  }

  function Left(def: Definition, extras: seq<Activity>, fact: Fact): seq<Activity> {
    if fact.ReturnedToRework? then extras + [Fresh(def, fact.activity, fact.reworkTarget, fact.role, fact.round)]
    else if fact == ActivitySkipped(None) then SkipActive(extras)
    else extras
  }

  /** The hand-back logged at `p` was followed by a fact that skips every active activity. */
  predicate SkippedAfter(log: seq<Event>, p: nat) {
    exists q: nat :: p < q < |log| && log[q].fact == ActivitySkipped(None)
  }

  predicate HandsBackAt(log: seq<Event>, p: nat) {
    p < |log| && log[p].fact.ReturnedToRework?
  }

  /** The record the hand-back logged at `p` leaves. */
  function ExtraAt(def: Definition, log: seq<Event>, p: nat): Activity
    requires HandsBackAt(log, p)
  {
    var fact := log[p].fact;
    var pushed := Fresh(def, fact.activity, fact.reworkTarget, fact.role, fact.round);
    if SkippedAfter(log, p) then pushed.(status := ActivityStatus.Skipped) else pushed
  }

  lemma ExtraAtInit(def: Definition, log: seq<Event>, p: nat)
    requires |log| > 0 && HandsBackAt(log[..|log| - 1], p)
    ensures HandsBackAt(log, p)
    ensures ExtraAt(def, log, p)
         == if log[|log| - 1].fact == ActivitySkipped(None) then Skip(ExtraAt(def, log[..|log| - 1], p))
            else ExtraAt(def, log[..|log| - 1], p)
  {
    var init := log[..|log| - 1];
    if SkippedAfter(init, p) {
      var q :| p < q < |init| && init[q].fact == ActivitySkipped(None);
      assert log[q].fact == ActivitySkipped(None);
    }
    if SkippedAfter(log, p) && log[|log| - 1].fact != ActivitySkipped(None) {
      var q :| p < q < |log| && log[q].fact == ActivitySkipped(None);
      assert init[q].fact == ActivitySkipped(None);
    }
  }

  predicate IsExtra(def: Definition, log: seq<Event>, a: Activity) {
    exists p: nat :: p < |log| && HandsBackAt(log, p) && a == ExtraAt(def, log, p)
  }

  /** The surplus records are exactly those the hand-backs leave, one per hand-back. */
  lemma {:induction false} ExtrasAreHandBacks(def: Definition, log: seq<Event>)
    ensures forall p: nat :: HandsBackAt(log, p) ==> ExtraAt(def, log, p) in Extras(def, log)
    ensures forall a :: a in Extras(def, log) ==> IsExtra(def, log, a)
    ensures IdsOf(Extras(def, log)) == ReworkIds(log)
  {
    if log != [] {
      var init, last := log[..|log| - 1], log[|log| - 1].fact;
      ExtrasAreHandBacks(def, init);
      forall p: nat | HandsBackAt(log, p) ensures ExtraAt(def, log, p) in Extras(def, log) {
        if p < |init| {
          assert HandsBackAt(init, p);
          ExtraAtInit(def, log, p);
          ExtraCarried(def, log, ExtraAt(def, init, p));
        } else {
          assert Extras(def, log)[|Extras(def, init)|] == ExtraAt(def, log, p);
        }
      }
      forall a | a in Extras(def, log) ensures IsExtra(def, log, a) {
        ExtraComesFrom(def, log, a);
      }
    }
  }

  lemma ExtraCarried(def: Definition, log: seq<Event>, a: Activity)
    requires log != [] && a in Extras(def, log[..|log| - 1])
    ensures (if log[|log| - 1].fact == ActivitySkipped(None) then Skip(a) else a) in Extras(def, log)
  {
    var before := Extras(def, log[..|log| - 1]);
    var i :| 0 <= i < |before| && before[i] == a;
    assert i < |Extras(def, log)|;
    assert Extras(def, log)[i] == if log[|log| - 1].fact == ActivitySkipped(None) then Skip(a) else a;
  }

  lemma ExtraComesFrom(def: Definition, log: seq<Event>, a: Activity)
    requires log != [] && a in Extras(def, log)
    requires var init := log[..|log| - 1]; forall b :: b in Extras(def, init) ==> IsExtra(def, init, b)
    ensures IsExtra(def, log, a)
  {
    var init, last := log[..|log| - 1], log[|log| - 1].fact;
    var before := Extras(def, init);
    var i :| 0 <= i < |Extras(def, log)| && Extras(def, log)[i] == a;
    if i < |before| {
      assert before[i] in before;
      var p: nat :| p < |init| && HandsBackAt(init, p) && before[i] == ExtraAt(def, init, p);
      ExtraAtInit(def, log, p);
      assert HandsBackAt(log, p) && a == ExtraAt(def, log, p);
    } else {
      assert HandsBackAt(log, |init|) && a == ExtraAt(def, log, |init|);
    }
  }

  // ------------------------------------------------------------------ the status

  /** The row waits for rework: the last fact that sets the status is a hand-back. */
  predicate Waiting(log: seq<Event>) {
    log != [] &&
    var fact := log[|log| - 1].fact;
    if SetsStatus(fact) then fact.ReturnedToRework? else Waiting(log[..|log| - 1])
  }

  /** Work was scheduled, or an error recorded, since the last fact that sets the status. */
  predicate Stirred(log: seq<Event>) {
    exists p: nat :: p < |log| && Stirs(log[p].fact) && forall k :: p < k < |log| ==> !SetsStatus(log[k].fact)
  }

  lemma StirredPush(log: seq<Event>, e: Event)
    ensures Stirred(log + [e]) <==> !SetsStatus(e.fact) && (Stirs(e.fact) || Stirred(log))
  {
    var log' := log + [e];
    if Stirred(log') {
      var p: nat :| p < |log'| && Stirs(log'[p].fact) && forall k :: p < k < |log'| ==> !SetsStatus(log'[k].fact);
      if p < |log| {
        assert !SetsStatus(log'[|log|].fact) && Stirs(log[p].fact);
        forall k | p < k < |log| ensures !SetsStatus(log[k].fact) {
          assert log'[k] == log[k];
        }
      }
    }
    if !SetsStatus(e.fact) && Stirs(e.fact) {
      assert Stirs(log'[|log|].fact);
    } else if !SetsStatus(e.fact) && Stirred(log) {
      var p: nat :| p < |log| && Stirs(log[p].fact) && forall k :: p < k < |log| ==> !SetsStatus(log[k].fact);
      assert Stirs(log'[p].fact);
    }
  }

  /** Replay sees an instance wait exactly as long as nothing stirs it. */
  lemma {:induction false} WaitingReplayed(log: seq<Event>)
    requires Waiting(log)
    ensures FoldInstance(log).status.ReturnedWaiting? <==> !Stirred(log)
  {
    var init, e := log[..|log| - 1], log[|log| - 1];
    assert log == init + [e];
    StirredPush(init, e);
    if !SetsStatus(e.fact) {
      WaitingReplayed(init);
    }
  }

  // ------------------------------------------------------------------ the current activity

  /** What a fact makes of the current activity when it is replayed. */
  function Pointed(current: Option<nat>, fact: Fact): Option<nat> {
    match fact
    case ActivityScheduled(id, _, _, _, via) => if via.Linear? then Some(id) else None
    case Completed(_) => None
    case ReturnedToRework(_, _, _, id, _) => Some(id)
    case SplitScheduled(_, _, _) => None
    case ForEachFannedOut(_, _, _, _) => None
    case _ => current
  }

  lemma PointedIsReplayed(instance: ReplayedInstance, fact: Fact)
    ensures ApplyToInstance(instance, fact).current == Pointed(instance.current, fact)
  {
  }

  /** Scheduled on the line while the row waits for rework: the row keeps the activity it has. */
  predicate OnPaper(log: seq<Event>, fact: Fact) {
    fact.ActivityScheduled? && fact.via.Linear? && Waiting(log)
  }

  /** The current activity of the row. A branch that reached a join still waiting has cleared it without a fact (a
      join that is satisfied says so right after the arrival), and scheduling leaves it alone while the row waits. */
  function RowCurrent(log: seq<Event>): Option<nat> {
    if log == [] then None
    else
      var init, fact := log[..|log| - 1], log[|log| - 1].fact;
      if fact.BranchReachedJoin? then None
      else if fact.JoinSatisfied? && EndsInArrival(init) then RowCurrent(init[..|init| - 1])
      else if OnPaper(init, fact) then RowCurrent(init)
      else Pointed(RowCurrent(init), fact)
  }

  predicate EndsInArrival(log: seq<Event>) {
    log != [] && log[|log| - 1].fact.BranchReachedJoin?
  }

  predicate Touches(fact: Fact) {
    fact.ActivityScheduled? || fact.Completed? || fact.ReturnedToRework? || fact.SplitScheduled?
        || fact.ForEachFannedOut?
  }

  predicate Points(fact: Fact) {
    (fact.ActivityScheduled? && fact.via.Linear?) || fact.ReturnedToRework?
  }

  /** The last fact about the current activity is the one at `q`. */
  predicate LastTouch(log: seq<Event>, q: nat) {
    q < |log| && Touches(log[q].fact) && forall k :: q < k < |log| ==> !Touches(log[k].fact)
  }

  /** A branch reached a join that went on waiting. */
  predicate WaitedAt(log: seq<Event>, p: nat) {
    && p < |log| && log[p].fact.BranchReachedJoin?
    && !(p + 1 < |log| && log[p + 1].fact.JoinSatisfied?)
  }

  /** The last fact about the current activity points to one, and after it a join went on waiting. */
  predicate ClearedByJoin(log: seq<Event>) {
    exists q: nat, p: nat :: q < p < |log| && LastTouch(log, q) && Points(log[q].fact) && WaitedAt(log, p)
  }

  /** The last fact about the current activity scheduled one while the row was waiting for rework. */
  predicate MovedOnPaper(log: seq<Event>) {
    exists q: nat :: q < |log| && LastTouch(log, q) && OnPaper(log[..q], log[q].fact)
  }

  /** A join has gone on waiting since the last fact about the current activity. */
  predicate WaitedSince(log: seq<Event>) {
    exists p: nat :: p < |log| && WaitedAt(log, p) && forall k :: p < k < |log| ==> !Touches(log[k].fact)
  }

  lemma MovedPush(log: seq<Event>, e: Event)
    ensures MovedOnPaper(log + [e]) <==> if Touches(e.fact) then OnPaper(log, e.fact) else MovedOnPaper(log)
  {
    var log' := log + [e];
    assert log'[..|log|] == log;
    if Touches(e.fact) {
      assert LastTouch(log', |log|);
    } else {
      forall q: nat | q < |log| ensures LastTouch(log', q) <==> LastTouch(log, q) {
        LastTouchStays(log, e, q);
      }
      forall q: nat | q < |log| ensures log'[..q] == log[..q] && log'[q] == log[q] {}
    }
  }

  lemma LastTouchStays(log: seq<Event>, e: Event, q: nat)
    requires !Touches(e.fact) && q < |log|
    ensures LastTouch(log + [e], q) <==> LastTouch(log, q)
  {
    if LastTouch(log + [e], q) {
      forall k | q < k < |log| ensures !Touches(log[k].fact) {
        assert (log + [e])[k] == log[k];
      }
    }
  }

  lemma {:induction false} ReplayedCurrentPoints(log: seq<Event>)
    ensures FoldInstance(log).current.Some? <==> exists q: nat :: LastTouch(log, q) && Points(log[q].fact)
  {
    if log != [] {
      var init, last := log[..|log| - 1], log[|log| - 1].fact;
      ReplayedCurrentPoints(init);
      PointedIsReplayed(FoldInstance(init), last);
      if Touches(last) {
        assert LastTouch(log, |log| - 1);
      } else {
        forall q: nat | LastTouch(init, q) ensures LastTouch(log, q) && log[q] == init[q] {}
        forall q: nat | LastTouch(log, q) ensures LastTouch(init, q) && log[q] == init[q] {}
      }
    }
  }

  lemma WaitedSinceInit(log: seq<Event>)
    requires log != []
    requires var last := log[|log| - 1].fact;
             !last.BranchReachedJoin? && !(last.JoinSatisfied? && EndsInArrival(log[..|log| - 1]))
    ensures WaitedSince(log) <==> WaitedSince(log[..|log| - 1]) && !Touches(log[|log| - 1].fact)
  {
    var init := log[..|log| - 1];
    if WaitedSince(init) && !Touches(log[|log| - 1].fact) {
      var p: nat :| p < |init| && WaitedAt(init, p) && forall k :: p < k < |init| ==> !Touches(init[k].fact);
      assert WaitedAt(log, p);
    }
    if WaitedSince(log) {
      var p: nat :| p < |log| && WaitedAt(log, p) && forall k :: p < k < |log| ==> !Touches(log[k].fact);
      assert WaitedAt(init, p);
    }
  }

  lemma WaitedSincePassed(log: seq<Event>)
    requires |log| >= 2 && log[|log| - 1].fact.JoinSatisfied? && log[|log| - 2].fact.BranchReachedJoin?
    ensures WaitedSince(log) <==> WaitedSince(log[..|log| - 2])
  {
    var before := log[..|log| - 2];
    if WaitedSince(before) {
      var p: nat :| p < |before| && WaitedAt(before, p) && forall k :: p < k < |before| ==> !Touches(before[k].fact);
      assert log[p] == before[p] && (p + 1 < |before| ==> log[p + 1] == before[p + 1]);
      assert WaitedAt(log, p);
    }
    if WaitedSince(log) {
      var p: nat :| p < |log| && WaitedAt(log, p) && forall k :: p < k < |log| ==> !Touches(log[k].fact);
      assert p < |before|;
      assert log[p] == before[p] && (p + 1 < |before| ==> log[p + 1] == before[p + 1]);
      assert WaitedAt(before, p);
    }
  }

  /** Two facts that do not touch the current activity change nothing about who moved it. */
  lemma MovedPassed(log: seq<Event>)
    requires |log| >= 2 && log[|log| - 1].fact.JoinSatisfied? && log[|log| - 2].fact.BranchReachedJoin?
    ensures MovedOnPaper(log) <==> MovedOnPaper(log[..|log| - 2])
  {
    var before, e1, e2 := log[..|log| - 2], log[|log| - 2], log[|log| - 1];
    assert log == before + [e1] + [e2];
    MovedPush(before + [e1], e2);
    MovedPush(before, e1);
  }

  /** Unless it was moved on paper the row points where replay does, or nowhere if a join has gone on waiting since. */
  lemma {:induction false} RowCurrentExactly(log: seq<Event>)
    requires !MovedOnPaper(log)
    ensures RowCurrent(log) == if WaitedSince(log) then None else FoldInstance(log).current
    decreases |log|
  {
    if log != [] {
      var init, e := log[..|log| - 1], log[|log| - 1];
      assert log == init + [e];
      MovedPush(init, e);
      if e.fact.BranchReachedJoin? {
        assert WaitedAt(log, |log| - 1);
      } else if e.fact.JoinSatisfied? && EndsInArrival(init) {
        var before := init[..|init| - 1];
        assert before == log[..|log| - 2];
        MovedPassed(log);
        RowCurrentExactly(before);
        WaitedSincePassed(log);
        assert FoldInstance(init) == FoldInstance(before);
      } else {
        WaitedSinceInit(log);
        PointedIsReplayed(FoldInstance(init), e.fact);
        if !Touches(e.fact) {
          RowCurrentExactly(init);
        }
      }
    }
  }

  // ------------------------------------------------------------------ moved on paper

  /** The activity a fact names as the current one. */
  function Named(fact: Fact): Option<nat> {
    match fact
    case ActivityScheduled(id, _, _, _, _) => Some(id)
    case ReturnedToRework(_, _, _, id, _) => Some(id)
    case _ => None
  }

  predicate NamedIn(log: seq<Event>, id: nat) {
    exists p: nat :: p < |log| && Named(log[p].fact) == Some(id)
  }

  /** No activity is scheduled under an id the log has named before. */
  predicate FreshNames(log: seq<Event>) {
    log == [] ||
    var init, fact := log[..|log| - 1], log[|log| - 1].fact;
    FreshNames(init) && (fact.ActivityScheduled? ==> !NamedIn(init, fact.activity))
  }

  lemma {:induction false} FreshAt(log: seq<Event>, q: nat)
    requires FreshNames(log) && q < |log| && log[q].fact.ActivityScheduled?
    ensures !NamedIn(log[..q], log[q].fact.activity)
    decreases |log|
  {
    var init := log[..|log| - 1];
    if q < |init| {
      FreshAt(init, q);
      assert init[..q] == log[..q];
    }
  }

  lemma NamedLater(log: seq<Event>, n: nat, id: nat)
    requires n <= |log| && NamedIn(log[..n], id)
    ensures NamedIn(log, id)
  {
    var p: nat :| p < n && Named(log[..n][p].fact) == Some(id);
    assert Named(log[p].fact) == Some(id);
  }

  lemma {:induction false} RowCurrentNamed(log: seq<Event>)
    ensures RowCurrent(log).Some? ==> NamedIn(log, RowCurrent(log).value)
    decreases |log|
  {
    if log != [] {
      var init, fact := log[..|log| - 1], log[|log| - 1].fact;
      if fact.JoinSatisfied? && EndsInArrival(init) {
        assert init[..|init| - 1] == log[..|log| - 2];
        RowCurrentNamed(log[..|log| - 2]);
        if RowCurrent(log).Some? {
          NamedLater(log, |log| - 2, RowCurrent(log).value);
        }
      } else {
        RowCurrentNamed(init);
        if RowCurrent(log).Some? && NamedIn(init, RowCurrent(log).value) {
          NamedLater(log, |log| - 1, RowCurrent(log).value);
        } else if RowCurrent(log).Some? {
          assert Named(log[|log| - 1].fact) == RowCurrent(log);
        }
      }
    }
  }

  /** The row was moved on paper at `q`, and still points where it did before, or nowhere. */
  predicate LeftAt(log: seq<Event>, q: nat) {
    && LastTouch(log, q) && OnPaper(log[..q], log[q].fact)
    && (RowCurrent(log).None? || RowCurrent(log) == RowCurrent(log[..q]))
  }

  lemma LeftAtStays(log: seq<Event>, log': seq<Event>, q: nat)
    requires LeftAt(log, q) && log <= log' && (forall k :: |log| <= k < |log'| ==> !Touches(log'[k].fact))
    requires RowCurrent(log').None? || RowCurrent(log') == RowCurrent(log)
    ensures LeftAt(log', q)
  {
    assert log'[..q] == log[..q] && log'[q] == log[q];
    forall k | q < k < |log'| ensures !Touches(log'[k].fact) {
      if k < |log| { assert log'[k] == log[k]; }
    }
  }

  lemma LeftNow(log: seq<Event>)
    requires log != [] && OnPaper(log[..|log| - 1], log[|log| - 1].fact)
    ensures LeftAt(log, |log| - 1)
  {
  }

  lemma {:induction false} MovedLeavesRow(log: seq<Event>) returns (q: nat)
    requires MovedOnPaper(log)
    ensures LeftAt(log, q)
    decreases |log|
  {
    var init, e := log[..|log| - 1], log[|log| - 1];
    assert log == init + [e];
    MovedPush(init, e);
    if Touches(e.fact) {
      q := |log| - 1;
      LeftNow(log);
    } else if e.fact.JoinSatisfied? && EndsInArrival(init) {
      var before := log[..|log| - 2];
      assert init[..|init| - 1] == before;
      MovedPassed(log);
      q := MovedLeavesRow(before);
      LeftAtStays(before, log, q);
    } else {
      q := MovedLeavesRow(init);
      LeftAtStays(init, log, q);
    }
  }

  lemma {:induction false} LastTouchReplayed(log: seq<Event>, q: nat)
    requires LastTouch(log, q) && log[q].fact.ActivityScheduled? && log[q].fact.via.Linear?
    ensures FoldInstance(log).current == Some(log[q].fact.activity)
    decreases |log|
  {
    var init, last := log[..|log| - 1], log[|log| - 1].fact;
    PointedIsReplayed(FoldInstance(init), last);
    if q < |log| - 1 {
      assert LastTouch(init, q);
      LastTouchReplayed(init, q);
    }
  }

  lemma MovedDiffers(log: seq<Event>)
    requires FreshNames(log) && MovedOnPaper(log)
    ensures FoldInstance(log).current != RowCurrent(log)
  {
    var q := MovedLeavesRow(log);
    LastTouchReplayed(log, q);
    FreshAt(log, q);
    RowCurrentNamed(log[..q]);
  }

  /** The replayed current activity is the row's unless a join has cleared the row behind the log's back, or an
      activity was scheduled while the row was waiting. */
  lemma CurrentsDiffer(log: seq<Event>)
    requires FreshNames(log)
    ensures FoldInstance(log).current == RowCurrent(log) <==> !ClearedByJoin(log) && !MovedOnPaper(log)
  {
    if MovedOnPaper(log) {
      MovedDiffers(log);
    } else {
      RowCurrentExactly(log);
      ReplayedCurrentPoints(log);
      if ClearedByJoin(log) {
        var q: nat, p: nat :| q < p < |log| && LastTouch(log, q) && Points(log[q].fact) && WaitedAt(log, p);
        assert WaitedSince(log);
      }
    }
  }

  // ------------------------------------------------------------------ agreement

  /** The first replayed record of every activity is its row, and the surplus records are the hand-backs'. */
  predicate RecordsAgree(def: Definition, acts: seq<Activity>, log: seq<Event>) {
    Primary(FoldActivities(def, log)) == acts && Surplus(FoldActivities(def, log)) == Extras(def, log)
  }

  predicate HasJoin(def: Definition) {
    exists i :: 0 <= i < |def.nodes| && def.nodes[i].config.ParallelJoin?
  }

  /** Facts name activities there are, a hand-back one of its round, and an arrival is at a join. */
  predicate Sensible(def: Definition, acts: seq<Activity>, fact: Fact) {
    && (Named(fact).Some? ==> Named(fact).value < |acts|)
    && (fact.ReturnedToRework? ==> acts[fact.activity].round == fact.round)
    && (fact.BranchReachedJoin? ==> HasJoin(def))
  }

  predicate LogSensible(def: Definition, acts: seq<Activity>, log: seq<Event>) {
    FreshNames(log) && forall p :: 0 <= p < |log| ==> Sensible(def, acts, log[p].fact)
  }

  /** What the log tells of the activity rows. */
  predicate RecordsTold(d: Db) {
    RowsOk(d.def, d.activities) && RecordsAgree(d.def, d.activities, d.log) && LogSensible(d.def, d.activities, d.log)
  }

  /** What the log tells of the instance row: the result, whether it waits for rework, the status otherwise, and the
      current activity. */
  predicate InstanceTold(d: Db) {
    && FoldInstance(d.log).result == d.result
    && (d.status.ReturnedWaiting? <==> Waiting(d.log))
    && (!d.status.ReturnedWaiting? ==> FoldInstance(d.log).status == d.status)
    && RowCurrent(d.log) == d.current
  }

  /** What the log tells of the rows, in every run. */
  predicate Told(d: Db) {
    RecordsTold(d) && InstanceTold(d)
  }

  /** No call has come late: nothing stirred the instance while it waits, nothing moved it on paper. */
  predicate Exact(d: Db) {
    (Waiting(d.log) ==> !Stirred(d.log)) && !MovedOnPaper(d.log)
  }

  /** `Told`, and `Exact` where that is asked for. */
  predicate Tells(d: Db, exact: bool) {
    Told(d) && (exact ==> Exact(d))
  }

  /** The status agrees exactly unless the instance waits for rework and something has stirred it since. */
  lemma StatusExactly(d: Db)
    requires Told(d)
    ensures FoldInstance(d.log).status == d.status <==> !(Waiting(d.log) && Stirred(d.log))
  {
    if Waiting(d.log) {
      WaitingReplayed(d.log);
    }
  }

  /** The current activity agrees exactly unless a join has cleared it or it was moved on paper. */
  lemma CurrentExactly(d: Db)
    requires Told(d)
    ensures FoldInstance(d.log).current == d.current <==> !ClearedByJoin(d.log) && !MovedOnPaper(d.log)
  {
    CurrentsDiffer(d.log);
  }

  // ------------------------------------------------------------------ one more fact

  lemma FoldPush(def: Definition, log: seq<Event>, e: Event)
    ensures FoldInstance(log + [e]) == ApplyToInstance(FoldInstance(log), e.fact)
    ensures FoldActivities(def, log + [e]) == ApplyToActivities(def, FoldActivities(def, log), e.fact)
    ensures Extras(def, log + [e]) == Left(def, Extras(def, log), e.fact)
  {
    assert (log + [e])[..|log|] == log;
  }

  /** What one more fact makes of the marks the agreement goes by. */
  lemma MarksPush(log: seq<Event>, e: Event)
    ensures RowCurrent(log + [e])
         == if e.fact.BranchReachedJoin? then None
            else if e.fact.JoinSatisfied? && EndsInArrival(log) then RowCurrent(log[..|log| - 1])
            else if OnPaper(log, e.fact) then RowCurrent(log)
            else Pointed(RowCurrent(log), e.fact)
    ensures Waiting(log + [e]) <==> if SetsStatus(e.fact) then e.fact.ReturnedToRework? else Waiting(log)
    ensures Stirred(log + [e]) <==> !SetsStatus(e.fact) && (Stirs(e.fact) || Stirred(log))
    ensures MovedOnPaper(log + [e]) <==> if Touches(e.fact) then OnPaper(log, e.fact) else MovedOnPaper(log)
  {
    assert (log + [e])[..|log|] == log;
    StirredPush(log, e);
    MovedPush(log, e);
  }

  /** Pushing a freshly scheduled activity and its fact together keeps the records in agreement. */
  lemma RecordsSchedule(def: Definition, acts: seq<Activity>, log: seq<Event>, e: Event)
    requires RecordsAgree(def, acts, log) && Dense(acts)
    requires e.fact.ActivityScheduled? && e.fact.activity == |acts|
    ensures RecordsAgree(def, acts + [Fresh(def, |acts|, e.fact.node, e.fact.role, e.fact.round)], log + [e])
  {
    FoldPush(def, log, e);
    PushFresh(FoldActivities(def, log), Fresh(def, |acts|, e.fact.node, e.fact.role, e.fact.round));
  }

  /** A hand-back pushes one surplus record and changes no first record. */
  lemma RecordsHandBack(def: Definition, acts: seq<Activity>, log: seq<Event>, e: Event)
    requires RecordsAgree(def, acts, log) && Dense(acts)
    requires e.fact.ReturnedToRework? && e.fact.activity < |acts|
    ensures RecordsAgree(def, acts, log + [e])
  {
    FoldPush(def, log, e);
    PushTaken(FoldActivities(def, log), Fresh(def, e.fact.activity, e.fact.reworkTarget, e.fact.role, e.fact.round));
  }

  /** A fact that updates one record by id does to the first record what `change` does to the row. */
  lemma RecordsUpdate(def: Definition, acts: seq<Activity>, log: seq<Event>, e: Event, a: nat,
                      change: Activity -> Activity)
    requires RecordsAgree(def, acts, log) && Dense(acts) && a < |acts| && KeepsId(change)
    requires ApplyToActivities(def, FoldActivities(def, log), e.fact)
             == UpdateFirst(FoldActivities(def, log), a, change)
    requires !e.fact.ReturnedToRework? && e.fact != ActivitySkipped(None)
    ensures RecordsAgree(def, acts[a := change(acts[a])], log + [e])
  {
    FoldPush(def, log, e);
    UpdatePrimary(FoldActivities(def, log), a, change);
  }

  lemma RecordsSkipAll(def: Definition, acts: seq<Activity>, log: seq<Event>, e: Event)
    requires RecordsAgree(def, acts, log) && e.fact == ActivitySkipped(None)
    ensures RecordsAgree(def, SkipActive(acts), log + [e])
  {
    FoldPush(def, log, e);
    SkipPrimary(FoldActivities(def, log));
  }

  /** Facts the reducer ignores in the activity list. */
  predicate SparesRecords(fact: Fact) {
    !(fact.ActivityScheduled? || fact.ReturnedToRework? || fact.SignalReceived? || fact.ActivityCompleted?
      || fact.ActivitySkipped? || fact.Escalated?)
  }

  /** Facts the reducer ignores in the instance. */
  predicate SparesInstance(fact: Fact) {
    !(fact.Started? || fact.ActivityScheduled? || fact.Completed? || fact.Errored? || fact.ReturnedToRework?
      || fact.ReworkResumed? || fact.Reactivated? || fact.SplitScheduled? || fact.ForEachFannedOut?)
  }

  lemma RecordsSpared(def: Definition, acts: seq<Activity>, log: seq<Event>, e: Event)
    requires RecordsAgree(def, acts, log) && SparesRecords(e.fact)
    ensures RecordsAgree(def, acts, log + [e])
  {
    FoldPush(def, log, e);
  }

  lemma FreshStays(log: seq<Event>, e: Event)
    requires FreshNames(log) && (e.fact.ActivityScheduled? ==> !NamedIn(log, e.fact.activity))
    ensures FreshNames(log + [e])
  {
    assert (log + [e])[..|log|] == log;
  }

  lemma NewIsUnnamed(def: Definition, acts: seq<Activity>, log: seq<Event>, id: nat)
    requires LogSensible(def, acts, log) && id >= |acts|
    ensures !NamedIn(log, id)
  {
    forall p: nat | p < |log| ensures Named(log[p].fact) != Some(id) {
      assert Sensible(def, acts, log[p].fact);
    }
  }

  /** A log stays sensible while activities keep their rounds and new ones get new ids. */
  lemma SensibleStays(def: Definition, acts: seq<Activity>, log: seq<Event>, acts': seq<Activity>, e: Event)
    requires LogSensible(def, acts, log) && Sensible(def, acts', e.fact)
    requires e.fact.ActivityScheduled? ==> e.fact.activity >= |acts|
    requires |acts| <= |acts'| && forall i :: 0 <= i < |acts| ==> acts'[i].round == acts[i].round
    ensures LogSensible(def, acts', log + [e])
  {
    if e.fact.ActivityScheduled? {
      NewIsUnnamed(def, acts, log, e.fact.activity);
    }
    FreshStays(log, e);
    forall p | 0 <= p < |log + [e]| ensures Sensible(def, acts', (log + [e])[p].fact) {
      if p < |log| {
        assert Sensible(def, acts, log[p].fact);
      }
    }
  }
}
