/** The side-effect outbox: rows leased by workers, delivered outside any transaction and settled under
    the lease, with crashes, lease theft, retries and dead letters. */
module Outbox {
  import opened Core

  datatype RowStatus = Pending | Leased | Succeeded | DeadLetter

  datatype Lease = Lease(owner: string, expires: int)

  datatype Row = Row(status: RowStatus, attempts: int, max: int, lease: Option<Lease>, nextAt: int) {
    predicate Finished() {
      status.Succeeded? || status.DeadLetter?
    }

    /** What the settling UPDATEs are guarded by. */
    predicate OwnedBy(id: string) {
      status.Leased? && lease.Some? && lease.value.owner == id
    }

    predicate Due(now: int) {
      nextAt <= now && (status.Pending? || (status.Leased? && lease.Some? && lease.value.expires < now))
    }
  }

  datatype Policy = Policy(ttl: int, batch: nat, base: int, cap: int)

  // ------------------------------------------------------------------ backoff

  const I64_MAX: int := 0x7FFF_FFFF_FFFF_FFFF
  const I32_MAX: int := 0x7FFF_FFFF

  function SaturatingMul(a: int, b: int): int {
    if a * b > I64_MAX then I64_MAX else if a * b < -I64_MAX - 1 then -I64_MAX - 1 else a * b
  }

  /** Truncating cast to 32 bits. */
  function AsI32(n: int): (r: int)
    ensures -I32_MAX - 1 <= r <= I32_MAX
    ensures -I32_MAX - 1 <= n <= I32_MAX ==> r == n
  {
    (n + I32_MAX + 1) % 0x1_0000_0000 - I32_MAX - 1
  }

  function Pow2(n: nat): (r: int)
    ensures r >= 1
  {
    if n == 0 then 1 else 2 * Pow2(n - 1)
  }

  function RetryBackoff(attempt: int, base: int, cap: int): int {
    if attempt < 0 then base
    else
      var scaled := SaturatingMul(base, Pow2(if attempt < 20 then attempt else 20));
      if scaled < cap then scaled else cap
  }

  function Min(a: int, b: int): int {
    if a < b then a else b
  }

  /** For a sensible policy the delay starts at the base, doubles with every attempt until it reaches the
      ceiling, and stops doubling after twenty; neither the saturation nor the cast ever shows. */
  lemma {:induction false} BackoffDoubles(attempt: nat, base: int, cap: int)
    requires 0 <= base && 0 <= cap <= I32_MAX
    ensures RetryBackoff(0, base, cap) == Min(base, cap)
    ensures RetryBackoff(attempt + 1, base, cap)
         == if attempt < 20 then Min(2 * RetryBackoff(attempt, base, cap), cap) else RetryBackoff(attempt, base, cap)
    ensures 0 <= RetryBackoff(attempt, base, cap) <= cap
    ensures AsI32(RetryBackoff(attempt, base, cap)) == RetryBackoff(attempt, base, cap)
  {
    var k := if attempt < 20 then attempt else 20;
    var p := Pow2(k);
    assert 0 <= base * p by {
      assert 0 <= p;
    }
    if attempt < 20 {
      assert Pow2(k + 1) == 2 * p;
      assert base * (2 * p) == 2 * (base * p);
    }
    assert Pow2(0) == 1;
  }

  // ------------------------------------------------------------------ the table

  function Fresh(max: int, now: int): Row {
    Row(RowStatus.Pending, 0, max, None, now)
  }

  function LeaseTo(r: Row, id: string, expires: int): Row {
    r.(status := Leased, lease := Some(Lease(id, expires)))
  }

  function Succeed(r: Row): Row {
    r.(status := Succeeded, lease := None)
  }

  function Retry(r: Row, at: int): Row {
    r.(status := RowStatus.Pending, attempts := r.attempts + 1, lease := None, nextAt := at)
  }

  function Bury(r: Row): Row {
    r.(status := DeadLetter, attempts := r.attempts + 1, lease := None)
  }

  /** The rows once the picked ones are leased. */
  function LeaseRows(rows: seq<Row>, picked: seq<nat>, id: string, expires: int): (r: seq<Row>)
    ensures |r| == |rows|
  {
    seq(|rows|, i requires 0 <= i < |rows| => if i in picked then LeaseTo(rows[i], id, expires) else rows[i])
  }

  /** Rows a poll may take: due, each once, no more than the limit. */
  predicate Pickable(rows: seq<Row>, now: int, limit: nat, picked: seq<nat>) {
    && |picked| <= limit
    && (forall k :: 0 <= k < |picked| ==> picked[k] < |rows| && rows[picked[k]].Due(now))
    && (forall j, k :: 0 <= j < k < |picked| ==> picked[j] != picked[k])
  }

  // ------------------------------------------------------------------ the protocol

  /** A record as polled: the row and the counters it showed at that moment. */
  datatype Held = Held(row: nat, attempts: int, max: int)

  datatype Delivery = Delivered | Transient | Deterministic

  /** A worker process: the records it still has to settle, and how the delivery of the first one went. */
  datatype Worker = Worker(id: string, batch: seq<Held>, outcome: Option<Delivery>)

  /** What happened to a row: successful deliveries, follow-ups that advanced the workflow, failures
      settled, dead letters reported. */
  datatype Tally = Tally(delivered: nat, followUps: nat, failures: nat, deadLetters: nat)

  datatype State = State(now: int, rows: seq<Row>, tally: seq<Tally>, workers: seq<Worker>)

  datatype Step =
    | Wait(until: int)
    | Enqueue(max: int)
    | Poll(w: nat, picked: seq<nat>)
    | Deliver(w: nat, result: Delivery)
    | Settle(w: nat, commits: bool)
    | Crash(w: nat)

  function HeldOf(rows: seq<Row>, picked: seq<nat>): (r: seq<Held>)
    requires forall k :: 0 <= k < |picked| ==> picked[k] < |rows|
    ensures |r| == |picked|
  {
    seq(|picked|, k requires 0 <= k < |picked| => Held(picked[k], rows[picked[k]].attempts, rows[picked[k]].max))
  }

  /** A failure is final when it is deterministic or the polled counters say the budget is spent. */
  predicate IsFinal(h: Held, result: Delivery) {
    result.Deterministic? || h.attempts + 1 >= h.max
  }

  function SettleRow(p: Policy, r: Row, h: Held, result: Delivery, now: int): Row {
    if result.Delivered? then Succeed(r)
    else if IsFinal(h, result) then Bury(r)
    else Retry(r, now + AsI32(RetryBackoff(h.attempts, p.base, p.cap)))
  }

  function SettleTally(t: Tally, h: Held, result: Delivery): Tally {
    if result.Delivered? then t.(followUps := t.followUps + 1)
    else if IsFinal(h, result) then t.(failures := t.failures + 1, deadLetters := t.deadLetters + 1)
    else t.(failures := t.failures + 1)
  }

  predicate Enabled(p: Policy, s: State, step: Step) {
    match step
    case Wait(until) => s.now <= until
    case Enqueue(_) => true
    case Poll(w, picked) => w < |s.workers| && s.workers[w].batch == [] && Pickable(s.rows, s.now, p.batch, picked)
    case Deliver(w, _) => w < |s.workers| && s.workers[w].batch != [] && s.workers[w].outcome.None?
    case Settle(w, _) => w < |s.workers| && s.workers[w].batch != [] && s.workers[w].outcome.Some?
    case Crash(w) => w < |s.workers|
  }

  /** One step; a step that is not enabled changes nothing. Settling is one transaction with its
      follow-up: if that does not commit the row is as it was and the worker gives its batch up. */
  function Next(p: Policy, s: State, step: Step): State
    requires InRange(s)
  {
    if !Enabled(p, s, step) then s
    else
      match step
      case Wait(until) => s.(now := until)
      case Enqueue(max) => s.(rows := s.rows + [Fresh(max, s.now)], tally := s.tally + [Tally(0, 0, 0, 0)])
      case Poll(w, picked) =>
        s.(rows := LeaseRows(s.rows, picked, s.workers[w].id, s.now + p.ttl),
           workers := s.workers[w := s.workers[w].(batch := HeldOf(s.rows, picked), outcome := None)])
      case Deliver(w, result) =>
        var i := s.workers[w].batch[0].row;
        s.(workers := s.workers[w := s.workers[w].(outcome := Some(result))],
           tally := if result.Delivered? then s.tally[i := s.tally[i].(delivered := s.tally[i].delivered + 1)]
               else s.tally)
      case Settle(w, commits) => SettleHead(p, s, w, commits)
      case Crash(w) => s.(workers := s.workers[w := s.workers[w].(batch := [], outcome := None)])
  }

  function SettleHead(p: Policy, s: State, w: nat, commits: bool): State
    requires InRange(s) && Enabled(p, s, Settle(w, commits))
  {
    var me := s.workers[w];
    var h, result := me.batch[0], me.outcome.value;
    if !commits then s.(workers := s.workers[w := me.(batch := [], outcome := None)])
    else
      var s1 := s.(workers := s.workers[w := me.(batch := me.batch[1..], outcome := None)]);
      if !s.rows[h.row].OwnedBy(me.id) then s1
      else s1.(rows := s.rows[h.row := SettleRow(p, s.rows[h.row], h, result, s.now)],
               tally := s.tally[h.row := SettleTally(s.tally[h.row], h, result)])
  }

  /** Held records name rows of the table. */
  predicate InRange(s: State) {
    && |s.tally| == |s.rows|
    && forall w, k :: 0 <= w < |s.workers| && 0 <= k < |s.workers[w].batch| ==> s.workers[w].batch[k].row < |s.rows|
  }

  lemma StaysInRange(p: Policy, s: State, step: Step)
    requires InRange(s)
    ensures var s' := Next(p, s, step);
            InRange(s') && |s.rows| <= |s'.rows| && s.now <= s'.now && |s'.workers| == |s.workers|
    ensures forall w :: 0 <= w < |s.workers| ==> Next(p, s, step).workers[w].id == s.workers[w].id
  {
  }

  function RunFrom(p: Policy, s: State, steps: seq<Step>): (s': State)
    requires InRange(s)
    ensures InRange(s') && |s.rows| <= |s'.rows|
    decreases |steps|
  {
    if steps == [] then s
    else
      StaysInRange(p, s, steps[0]);
      RunFrom(p, Next(p, s, steps[0]), steps[1..])
  }

  /** An empty outbox and idle workers. */
  function Initially(ids: seq<string>, now: int): (s: State)
    ensures InRange(s)
  {
    State(now, [], [], seq(|ids|, i requires 0 <= i < |ids| => Worker(ids[i], [], None)))
  }

  // ------------------------------------------------------------------ settled rows stay settled

  /** Succeeded and dead-letter are absorbing: whatever happens later, the row is never touched again. */
  lemma {:induction false} SettledForGood(p: Policy, s: State, steps: seq<Step>, i: nat)
    requires InRange(s) && i < |s.rows| && s.rows[i].Finished()
    ensures var s' := RunFrom(p, s, steps);
            i < |s'.rows| && s'.rows[i] == s.rows[i]
    decreases |steps|
  {
    if steps != [] {
      var s1 := Next(p, s, steps[0]);
      StaysInRange(p, s, steps[0]);
      assert s1.rows[i] == s.rows[i];
      SettledForGood(p, s1, steps[1..], i);
    }
  }

  // ------------------------------------------------------------------ what the counters say

  predicate RowTallied(r: Row, t: Tally) {
    && (r.status.Leased? <==> r.lease.Some?)
    && t.followUps == (if r.status.Succeeded? then 1 else 0)
    && t.deadLetters == (if r.status.DeadLetter? then 1 else 0)
    && t.failures == r.attempts
    && t.followUps <= t.delivered
  }

  predicate Tallied(s: State) {
    && InRange(s)
    && (forall i :: 0 <= i < |s.rows| ==> RowTallied(s.rows[i], s.tally[i]))
    && forall w :: 0 <= w < |s.workers| && s.workers[w].batch != [] && s.workers[w].outcome == Some(Delivered) ==>
         s.tally[s.workers[w].batch[0].row].delivered >= 1
  }

  lemma SettleTallied(p: Policy, s: State, w: nat, commits: bool)
    requires Tallied(s) && Enabled(p, s, Settle(w, commits))
    ensures Tallied(SettleHead(p, s, w, commits))
  {
    var s' := SettleHead(p, s, w, commits);
    var i := s.workers[w].batch[0].row;
    assert RowTallied(s.rows[i], s.tally[i]);
    forall j | 0 <= j < |s'.rows| ensures RowTallied(s'.rows[j], s'.tally[j]) {
      assert RowTallied(s.rows[j], s.tally[j]);
    }
  }

  lemma StepTallied(p: Policy, s: State, step: Step)
    requires Tallied(s)
    ensures Tallied(Next(p, s, step))
  {
    StaysInRange(p, s, step);
    if step.Settle? && Enabled(p, s, step) {
      SettleTallied(p, s, step.w, step.commits);
    } else {
      var s' := Next(p, s, step);
      forall j | 0 <= j < |s'.rows| ensures RowTallied(s'.rows[j], s'.tally[j]) {
        assert j < |s.rows| ==> RowTallied(s.rows[j], s.tally[j]);
      }
    }
  }

  lemma {:induction false} RunTallied(p: Policy, s: State, steps: seq<Step>)
    requires Tallied(s)
    ensures Tallied(RunFrom(p, s, steps))
    decreases |steps|
  {
    if steps != [] {
      StepTallied(p, s, steps[0]);
      RunTallied(p, Next(p, s, steps[0]), steps[1..]);
    }
  }

  /** Whatever the workers, their ids and their crashes: a row's follow-up has run exactly once if the row
      succeeded and never otherwise, only after a successful delivery; its dead letter is reported exactly
      once if it is dead; and its attempt count is the number of failures settled. */
  lemma FollowUpAtMostOnce(p: Policy, ids: seq<string>, now: int, steps: seq<Step>, i: nat)
    requires i < |RunFrom(p, Initially(ids, now), steps).rows|
    ensures var s := RunFrom(p, Initially(ids, now), steps);
            && s.tally[i].followUps == (if s.rows[i].status.Succeeded? then 1 else 0)
            && s.tally[i].followUps <= s.tally[i].delivered
            && s.tally[i].deadLetters == (if s.rows[i].status.DeadLetter? then 1 else 0)
            && s.rows[i].attempts == s.tally[i].failures
  {
    RunTallied(p, Initially(ids, now), steps);
    var s := RunFrom(p, Initially(ids, now), steps);
    assert RowTallied(s.rows[i], s.tally[i]);
  }

  // ------------------------------------------------------------------ the attempt budget

  predicate DistinctIds(ws: seq<Worker>) {
    forall v, w :: 0 <= v < w < |ws| ==> ws[v].id != ws[w].id
  }

  /** Attempts a row may use: its declared maximum, but the first failure is always settled. */
  function Budget(max: int): int {
    if max < 1 then 1 else max
  }

  predicate WithinBudget(r: Row) {
    0 <= r.attempts <= Budget(r.max) && (r.attempts == Budget(r.max) ==> r.status.DeadLetter?)
  }

  /** While a lease is still the holder's, the counters it polled are the row's. */
  predicate Current(rows: seq<Row>, id: string, h: Held) {
    h.row < |rows| && h.max == rows[h.row].max && (rows[h.row].OwnedBy(id) ==> h.attempts == rows[h.row].attempts)
  }

  predicate Budgeted(s: State) {
    && InRange(s) && DistinctIds(s.workers)
    && (forall i :: 0 <= i < |s.rows| ==> WithinBudget(s.rows[i]))
    && forall w, k :: 0 <= w < |s.workers| && 0 <= k < |s.workers[w].batch| ==>
         Current(s.rows, s.workers[w].id, s.workers[w].batch[k])
  }

  lemma PollBudgeted(p: Policy, s: State, w: nat, picked: seq<nat>)
    requires Budgeted(s) && Enabled(p, s, Poll(w, picked))
    ensures Budgeted(Next(p, s, Poll(w, picked)))
  {
    var s' := Next(p, s, Poll(w, picked));
    forall v, k | 0 <= v < |s'.workers| && 0 <= k < |s'.workers[v].batch|
      ensures Current(s'.rows, s'.workers[v].id, s'.workers[v].batch[k])
    {
      if v != w {
        assert Current(s.rows, s.workers[v].id, s.workers[v].batch[k]);
      }
    }
    forall i | 0 <= i < |s'.rows| ensures WithinBudget(s'.rows[i]) {
      assert WithinBudget(s.rows[i]);
    }
  }

  lemma SettleBudgeted(p: Policy, s: State, w: nat, commits: bool)
    requires Budgeted(s) && Enabled(p, s, Settle(w, commits))
    ensures Budgeted(SettleHead(p, s, w, commits))
  {
    var s' := SettleHead(p, s, w, commits);
    var h := s.workers[w].batch[0];
    assert Current(s.rows, s.workers[w].id, h);
    assert WithinBudget(s.rows[h.row]);
    forall i | 0 <= i < |s'.rows| ensures WithinBudget(s'.rows[i]) {
      assert WithinBudget(s.rows[i]);
    }
    forall v, k | 0 <= v < |s'.workers| && 0 <= k < |s'.workers[v].batch|
      ensures Current(s'.rows, s'.workers[v].id, s'.workers[v].batch[k])
    {
      if v == w {
        assert s'.workers[v].batch[k] == s.workers[v].batch[k + 1];
        assert Current(s.rows, s.workers[v].id, s.workers[v].batch[k + 1]);
      } else {
        assert Current(s.rows, s.workers[v].id, s.workers[v].batch[k]);
      }
    }
  }

  lemma OtherBudgeted(p: Policy, s: State, step: Step)
    requires Budgeted(s) && !step.Poll? && !step.Settle?
    ensures Budgeted(Next(p, s, step))
  {
    StaysInRange(p, s, step);
    var s' := Next(p, s, step);
    forall i | 0 <= i < |s'.rows| ensures WithinBudget(s'.rows[i]) {
      assert i < |s.rows| ==> WithinBudget(s.rows[i]);
    }
    forall v, k | 0 <= v < |s'.workers| && 0 <= k < |s'.workers[v].batch|
      ensures Current(s'.rows, s'.workers[v].id, s'.workers[v].batch[k])
    {
      assert Current(s.rows, s.workers[v].id, s.workers[v].batch[k]);
    }
  }

  lemma {:induction false} RunBudgeted(p: Policy, s: State, steps: seq<Step>)
    requires Budgeted(s)
    ensures Budgeted(RunFrom(p, s, steps))
    decreases |steps|
  {
    if steps != [] {
      StaysInRange(p, s, steps[0]);
      if Enabled(p, s, steps[0]) {
        match steps[0]
        case Poll(w, picked) => PollBudgeted(p, s, w, picked);
        case Settle(w, commits) => SettleBudgeted(p, s, w, commits);
        case _ => OtherBudgeted(p, s, steps[0]);
      }
      RunBudgeted(p, Next(p, s, steps[0]), steps[1..]);
    }
  }

  /** Sequential workers with distinct ids never spend more than the budget: the attempt count stays within
      the declared maximum (or 1, if that is less than 1), and a row that reached it is a dead letter. */
  lemma AttemptsWithinBudget(p: Policy, ids: seq<string>, now: int, steps: seq<Step>, i: nat)
    requires forall v, w :: 0 <= v < w < |ids| ==> ids[v] != ids[w]
    requires i < |RunFrom(p, Initially(ids, now), steps).rows|
    ensures var r := RunFrom(p, Initially(ids, now), steps).rows[i];
            r.attempts <= Budget(r.max) && (r.attempts == Budget(r.max) ==> r.status.DeadLetter?)
  {
    var s := Initially(ids, now);
    RunBudgeted(p, s, steps);
    assert WithinBudget(RunFrom(p, s, steps).rows[i]);
  }

  // ------------------------------------------------------------------ no row is stranded

  /** Longest delay a retry can be given. */
  function LongestBackoff(p: Policy): (r: int)
    ensures r >= 0
  {
    if 0 <= p.base && 0 <= p.cap <= I32_MAX then p.cap else I32_MAX
  }

  predicate Reappears(p: Policy, r: Row, now: int) {
    && r.nextAt <= now + LongestBackoff(p)
    && (r.lease.Some? ==> r.lease.value.expires <= now + p.ttl)
    && (r.status.Leased? <==> r.lease.Some?)
    && r.attempts >= 0
  }

  predicate AllReappear(p: Policy, s: State) {
    && InRange(s)
    && (forall i :: 0 <= i < |s.rows| ==> Reappears(p, s.rows[i], s.now))
    && forall w, k :: 0 <= w < |s.workers| && 0 <= k < |s.workers[w].batch| ==> s.workers[w].batch[k].attempts >= 0
  }

  lemma BackoffBound(p: Policy, attempts: nat)
    ensures AsI32(RetryBackoff(attempts, p.base, p.cap)) <= LongestBackoff(p)
  {
    if 0 <= p.base && 0 <= p.cap <= I32_MAX {
      BackoffDoubles(attempts, p.base, p.cap);
    }
  }

  lemma SettleReappears(p: Policy, s: State, w: nat, commits: bool)
    requires AllReappear(p, s) && Enabled(p, s, Settle(w, commits))
    ensures AllReappear(p, SettleHead(p, s, w, commits))
  {
    var s' := SettleHead(p, s, w, commits);
    var h := s.workers[w].batch[0];
    assert h.attempts >= 0;
    BackoffBound(p, h.attempts);
    forall i | 0 <= i < |s'.rows| ensures Reappears(p, s'.rows[i], s'.now) {
      assert Reappears(p, s.rows[i], s.now);
    }
    forall v, k | 0 <= v < |s'.workers| && 0 <= k < |s'.workers[v].batch|
      ensures s'.workers[v].batch[k].attempts >= 0 && s'.workers[v].batch[k].row < |s'.rows|
    {
      var k0 := if v == w then k + 1 else k;
      assert s'.workers[v].batch[k] == s.workers[v].batch[k0];
    }
  }

  lemma StepReappears(p: Policy, s: State, step: Step)
    requires AllReappear(p, s)
    ensures AllReappear(p, Next(p, s, step))
  {
    StaysInRange(p, s, step);
    if step.Settle? && Enabled(p, s, step) {
      SettleReappears(p, s, step.w, step.commits);
    } else {
      var s' := Next(p, s, step);
      forall i | 0 <= i < |s'.rows| ensures Reappears(p, s'.rows[i], s'.now) {
        assert i < |s.rows| ==> Reappears(p, s.rows[i], s.now);
      }
      forall v, k | 0 <= v < |s'.workers| && 0 <= k < |s'.workers[v].batch|
        ensures s'.workers[v].batch[k].attempts >= 0
      {
        if step.Poll? && v == step.w && Enabled(p, s, step) {
          assert Reappears(p, s.rows[step.picked[k]], s.now);
        } else {
          assert s'.workers[v].batch[k] == s.workers[v].batch[k];
        }
      }
    }
  }

  lemma {:induction false} RunReappears(p: Policy, s: State, steps: seq<Step>)
    requires AllReappear(p, s)
    ensures AllReappear(p, RunFrom(p, s, steps))
    decreases |steps|
  {
    if steps != [] {
      StepReappears(p, s, steps[0]);
      RunReappears(p, Next(p, s, steps[0]), steps[1..]);
    }
  }

  /** No record is stranded: in every reachable state, a row that is not settled is due at every time past
      the longest backoff and one lease from now, if nobody touches it. */
  lemma DueAgain(p: Policy, ids: seq<string>, now: int, steps: seq<Step>, i: nat, later: int)
    requires var s := RunFrom(p, Initially(ids, now), steps);
             && i < |s.rows| && !s.rows[i].Finished()
             && later > s.now + p.ttl && later >= s.now + LongestBackoff(p)
    ensures RunFrom(p, Initially(ids, now), steps).rows[i].Due(later)
  {
    RunReappears(p, Initially(ids, now), steps);
    var s := RunFrom(p, Initially(ids, now), steps);
    assert Reappears(p, s.rows[i], s.now);
  }

  /** Steps by which one worker, restarted, brings a row to success. */
  function Rescue(w: nat, i: nat, later: int): seq<Step> {
    [Crash(w), Wait(later), Poll(w, [i])] + [Deliver(w, Delivered), Settle(w, true)]
  }

  lemma RunFromCons(p: Policy, s: State, step: Step, rest: seq<Step>)
    requires InRange(s)
    ensures InRange(Next(p, s, step)) && RunFrom(p, s, [step] + rest) == RunFrom(p, Next(p, s, step), rest)
  {
    StaysInRange(p, s, step);
    assert ([step] + rest)[1..] == rest;
  }

  lemma {:induction false} RunFromAppend(p: Policy, s: State, first: seq<Step>, second: seq<Step>)
    requires InRange(s)
    ensures RunFrom(p, s, first + second) == RunFrom(p, RunFrom(p, s, first), second)
    decreases |first|
  {
    if first == [] {
      assert first + second == second;
    } else {
      StaysInRange(p, s, first[0]);
      RunFromAppend(p, Next(p, s, first[0]), first[1..], second);
      assert first + second == [first[0]] + (first[1..] + second);
      RunFromCons(p, s, first[0], first[1..] + second);
    }
  }

  /** The worker, restarted, has the row leased and in its hands. */
  lemma RescueLeases(p: Policy, s: State, w: nat, i: nat, later: int)
    requires InRange(s) && w < |s.workers| && i < |s.rows| && s.rows[i].Due(later) && s.now <= later && p.batch >= 1
    ensures var s' := RunFrom(p, s, [Crash(w), Wait(later), Poll(w, [i])]);
            && w < |s'.workers| && s'.rows[i].OwnedBy(s'.workers[w].id)
            && |s'.workers[w].batch| == 1 && s'.workers[w].batch[0].row == i && s'.workers[w].outcome.None?
  {
    var s1 := Next(p, s, Crash(w));
    var s2 := Next(p, s1, Wait(later));
    assert Pickable(s2.rows, s2.now, p.batch, [i]);
    RunFromCons(p, s, Crash(w), [Wait(later), Poll(w, [i])]);
    RunFromCons(p, s1, Wait(later), [Poll(w, [i])]);
    RunFromCons(p, s2, Poll(w, [i]), []);
    assert [Crash(w), Wait(later), Poll(w, [i])] == [Crash(w)] + [Wait(later), Poll(w, [i])];
    assert [Wait(later), Poll(w, [i])] == [Wait(later)] + [Poll(w, [i])] && [Poll(w, [i])] == [Poll(w, [i])] + [];
  }

  lemma RescueSettles(p: Policy, s: State, w: nat, i: nat)
    requires InRange(s) && w < |s.workers| && s.workers[w].batch != [] && s.workers[w].outcome.None?
    requires s.workers[w].batch[0].row == i && s.rows[i].OwnedBy(s.workers[w].id)
    ensures RunFrom(p, s, [Deliver(w, Delivered), Settle(w, true)]).rows[i].status == Succeeded
  {
    var s1 := Next(p, s, Deliver(w, Delivered));
    RunFromCons(p, s, Deliver(w, Delivered), [Settle(w, true)]);
    RunFromCons(p, s1, Settle(w, true), []);
    assert [Deliver(w, Delivered), Settle(w, true)] == [Deliver(w, Delivered)] + [Settle(w, true)];
    assert [Settle(w, true)] == [Settle(w, true)] + [];
  }

  /** From every reachable state an unsettled row can still be brought to success by any worker. */
  lemma RescueWorks(p: Policy, s: State, w: nat, i: nat, later: int)
    requires InRange(s) && w < |s.workers| && i < |s.rows| && s.rows[i].Due(later) && s.now <= later && p.batch >= 1
    ensures RunFrom(p, s, Rescue(w, i, later)).rows[i].status == Succeeded
  {
    RescueLeases(p, s, w, i, later);
    RescueSettles(p, RunFrom(p, s, [Crash(w), Wait(later), Poll(w, [i])]), w, i);
    RunFromAppend(p, s, [Crash(w), Wait(later), Poll(w, [i])], [Deliver(w, Delivered), Settle(w, true)]);
  }

  // ------------------------------------------------------------------ shared ids

  lemma PollOnly(p: Policy, s: State, w: nat)
    requires InRange(s) && |s.rows| == 1 && w < |s.workers| && s.workers[w].batch == []
    requires p.batch >= 1 && s.rows[0].Due(s.now)
    ensures var r, me := s.rows[0], s.workers[w];
            Next(p, s, Poll(w, [0])) == s.(rows := [LeaseTo(r, me.id, s.now + p.ttl)],
                                           workers := s.workers[w := Worker(me.id, [Held(0, r.attempts, r.max)], None)])
  {
    assert Pickable(s.rows, s.now, p.batch, [0]);
    assert LeaseRows(s.rows, [0], s.workers[w].id, s.now + p.ttl)
        == [LeaseTo(s.rows[0], s.workers[w].id, s.now + p.ttl)];
    assert HeldOf(s.rows, [0]) == [Held(0, s.rows[0].attempts, s.rows[0].max)];
  }

  lemma FailOnly(p: Policy, s: State, w: nat, h: Held)
    requires InRange(s) && |s.rows| == 1 && w < |s.workers| && s.workers[w].batch == [h] && s.workers[w].outcome.None?
    requires s.rows[0].OwnedBy(s.workers[w].id) && !IsFinal(h, Transient)
    ensures var s' := RunFrom(p, s, [Deliver(w, Transient), Settle(w, true)]);
            && s'.rows == [Retry(s.rows[0], s.now + AsI32(RetryBackoff(h.attempts, p.base, p.cap)))] && s'.now == s.now
            && s'.workers == s.workers[w := Worker(s.workers[w].id, [], None)]
  {
    var s1 := Next(p, s, Deliver(w, Transient));
    RunFromCons(p, s, Deliver(w, Transient), [Settle(w, true)]);
    RunFromCons(p, s1, Settle(w, true), []);
    assert [Deliver(w, Transient), Settle(w, true)] == [Deliver(w, Transient)] + [Settle(w, true)];
    assert [Settle(w, true)] == [Settle(w, true)] + [];
    assert |Next(p, s1, Settle(w, true)).rows| == 1;
  }

  lemma PollLater(p: Policy, s: State, w: nat, at: int)
    requires InRange(s) && |s.rows| == 1 && w < |s.workers| && s.workers[w].batch == []
    requires p.batch >= 1 && s.rows[0].Due(at) && s.now <= at
    ensures var r, me := s.rows[0], s.workers[w];
            RunFrom(p, s, [Wait(at), Poll(w, [0])])
            == s.(now := at, rows := [LeaseTo(r, me.id, at + p.ttl)],
                  workers := s.workers[w := Worker(me.id, [Held(0, r.attempts, r.max)], None)])
  {
    var s1 := Next(p, s, Wait(at));
    PollOnly(p, s1, w);
    RunFromCons(p, s, Wait(at), [Poll(w, [0])]);
    RunFromCons(p, s1, Poll(w, [0]), []);
    assert [Wait(at), Poll(w, [0])] == [Wait(at)] + [Poll(w, [0])] && [Poll(w, [0])] == [Poll(w, [0])] + [];
  }

  /** A row whose budget is spent although it is not settled. */
  predicate Overspent(s: State) {
    exists i :: 0 <= i < |s.rows| && !WithinBudget(s.rows[i])
  }

  function Later(t: int, delay: int): int {
    if delay < 0 then t else t + delay
  }

  /** Two processes under one worker id can overrun the budget of a row: the one whose lease had run out
      settles under the other's, with the counters it polled before. */
  lemma SharedIdOverspends(p: Policy, ids: seq<string>, now: int, v: nat, w: nat) returns (steps: seq<Step>)
    requires v < w < |ids| && ids[v] == ids[w] && p.batch >= 1
    ensures Overspent(RunFrom(p, Initially(ids, now), steps))
  {
    var id, h := ids[v], Held(0, 0, 2);
    var t1 := Later(now, p.ttl) + 1;
    var t2 := Later(t1, AsI32(RetryBackoff(0, p.base, p.cap)));
    var s0 := Initially(ids, now);
    var s1 := Next(p, s0, Enqueue(2));
    RunFromCons(p, s0, Enqueue(2), []);
    assert [Enqueue(2)] == [Enqueue(2)] + [];
    PollLater(p, s1, v, now);
    var s2 := RunFrom(p, s1, [Wait(now), Poll(v, [0])]);
    PollLater(p, s2, w, t1);
    var s3 := RunFrom(p, s2, [Wait(t1), Poll(w, [0])]);
    FailOnly(p, s3, w, h);
    var s4 := RunFrom(p, s3, [Deliver(w, Transient), Settle(w, true)]);
    PollLater(p, s4, w, t2);
    var s5 := RunFrom(p, s4, [Wait(t2), Poll(w, [0])]);
    FailOnly(p, s5, v, h);
    var s6 := RunFrom(p, s5, [Deliver(v, Transient), Settle(v, true)]);
    assert !WithinBudget(s6.rows[0]);
    steps := [Enqueue(2)];
    RunFromAppend(p, s0, steps, [Wait(now), Poll(v, [0])]);
    steps := steps + [Wait(now), Poll(v, [0])];
    RunFromAppend(p, s0, steps, [Wait(t1), Poll(w, [0])]);
    steps := steps + [Wait(t1), Poll(w, [0])];
    RunFromAppend(p, s0, steps, [Deliver(w, Transient), Settle(w, true)]);
    steps := steps + [Deliver(w, Transient), Settle(w, true)];
    RunFromAppend(p, s0, steps, [Wait(t2), Poll(w, [0])]);
    steps := steps + [Wait(t2), Poll(w, [0])];
    RunFromAppend(p, s0, steps, [Deliver(v, Transient), Settle(v, true)]);
    steps := steps + [Deliver(v, Transient), Settle(v, true)];
  }

  predicate KeepsBudget(p: Policy, ids: seq<string>, now: int, steps: seq<Step>) {
    !Overspent(RunFrom(p, Initially(ids, now), steps))
  }

  /** The budget is kept in every run if and only if no two processes share an id, as two with the default
      configuration do. */
  lemma BudgetNeedsDistinctIds(p: Policy, ids: seq<string>, now: int)
    requires p.batch >= 1
    ensures (forall steps :: KeepsBudget(p, ids, now, steps))
       <==> (forall v, w :: 0 <= v < w < |ids| ==> ids[v] != ids[w])
  {
    if v, w :| 0 <= v < w < |ids| && ids[v] == ids[w] {
      var steps := SharedIdOverspends(p, ids, now, v, w);
      assert !KeepsBudget(p, ids, now, steps);
    } else {
      forall steps ensures KeepsBudget(p, ids, now, steps) {
        RunBudgeted(p, Initially(ids, now), steps);
      }
    }
  }
}
