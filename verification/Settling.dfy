/** What the steps of the outbox protocol do to a row, field by field, and how long a row is left alone. */
module Settling {
  import opened Core
  import opened Outbox

  // ------------------------------------------------------------------ polling

  /** A poll leases each row it picks to the worker for one lease from now, leaves its other fields, and touches no
      other row; the worker holds the picked records with the counters they showed. */
  lemma PollLeases(p: Policy, s: State, w: nat, picked: seq<nat>, i: nat)
    requires InRange(s) && Enabled(p, s, Poll(w, picked)) && i < |s.rows|
    ensures var s' := Next(p, s, Poll(w, picked));
            && |s'.rows| == |s.rows| && s'.now == s.now && s'.tally == s.tally
            && s'.rows[i] == (if i in picked
                              then s.rows[i].(status := Leased, lease := Some(Lease(s.workers[w].id, s.now + p.ttl)))
                              else s.rows[i])
            && |s'.workers[w].batch| == |picked| && s'.workers[w].outcome.None?
            && forall k :: 0 <= k < |picked| ==>
                 s'.workers[w].batch[k] == Held(picked[k], s.rows[picked[k]].attempts, s.rows[picked[k]].max)
  {
  }

  // ------------------------------------------------------------------ settling

  /** The record's delivery is known, and the lease on its row is still the worker's. */
  predicate Settles(s: State, w: nat, h: Held, result: Delivery) {
    && w < |s.workers| && s.workers[w].batch != [] && s.workers[w].batch[0] == h
    && s.workers[w].outcome == Some(result) && h.row < |s.rows|
    && s.rows[h.row].status.Leased? && s.rows[h.row].lease.Some? && s.rows[h.row].lease.value.owner == s.workers[w].id
  }

  /** Only this row, and its tally, may differ. */
  predicate OnlyRow(s: State, i: nat, s': State)
    requires i < |s.rows| && i < |s.tally|
  {
    && s'.now == s.now && |s'.rows| == |s.rows| && |s'.tally| == |s.tally|
    && s'.rows == s.rows[i := s'.rows[i]] && s'.tally == s.tally[i := s'.tally[i]]
  }

  /** The delay before the next attempt: the base doubled for each attempt, twenty times at most, up to the ceiling. */
  function DelayAfter(attempts: nat, base: int, cap: int): int {
    Min(base * Pow2(if attempts < 20 then attempts else 20), cap)
  }

  lemma DelayIsBackoff(attempts: nat, base: int, cap: int)
    requires 0 <= base && 0 <= cap <= I32_MAX
    ensures AsI32(RetryBackoff(attempts, base, cap)) == DelayAfter(attempts, base, cap)
  {
    BackoffDoubles(attempts, base, cap);
    var power := Pow2(if attempts < 20 then attempts else 20);
    assert base * power >= 0;
  }

  /** A delivered record succeeds, under its owner's lease, and its follow-up has run once more. */
  lemma DeliveredSettles(p: Policy, s: State, w: nat, h: Held)
    requires InRange(s) && Settles(s, w, h, Delivered)
    ensures var s' := Next(p, s, Settle(w, true));
            && OnlyRow(s, h.row, s')
            && s'.rows[h.row] == s.rows[h.row].(status := Succeeded, lease := None)
            && s'.tally[h.row] == s.tally[h.row].(followUps := s.tally[h.row].followUps + 1)
  {
  }

  /** A failure under the owner's lease is final exactly if it is deterministic, or the attempts shown when the record
      was polled, and this one, reach its maximum. A final one makes a dead letter, which is reported; any other has the
      row pending again, without a lease, due after the delay. Either costs one attempt. */
  lemma FailureSettles(p: Policy, s: State, w: nat, h: Held, result: Delivery)
    requires InRange(s) && Settles(s, w, h, result) && !result.Delivered?
    requires h.attempts >= 0 && 0 <= p.base && 0 <= p.cap <= I32_MAX
    ensures var s' := Next(p, s, Settle(w, true));
            var r, r', t, t' := s.rows[h.row], s'.rows[h.row], s.tally[h.row], s'.tally[h.row];
            && OnlyRow(s, h.row, s') && t' == t.(failures := t.failures + 1, deadLetters := t'.deadLetters)
            && (result.Deterministic? || h.attempts + 1 >= h.max ==>
                  && r' == r.(status := DeadLetter, attempts := r.attempts + 1, lease := None)
                  && t'.deadLetters == t.deadLetters + 1)
            && (result.Transient? && h.attempts + 1 < h.max ==>
                  && r' == r.(status := RowStatus.Pending, attempts := r.attempts + 1, lease := None,
                              nextAt := s.now + DelayAfter(h.attempts, p.base, p.cap))
                  && t'.deadLetters == t.deadLetters)
  {
    DelayIsBackoff(h.attempts, p.base, p.cap);
  }

  /** Settling that does not commit, or after the lease was lost, touches no row. */
  lemma LostSettles(p: Policy, s: State, w: nat, commits: bool)
    requires InRange(s) && Enabled(p, s, Settle(w, commits))
    requires var r := s.rows[s.workers[w].batch[0].row];
             !commits || !(r.status.Leased? && r.lease.Some? && r.lease.value.owner == s.workers[w].id)
    ensures var s' := Next(p, s, Settle(w, commits));
            s'.rows == s.rows && s'.tally == s.tally && s'.now == s.now
  {
  }

  // ------------------------------------------------------------------ rows that come and workers that go on

  /** A new record is due at once, with no attempt, lease or history; no other row changes. */
  lemma EnqueuedFresh(p: Policy, s: State, max: int)
    requires InRange(s)
    ensures var s' := Next(p, s, Enqueue(max));
            var n := |s.rows|;
            && |s'.rows| == n + 1 && s'.rows[..n] == s.rows && s'.tally[..n] == s.tally && s'.now == s.now
            && s'.rows[n].status.Pending? && s'.rows[n].attempts == 0 && s'.rows[n].max == max
            && s'.rows[n].lease.None? && s'.rows[n].nextAt == s.now && s'.rows[n].Due(s.now)
            && s'.tally[n] == Tally(0, 0, 0, 0) && s'.workers == s.workers
  {
  }

  /** Whoever delivers, settles or crashes, the other workers go on as they were. The worker itself, its delivery known,
      settles it; having settled, it takes up the next record; it gives its batch up if settling does not commit, and
      after a crash. */
  lemma WorkersGoOn(p: Policy, s: State, step: Step, w: nat)
    requires InRange(s) && Enabled(p, s, step) && w < |s.workers|
    ensures var me, me' := s.workers[w], Next(p, s, step).workers[w];
            match step
            case Deliver(v, result) => me' == if v == w then me.(outcome := Some(result)) else me
            case Settle(v, commits) =>
              me' == if v == w then me.(batch := if commits then me.batch[1..] else [], outcome := None) else me
            case Crash(v) => me' == if v == w then me.(batch := [], outcome := None) else me
            case Poll(v, _) => v != w ==> me' == me
            case _ => me' == me
  {
  }

  // ------------------------------------------------------------------ rows left alone

  /** Nobody may take the row yet: it is pending and not due, or leased and the lease has not run out. */
  predicate Resting(r: Row, now: int) {
    || (r.status.Pending? && now < r.nextAt)
    || (r.status.Leased? && r.lease.Some? && now <= r.lease.value.expires)
  }

  /** A step by which the holder of the lease settles. */
  predicate SettledByOwner(s: State, step: Step, r: Row) {
    step.Settle? && step.w < |s.workers| && r.lease.Some? && s.workers[step.w].id == r.lease.value.owner
  }

  /** No step of the run settles a record in the name of the row's holder. */
  predicate OwnerRests(p: Policy, s: State, steps: seq<Step>, r: Row)
    requires InRange(s)
    decreases |steps|
  {
    if steps == [] then true
    else
      StaysInRange(p, s, steps[0]);
      !SettledByOwner(s, steps[0], r) && OwnerRests(p, Next(p, s, steps[0]), steps[1..], r)
  }

  lemma {:induction false} TimeRuns(p: Policy, s: State, steps: seq<Step>)
    requires InRange(s)
    ensures s.now <= RunFrom(p, s, steps).now
    decreases |steps|
  {
    if steps != [] {
      StaysInRange(p, s, steps[0]);
      TimeRuns(p, Next(p, s, steps[0]), steps[1..]);
    }
  }

  lemma StepLeavesResting(p: Policy, s: State, step: Step, i: nat)
    requires InRange(s) && i < |s.rows| && Resting(s.rows[i], s.now) && !SettledByOwner(s, step, s.rows[i])
    ensures i < |Next(p, s, step).rows| && Next(p, s, step).rows[i] == s.rows[i]
  {
    if step.Poll? && Enabled(p, s, step) {
      assert forall k :: 0 <= k < |step.picked| ==> s.rows[step.picked[k]].Due(s.now);
    }
  }

  /** A row is left alone while it rests: in every run up to a moment at which it still does, whatever the workers do,
      it does not change unless its holder settles. */
  lemma {:induction false} RestsUntil(p: Policy, s: State, steps: seq<Step>, i: nat)
    requires InRange(s) && i < |s.rows| && Resting(s.rows[i], RunFrom(p, s, steps).now)
    requires OwnerRests(p, s, steps, s.rows[i])
    ensures RunFrom(p, s, steps).rows[i] == s.rows[i]
    decreases |steps|
  {
    if steps != [] {
      TimeRuns(p, s, steps);
      StaysInRange(p, s, steps[0]);
      StepLeavesResting(p, s, steps[0], i);
      RestsUntil(p, Next(p, s, steps[0]), steps[1..], i);
    }
  }

  /** And once it rests no longer any idle worker may take it. */
  lemma TakenOnceDue(p: Policy, s: State, w: nat, i: nat)
    requires InRange(s) && i < |s.rows| && w < |s.workers| && s.workers[w].batch == [] && p.batch >= 1
    requires (s.rows[i].status.Leased? ==> s.rows[i].lease.Some?)
    ensures Enabled(p, s, Poll(w, [i])) <==> !s.rows[i].Finished() && s.rows[i].nextAt <= s.now
                                             && !Resting(s.rows[i], s.now)
  {
    if Pickable(s.rows, s.now, p.batch, [i]) {
      assert s.rows[[i][0]].Due(s.now);
    }
  }
}
