/** What every committed state keeps, one predicate per table: the log, the activity rows, the rework
    rounds and the timers. */
module Invariants {
  import opened Core
  import opened Facts
  import opened Replay
  import opened Database

  // ------------------------------------------------------------------ the log

  /** Sequence numbers run 1..n without gaps and no idempotency key occurs twice. */
  predicate LogOk(log: seq<Event>) {
    && (forall i :: 0 <= i < |log| ==> log[i].number == i + 1)
    && (forall i, j :: 0 <= i < j < |log| && log[i].key.Some? ==> log[i].key != log[j].key)
  }

  /** `log'` adds to `log` only facts without a key, and no timer fires. */
  predicate AddsPlain(log: seq<Event>, log': seq<Event>) {
    && log <= log'
    && forall i :: |log| <= i < |log'| ==> log'[i].key.None? && !log'[i].fact.TimerFired?
  }

  predicate AddsNoFire(log: seq<Event>, log': seq<Event>) {
    && log <= log'
    && forall i :: |log| <= i < |log'| ==> !log'[i].fact.TimerFired?
  }

  lemma {:induction false} MaxNumberOfDense(log: seq<Event>)
    requires forall i :: 0 <= i < |log| ==> log[i].number == i + 1
    ensures MaxNumber(log) == |log|
  {
    if log != [] {
      MaxNumberOfDense(log[..|log| - 1]);
    }
  }

  lemma AppendLog(d: Db, fact: Fact, key: Option<string>)
    requires LogOk(d.log) && (key.Some? ==> !KeySeen(d, key.value))
    ensures LogOk(Append(d, fact, key).log)
    ensures !fact.TimerFired? ==> AddsNoFire(d.log, Append(d, fact, key).log)
    ensures key.None? && !fact.TimerFired? ==> AddsPlain(d.log, Append(d, fact, key).log)
  {
    MaxNumberOfDense(d.log);
  }

  // ------------------------------------------------------------------ the activity rows

  /** Ids are positions, types come from the snapshot, and only a completed row carries a review. */
  predicate RowsOk(def: Definition, acts: seq<Activity>) {
    && Dense(acts)
    && forall i :: 0 <= i < |acts| ==>
         && FindNode(def.nodes, acts[i].node).Some?
         && acts[i].activityType == ActivityTypeFor(def, acts[i].node)
         && (!acts[i].status.Completed? ==> acts[i].result.None? && acts[i].notes.None? && acts[i].reviewer.None?)
  }

  // ------------------------------------------------------------------ the rounds

  /** Facts that open a new round. */
  predicate OpensRound(fact: Fact) {
    fact.ReturnedToRework? || fact.Reactivated?
  }

  function RoundsOpened(log: seq<Event>): nat {
    if log == [] then 0
    else RoundsOpened(log[..|log| - 1]) + (if OpensRound(log[|log| - 1].fact) then 1 else 0)
  }

  predicate RoundsIn(acts: seq<Activity>, lo: int, hi: int) {
    forall i :: 0 <= i < |acts| ==> lo <= acts[i].round <= hi
  }

  /** Rounds lie between 1 and the limit, and every round above the first was opened by one hand-back
      or one resubmit. */
  predicate RoundsOk(limit: int, acts: seq<Activity>, log: seq<Event>) {
    RoundsIn(acts, 1, limit) && MaxRound(acts) == RoundsOpened(log) + 1
  }

  lemma {:induction false} MaxRoundIsMax(acts: seq<Activity>)
    ensures forall i :: 0 <= i < |acts| ==> acts[i].round <= MaxRound(acts)
    ensures MaxRound(acts) == 0 || exists i :: 0 <= i < |acts| && acts[i].round == MaxRound(acts)
  {
    if acts != [] {
      MaxRoundIsMax(acts[..|acts| - 1]);
    }
  }

  /** The highest round depends on the rounds alone. */
  lemma {:induction false} MaxRoundByRounds(a: seq<Activity>, b: seq<Activity>)
    requires |a| == |b| && forall i :: 0 <= i < |a| ==> a[i].round == b[i].round
    ensures MaxRound(a) == MaxRound(b)
  {
    if a != [] {
      MaxRoundByRounds(a[..|a| - 1], b[..|b| - 1]);
    }
  }

  lemma MaxRoundPush(acts: seq<Activity>, a: Activity)
    ensures MaxRound(acts + [a]) == if a.round > MaxRound(acts) then a.round else MaxRound(acts)
  {
    assert (acts + [a])[..|acts|] == acts;
  }

  lemma OpenedPush(log: seq<Event>, e: Event)
    ensures RoundsOpened(log + [e]) == RoundsOpened(log) + if OpensRound(e.fact) then 1 else 0
  {
    assert (log + [e])[..|log|] == log;
  }

  // ------------------------------------------------------------------ the timers

  /** A pending timer belongs to an active activity, and there is at most one timer per activity and
      kind, whatever became of it. */
  predicate TimersOk(timers: seq<TimerRow>, acts: seq<Activity>) {
    && (forall t :: 0 <= t < |timers| ==> timers[t].activity < |acts|)
    && (forall t :: 0 <= t < |timers| && timers[t].status.Pending? ==> acts[timers[t].activity].status.Active?)
    && (forall t, u :: 0 <= t < u < |timers| ==>
          timers[t].activity != timers[u].activity || timers[t].kind != timers[u].kind)
  }

  /** Fired and cancelled are final, and timers are never removed or re-aimed. */
  predicate TimersEvolve(old_: seq<TimerRow>, new_: seq<TimerRow>) {
    && |old_| <= |new_|
    && forall t :: 0 <= t < |old_| ==>
         && old_[t].activity == new_[t].activity && old_[t].kind == new_[t].kind
         && (!old_[t].status.Pending? ==> new_[t] == old_[t])
  }
}
