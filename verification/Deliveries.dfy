/** What a delivery costs: how often a record is delivered, against the attempts its row is charged. */
module Deliveries {
  import opened Core
  import opened Outbox

  // ------------------------------------------------------------------ counting

  /** The record a worker has delivered and not settled yet. */
  function InDoubt(w: Worker): Option<nat> {
    if w.batch != [] && w.outcome.Some? then Some(w.batch[0].row) else None
  }

  function One(b: bool): nat {
    if b then 1 else 0
  }

  /** Workers that have delivered the row and not settled it. */
  function InHand(ws: seq<Worker>, i: nat): nat {
    if ws == [] then 0 else One(InDoubt(ws[0]) == Some(i)) + InHand(ws[1..], i)
  }

  lemma {:induction false} InHandUpdate(ws: seq<Worker>, w: nat, me: Worker, i: nat)
    requires w < |ws|
    ensures InHand(ws[w := me], i) + One(InDoubt(ws[w]) == Some(i)) == InHand(ws, i) + One(InDoubt(me) == Some(i))
  {
    if w == 0 {
      assert ws[w := me][1..] == ws[1..];
    } else {
      assert ws[w := me][1..] == ws[1..][w - 1 := me];
      InHandUpdate(ws[1..], w - 1, me, i);
    }
  }

  lemma {:induction false} NoneInHand(ws: seq<Worker>, i: nat)
    requires forall w :: 0 <= w < |ws| ==> ws[w].batch == []
    ensures InHand(ws, i) == 0
  {
    if ws != [] {
      NoneInHand(ws[1..], i);
    }
  }

  /** The step delivers the row, whatever comes of it. */
  predicate Delivers(p: Policy, s: State, step: Step, i: nat) {
    step.Deliver? && Enabled(p, s, step) && s.workers[step.w].batch[0].row == i
  }

  /** The step gives a delivery of the row up without settling it: its transaction does not commit, the lease is
      another's by then, or the worker dies. */
  predicate Wastes(p: Policy, s: State, step: Step, i: nat)
    requires InRange(s)
  {
    match step
    case Settle(w, commits) =>
      && Enabled(p, s, step) && s.workers[w].batch[0].row == i
      && (!commits || !s.rows[i].OwnedBy(s.workers[w].id))
    case Crash(w) => Enabled(p, s, step) && InDoubt(s.workers[w]) == Some(i)
    case _ => false
  }

  function Tries(p: Policy, s: State, steps: seq<Step>, i: nat): nat
    requires InRange(s)
    decreases |steps|
  {
    if steps == [] then 0
    else
      StaysInRange(p, s, steps[0]);
      One(Delivers(p, s, steps[0], i)) + Tries(p, Next(p, s, steps[0]), steps[1..], i)
  }

  function Wasted(p: Policy, s: State, steps: seq<Step>, i: nat): nat
    requires InRange(s)
    decreases |steps|
  {
    if steps == [] then 0
    else
      StaysInRange(p, s, steps[0]);
      One(Wastes(p, s, steps[0], i)) + Wasted(p, Next(p, s, steps[0]), steps[1..], i)
  }

  /** Deliveries the row shows: its attempts, and the one that succeeded. */
  function Shown(r: Row): int {
    r.attempts + One(r.status.Succeeded?)
  }

  function ShownAt(s: State, i: nat): int {
    if i < |s.rows| then Shown(s.rows[i]) else 0
  }

  // ------------------------------------------------------------------ the balance

  lemma SettleShows(p: Policy, s: State, w: nat, commits: bool, i: nat)
    requires InRange(s) && Enabled(p, s, Settle(w, commits))
    ensures var mine := s.workers[w].batch[0].row == i;
            ShownAt(SettleHead(p, s, w, commits), i) + One(Wastes(p, s, Settle(w, commits), i))
                == ShownAt(s, i) + One(mine)
  {
  }

  lemma StepShows(p: Policy, s: State, step: Step, i: nat)
    requires InRange(s) && !step.Settle?
    ensures ShownAt(Next(p, s, step), i) == ShownAt(s, i)
  {
    if step.Poll? && Enabled(p, s, step) {
      assert forall k :: 0 <= k < |step.picked| ==> s.rows[step.picked[k]].Due(s.now);
    }
  }

  lemma StepInHand(p: Policy, s: State, step: Step, i: nat)
    requires InRange(s)
    ensures var settles := step.Settle? && Enabled(p, s, step) && s.workers[step.w].batch[0].row == i;
            InHand(Next(p, s, step).workers, i) + One(settles) + One(step.Crash? && Wastes(p, s, step, i))
            == InHand(s.workers, i) + One(Delivers(p, s, step, i))
  {
    if Enabled(p, s, step) {
      match step
      case Poll(w, picked) => InHandUpdate(s.workers, w, Next(p, s, step).workers[w], i);
      case Deliver(w, _) => InHandUpdate(s.workers, w, Next(p, s, step).workers[w], i);
      case Settle(w, _) => InHandUpdate(s.workers, w, Next(p, s, step).workers[w], i);
      case Crash(w) => InHandUpdate(s.workers, w, Next(p, s, step).workers[w], i);
      case _ =>
    }
  }

  lemma StepBalance(p: Policy, s: State, step: Step, i: nat)
    requires InRange(s)
    ensures var s' := Next(p, s, step);
            ShownAt(s', i) + InHand(s'.workers, i) + One(Wastes(p, s, step, i))
            == ShownAt(s, i) + InHand(s.workers, i) + One(Delivers(p, s, step, i))
  {
    StepInHand(p, s, step, i);
    if step.Settle? && Enabled(p, s, step) {
      SettleShows(p, s, step.w, step.commits, i);
    } else if !step.Settle? {
      StepShows(p, s, step, i);
    }
  }

  lemma {:induction false} RunBalance(p: Policy, s: State, steps: seq<Step>, i: nat)
    requires InRange(s)
    ensures var s' := RunFrom(p, s, steps);
            ShownAt(s', i) + InHand(s'.workers, i) + Wasted(p, s, steps, i)
            == ShownAt(s, i) + InHand(s.workers, i) + Tries(p, s, steps, i)
    decreases |steps|
  {
    if steps != [] {
      StaysInRange(p, s, steps[0]);
      StepBalance(p, s, steps[0], i);
      RunBalance(p, Next(p, s, steps[0]), steps[1..], i);
    }
  }

  /** Conservation: in every run each delivery of a row is charged to it as an attempt, is the one that succeeded, waits
      to be settled, or was given up. So every delivery costs an attempt, but for the one that succeeded, if and only if
      none was given up and none waits. */
  lemma DeliveriesBalance(p: Policy, ids: seq<string>, now: int, steps: seq<Step>, i: nat)
    requires i < |RunFrom(p, Initially(ids, now), steps).rows|
    ensures var s0 := Initially(ids, now);
            var s := RunFrom(p, s0, steps);
            var tries, wasted := Tries(p, s0, steps, i), Wasted(p, s0, steps, i);
            && tries == s.rows[i].attempts + One(s.rows[i].status.Succeeded?) + InHand(s.workers, i) + wasted
            && (tries == s.rows[i].attempts + One(s.rows[i].status.Succeeded?)
                <==> InHand(s.workers, i) == 0 && wasted == 0)
  {
    RunBalance(p, Initially(ids, now), steps, i);
    NoneInHand(Initially(ids, now).workers, i);
  }

  /** With distinct ids the budget therefore bounds the deliveries that are not given up, and only those. */
  lemma DeliveriesWithinBudget(p: Policy, ids: seq<string>, now: int, steps: seq<Step>, i: nat)
    requires forall v, w :: 0 <= v < w < |ids| ==> ids[v] != ids[w]
    requires i < |RunFrom(p, Initially(ids, now), steps).rows|
    ensures var s0 := Initially(ids, now);
            var s := RunFrom(p, s0, steps);
            Tries(p, s0, steps, i) <= Budget(s.rows[i].max) + InHand(s.workers, i) + Wasted(p, s0, steps, i)
  {
    DeliveriesBalance(p, ids, now, steps, i);
    RunBudgeted(p, Initially(ids, now), steps);
    assert WithinBudget(RunFrom(p, Initially(ids, now), steps).rows[i]);
  }

  // ------------------------------------------------------------------ no bound on deliveries given up

  /** The only row is unsettled without an attempt and due by then, and its worker idle; it has been delivered `n`
      times. */
  predicate Fruitless(s: State, w: nat, n: nat, due: int) {
    && InRange(s) && |s.rows| == 1 && w < |s.workers| && s.workers[w].batch == [] && s.now <= due
    && s.rows[0].attempts == 0 && !s.rows[0].Finished() && s.rows[0].Due(due) && s.tally[0].delivered == n
  }

  lemma InVainOnce(p: Policy, s: State, w: nat, n: nat, due: int)
    requires Fruitless(s, w, n, due) && p.batch >= 1
    ensures Fruitless(RunFrom(p, s, [Wait(due), Poll(w, [0])] + [Deliver(w, Delivered), Settle(w, false)]), w, n + 1,
                      Later(due, p.ttl) + 1)
  {
    PollLater(p, s, w, due);
    var s1 := RunFrom(p, s, [Wait(due), Poll(w, [0])]);
    var s2 := Next(p, s1, Deliver(w, Delivered));
    RunFromAppend(p, s, [Wait(due), Poll(w, [0])], [Deliver(w, Delivered), Settle(w, false)]);
    RunFromCons(p, s1, Deliver(w, Delivered), [Settle(w, false)]);
    RunFromCons(p, s2, Settle(w, false), []);
    assert [Deliver(w, Delivered), Settle(w, false)] == [Deliver(w, Delivered)] + [Settle(w, false)];
    assert [Settle(w, false)] == [Settle(w, false)] + [];
  }

  lemma {:induction false} InVain(p: Policy, s: State, w: nat, n: nat, due: int, more: nat)
    returns (steps: seq<Step>, at: int)
    requires Fruitless(s, w, n, due) && p.batch >= 1
    ensures Fruitless(RunFrom(p, s, steps), w, n + more, at)
    decreases more
  {
    if more == 0 {
      steps, at := [], due;
    } else {
      InVainOnce(p, s, w, n, due);
      var first := [Wait(due), Poll(w, [0])] + [Deliver(w, Delivered), Settle(w, false)];
      var rest: seq<Step>;
      rest, at := InVain(p, RunFrom(p, s, first), w, n + 1, Later(due, p.ttl) + 1, more - 1);
      RunFromAppend(p, s, first, rest);
      steps := first + rest;
    }
  }

  /** Deliveries given up are charged to nothing: even one worker that never crashes delivers a record any number of
      times, if its settling transaction goes on failing, and the row shows no attempt. */
  lemma DeliveredWithoutBound(p: Policy, ids: seq<string>, now: int, max: int, w: nat, n: nat)
    returns (steps: seq<Step>)
    requires w < |ids| && p.batch >= 1
    ensures var s := RunFrom(p, Initially(ids, now), steps);
            |s.rows| == 1 && s.tally[0].delivered == n && s.rows[0].attempts == 0 && !s.rows[0].Finished()
  {
    var s0 := Initially(ids, now);
    var s1 := Next(p, s0, Enqueue(max));
    RunFromCons(p, s0, Enqueue(max), []);
    assert [Enqueue(max)] == [Enqueue(max)] + [];
    assert Fruitless(s1, w, 0, now);
    var rest, _ := InVain(p, s1, w, 0, now, n);
    RunFromAppend(p, s0, [Enqueue(max)], rest);
    steps := [Enqueue(max)] + rest;
  }
}
