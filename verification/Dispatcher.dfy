/** The outbox table as mutable state and the dispatcher's pass over it. */
module Dispatcher {
  import opened Core
  import opened Outbox

  /** A due row that no other poll has locked. */
  predicate Free(rows: seq<Row>, now: int, locked: set<nat>, i: nat)
    requires i < |rows|
  {
    rows[i].Due(now) && i !in locked
  }

  /** Of the free rows not yet picked, one with the least next attempt. */
  predicate Earliest(rows: seq<Row>, now: int, locked: set<nat>, taken: seq<nat>, i: nat) {
    && i < |rows| && i !in taken && Free(rows, now, locked, i)
    && forall j :: 0 <= j < |rows| && j !in taken && Free(rows, now, locked, j) ==> rows[i].nextAt <= rows[j].nextAt
  }

  class OutboxTable {
    var rows: seq<Row>

    constructor ()
      ensures rows == []
    {
      rows := [];
    }

    method Insert(max: int, now: int)
      modifies this
      ensures rows == old(rows) + [Outbox.Fresh(max, now)]
    {
      rows := rows + [Outbox.Fresh(max, now)];
    }

    /** Leases the earliest due rows, up to the limit, skipping those another poll has locked; no other is left out
        while there is room. */
    method PollDue(id: string, now: int, ttl: int, limit: nat, locked: set<nat>) returns (picked: seq<nat>)
      modifies this
      ensures Pickable(old(rows), now, limit, picked) && (forall k :: 0 <= k < |picked| ==> picked[k] !in locked)
      ensures rows == LeaseRows(old(rows), picked, id, now + ttl)
      ensures |picked| == limit || forall i :: 0 <= i < |rows| && Free(old(rows), now, locked, i) ==> i in picked
      ensures forall i, k :: 0 <= i < |rows| && i !in picked && Free(old(rows), now, locked, i) && 0 <= k < |picked| ==>
                old(rows)[picked[k]].nextAt <= old(rows)[i].nextAt
    {
      picked := [];
      while |picked| < limit
        invariant rows == old(rows)
        invariant Pickable(rows, now, limit, picked) && forall k :: 0 <= k < |picked| ==> picked[k] !in locked
        invariant forall i, k :: 0 <= i < |rows| && i !in picked && Free(rows, now, locked, i) && 0 <= k < |picked| ==>
                    rows[picked[k]].nextAt <= rows[i].nextAt
        decreases limit - |picked|
      {
        var next := NextDue(now, locked, picked);
        if next.None? {
          break;
        }
        picked := picked + [next.value];
      }
      rows := LeaseRows(rows, picked, id, now + ttl);
    }

    method NextDue(now: int, locked: set<nat>, picked: seq<nat>) returns (best: Option<nat>)
      ensures best.Some? ==> Earliest(rows, now, locked, picked, best.value)
      ensures best.None? ==> forall i :: 0 <= i < |rows| && Free(rows, now, locked, i) ==> i in picked
    {
      best := None;
      for i := 0 to |rows|
        invariant best.Some? ==> best.value < i && best.value !in picked && Free(rows, now, locked, best.value)
        invariant best.Some? ==> forall j :: 0 <= j < i && j !in picked && Free(rows, now, locked, j) ==>
                    rows[best.value].nextAt <= rows[j].nextAt
        invariant best.None? ==> forall j :: 0 <= j < i && Free(rows, now, locked, j) ==> j in picked
      {
        if i !in picked && Free(rows, now, locked, i) && (best.None? || rows[i].nextAt < rows[best.value].nextAt) {
          best := Some(i);
        }
      }
    }

    method MarkSucceeded(i: nat, id: string) returns (done: bool)
      modifies this
      ensures done == (i < |old(rows)| && old(rows)[i].OwnedBy(id))
      ensures rows == if done then old(rows)[i := Succeed(old(rows)[i])] else old(rows)
    {
      done := i < |rows| && rows[i].OwnedBy(id);
      if done {
        rows := rows[i := rows[i].(status := Succeeded, lease := None)];
      }
    }

    method MarkRetry(i: nat, id: string, now: int, backoff: int) returns (done: bool)
      modifies this
      ensures done == (i < |old(rows)| && old(rows)[i].OwnedBy(id))
      ensures rows == if done then old(rows)[i := Retry(old(rows)[i], now + backoff)] else old(rows)
    {
      done := i < |rows| && rows[i].OwnedBy(id);
      if done {
        rows := rows[i := rows[i].(status := RowStatus.Pending, attempts := rows[i].attempts + 1, lease := None,
                                   nextAt := now + backoff)];
      }
    }

    method MarkDeadLetter(i: nat, id: string) returns (done: bool)
      modifies this
      ensures done == (i < |old(rows)| && old(rows)[i].OwnedBy(id))
      ensures rows == if done then old(rows)[i := Bury(old(rows)[i])] else old(rows)
    {
      done := i < |rows| && rows[i].OwnedBy(id);
      if done {
        rows := rows[i := rows[i].(status := DeadLetter, attempts := rows[i].attempts + 1, lease := None)];
      }
    }
  }

  /** What the outside world does during a pass: how each delivery goes, whether each settling transaction
      commits, and the database clock when it does. */
  datatype World = World(delivery: nat -> Delivery, commits: nat -> bool, clock: nat -> int)

  ghost predicate ClockRuns(world: World, now: int) {
    now <= world.clock(0) && forall i, j :: 0 <= i <= j ==> world.clock(i) <= world.clock(j)
  }

  class OutboxDispatcher {
    const id: string
    const policy: Policy

    constructor (id: string, policy: Policy)
      ensures this.id == id && this.policy == policy
    {
      this.id := id;
      this.policy := policy;
    }

    method SettleFailure(table: OutboxTable, h: Held, result: Delivery, now: int)
      requires !result.Delivered? && h.row < |table.rows|
      modifies table
      ensures table.rows == Settled(policy, old(table.rows), h, id, result, now)
    {
      var exhausted := h.attempts + 1 >= h.max;
      var dead := result.Deterministic? || exhausted;
      var backoff := RetryBackoff(h.attempts, policy.base, policy.cap);
      if dead {
        var _ := table.MarkDeadLetter(h.row, id);
      } else {
        var _ := table.MarkRetry(h.row, id, now, AsI32(backoff));
      }
    }

    method SettleSuccess(table: OutboxTable, h: Held)
      requires h.row < |table.rows|
      modifies table
      ensures forall now :: table.rows == Settled(policy, old(table.rows), h, id, Delivered, now)
    {
      var _ := table.MarkSucceeded(h.row, id);
    }

    /** The first record still held is settled once its delivery is known; `commits` says whether the
        transaction went through. */
    method SettleHead(table: OutboxTable, rest: seq<Held>, result: Delivery, now: int, commits: bool,
                      ghost s: State, ghost steps: seq<Step>, ghost w: nat)
      requires rest != [] && rest[0].row < |table.rows|
      requires InRange(s) && w < |s.workers| && MidPass(policy, s, steps, w, id, rest, table.rows, now)
      modifies table
      ensures |table.rows| == |old(table.rows)|
      ensures MidPass(policy, s, steps + SettlingSteps(w, now, result, commits), w, id,
                      if commits then rest[1..] else [], table.rows, now)
    {
      PassContinues(policy, s, steps, w, id, rest, table.rows, now, result, commits);
      if commits {
        if result.Delivered? {
          SettleSuccess(table, rest[0]);
        } else {
          SettleFailure(table, rest[0], result, now);
        }
      }
    }

    method Lease(table: OutboxTable, now: int, locked: set<nat>, ghost s: State, ghost w: nat)
      returns (batch: seq<Held>, ghost poll: Step)
      requires InRange(s) && s.rows == table.rows && s.now == now
      requires w < |s.workers| && s.workers[w] == Worker(id, [], None)
      modifies table
      ensures poll.Poll? && poll.w == w && |poll.picked| == |batch| && |table.rows| == |s.rows|
      ensures forall k :: 0 <= k < |batch| ==> batch[k].row < |table.rows|
      ensures MidPass(policy, s, [poll], w, id, batch, table.rows, now)
    {
      var before := table.rows;
      var picked := table.PollDue(id, now, policy.ttl, policy.batch, locked);
      batch, poll := HeldOf(before, picked), Poll(w, picked);
      PassBegins(policy, s, w, picked);
    }

    /** One pass of a worker that nobody disturbs is a run of the protocol by that worker alone: a poll, then a
        delivery and a settling for each record, until the first settling transaction that fails. */
    method RunOnce(table: OutboxTable, now: int, locked: set<nat>, world: World, ghost s: State, ghost w: nat)
      returns (settled: nat, ok: bool, ghost steps: seq<Step>)
      requires InRange(s) && s.rows == table.rows && s.now == now && ClockRuns(world, now)
      requires w < |s.workers| && s.workers[w] == Worker(id, [], None)
      modifies table
      ensures MidPass(policy, s, steps, w, id, [], table.rows, world.clock(settled))
      ensures steps != [] && steps[0].Poll? && AllBelong(steps, w)
      ensures forall i :: 0 <= i < settled ==> world.commits(i)
      ensures ok ==> settled == |steps[0].picked|
      ensures !ok ==> settled < |steps[0].picked| && !world.commits(settled)
    {
      var batch, poll := Lease(table, now, locked, s, w);
      settled, ok, steps := 0, true, [poll];
      while settled < |batch|
        invariant settled <= |batch| == |poll.picked| && steps != [] && steps[0] == poll
        invariant AllBelong(steps, w)
        invariant forall i :: 0 <= i < settled ==> world.commits(i)
        invariant forall k :: 0 <= k < |batch| ==> batch[k].row < |table.rows|
        invariant MidPass(policy, s, steps, w, id, batch[settled..], table.rows, world.clock(settled))
      {
        var at := world.clock(settled);
        var result, commits := world.delivery(settled), world.commits(settled);
        assert batch[settled..][1..] == batch[settled + 1..];
        SettleHead(table, batch[settled..], result, at, commits, s, steps, w);
        StillBelong(steps, w, at, result, commits);
        steps := steps + SettlingSteps(w, at, result, commits);
        if !commits {
          ok := false;
          return;
        }
        settled := settled + 1;
        assert at <= world.clock(settled);
      }
      assert batch[settled..] == [];
    }
  }

  /** The rows once a record is settled by a worker, which counts only while the lease is the worker's. */
  function Settled(p: Policy, rows: seq<Row>, h: Held, id: string, result: Delivery, now: int): (r: seq<Row>)
    requires h.row < |rows|
    ensures |r| == |rows|
  {
    if rows[h.row].OwnedBy(id) then rows[h.row := SettleRow(p, rows[h.row], h, result, now)] else rows
  }

  predicate BelongsTo(step: Step, w: nat) {
    match step
    case Wait(_) => true
    case Enqueue(_) => false
    case Poll(v, _) => v == w
    case Deliver(v, _) => v == w
    case Settle(v, _) => v == w
    case Crash(_) => false
  }

  predicate AllBelong(steps: seq<Step>, w: nat) {
    forall k :: 0 <= k < |steps| ==> BelongsTo(steps[k], w)
  }

  lemma StillBelong(steps: seq<Step>, w: nat, at: int, result: Delivery, commits: bool)
    requires AllBelong(steps, w)
    ensures AllBelong(steps + SettlingSteps(w, at, result, commits), w)
  {
  }

  function SettlingSteps(w: nat, at: int, result: Delivery, commits: bool): seq<Step> {
    [Wait(at), Deliver(w, result), Settle(w, commits)]
  }

  /** The steps so far led to these rows, the worker still holding `rest` and everybody else as before. */
  ghost predicate MidPass(p: Policy, s: State, steps: seq<Step>, w: nat, id: string, rest: seq<Held>, rows: seq<Row>,
                          now: int)
    requires InRange(s) && w < |s.workers|
  {
    var cur := RunFrom(p, s, steps);
    cur.rows == rows && cur.now <= now && cur.workers == s.workers[w := Worker(id, rest, None)]
  }

  lemma PassBegins(p: Policy, s: State, w: nat, picked: seq<nat>)
    requires InRange(s) && Enabled(p, s, Poll(w, picked))
    ensures MidPass(p, s, [Poll(w, picked)], w, s.workers[w].id, HeldOf(s.rows, picked),
                    LeaseRows(s.rows, picked, s.workers[w].id, s.now + p.ttl), s.now)
  {
    RunFromCons(p, s, Poll(w, picked), []);
    assert [Poll(w, picked)] == [Poll(w, picked)] + [];
  }

  lemma PassContinues(p: Policy, s: State, steps: seq<Step>, w: nat, id: string, rest: seq<Held>, rows: seq<Row>,
                      at: int, result: Delivery, commits: bool)
    requires InRange(s) && w < |s.workers| && rest != [] && rest[0].row < |rows|
    requires MidPass(p, s, steps, w, id, rest, rows, at)
    ensures MidPass(p, s, steps + SettlingSteps(w, at, result, commits), w, id, if commits then rest[1..] else [],
                    if commits then Settled(p, rows, rest[0], id, result, at) else rows, at)
  {
    var cur := RunFrom(p, s, steps);
    SettlingRuns(p, cur, w, at, result, commits);
    RunFromAppend(p, s, steps, SettlingSteps(w, at, result, commits));
  }

  /** Delivering and settling the first record held. */
  lemma SettlingRuns(p: Policy, s: State, w: nat, at: int, result: Delivery, commits: bool)
    requires InRange(s) && w < |s.workers| && s.workers[w].batch != [] && s.workers[w].outcome.None? && s.now <= at
    ensures var me := s.workers[w];
            var s' := RunFrom(p, s, SettlingSteps(w, at, result, commits));
            && s'.now == at
            && s'.rows == (if commits then Settled(p, s.rows, me.batch[0], me.id, result, at) else s.rows)
            && s'.workers == s.workers[w := Worker(me.id, if commits then me.batch[1..] else [], None)]
  {
    var s1 := Next(p, s, Wait(at));
    var s2 := Next(p, s1, Deliver(w, result));
    RunFromCons(p, s, Wait(at), [Deliver(w, result), Settle(w, commits)]);
    RunFromCons(p, s1, Deliver(w, result), [Settle(w, commits)]);
    RunFromCons(p, s2, Settle(w, commits), []);
    assert [Wait(at), Deliver(w, result), Settle(w, commits)] == [Wait(at)] + [Deliver(w, result), Settle(w, commits)];
    assert [Deliver(w, result), Settle(w, commits)] == [Deliver(w, result)] + [Settle(w, commits)];
    assert [Settle(w, commits)] == [Settle(w, commits)] + [];
  }
}
