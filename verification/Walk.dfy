/** Walks through routing nodes, independent of what makes a node hop: a router says which nodes
    route, where each of them leads, and which of them leave a Merge fact. A chase follows a walk with
    a visited set and a depth bound. */
module Walk {
  import opened Core

  datatype Router = Router(routes: NodeId -> bool, hop: NodeId -> Option<NodeId>, merge: NodeId -> bool)

  /** Where the walk from `id` is after `n` hops, if it gets that far. */
  function WalkTo(w: Router, id: NodeId, n: nat): Option<NodeId>
    decreases n
  {
    if n == 0 then Some(id)
    else if !w.routes(id) || w.hop(id).None? then None
    else WalkTo(w, w.hop(id).value, n - 1)
  }

  /** The walk from `id` stops after exactly `n` hops, at a node that does not route. */
  predicate StopsAfter(w: Router, id: NodeId, n: nat) {
    WalkTo(w, id, n).Some? && !w.routes(WalkTo(w, id, n).value)
  }

  predicate StopsWithin(w: Router, id: NodeId, bound: int) {
    exists n: nat :: n <= bound && StopsAfter(w, id, n)
  }

  function Passed(w: Router, id: NodeId): seq<NodeId> {
    if w.merge(id) then [id] else []
  }

  /** Merge nodes among the first `n` nodes of the walk, in order. */
  function MergesOn(w: Router, id: NodeId, n: nat): seq<NodeId>
    decreases n
  {
    if n == 0 then []
    else if w.hop(id).None? then Passed(w, id)
    else Passed(w, id) + MergesOn(w, w.hop(id).value, n - 1)
  }

  /** Follow the walk, refusing a node seen before and any hop beyond the budget: the node it lands on,
      if any, and the Merge nodes it passed on the way. */
  function Chase(w: Router, id: NodeId, visited: set<NodeId>, budget: int): (Option<NodeId>, seq<NodeId>)
    decreases budget
  {
    if budget < 0 || id in visited then (None, [])
    else if !w.routes(id) then (Some(id), [])
    else if w.hop(id).None? then (None, Passed(w, id))
    else
      var (landed, merges) := Chase(w, w.hop(id).value, visited + {id}, budget - 1);
      (landed, Passed(w, id) + merges)
  }

  /** `hist` is the walk so far: each node hops to the next one and the last one to `target`. */
  ghost predicate Leads(w: Router, hist: seq<NodeId>, target: NodeId) {
    forall i :: 0 <= i < |hist| ==> w.routes(hist[i]) && w.hop(hist[i]) == Some((hist + [target])[i + 1])
  }

  /** Earlier nodes of the walk reach its present end. */
  lemma {:induction false} HistoryWalks(w: Router, hist: seq<NodeId>, target: NodeId, i: nat)
    requires Leads(w, hist, target) && i < |hist|
    ensures WalkTo(w, hist[i], |hist| - i) == Some(target)
    decreases |hist| - i
  {
    if i + 1 < |hist| {
      HistoryWalks(w, hist, target, i + 1);
    }
  }

  /** Hops compose. */
  lemma {:induction false} WalkPlus(w: Router, id: NodeId, m: nat, n: nat)
    requires WalkTo(w, id, m).Some?
    ensures WalkTo(w, id, m + n) == WalkTo(w, WalkTo(w, id, m).value, n)
    decreases m
  {
    if m > 0 {
      WalkPlus(w, w.hop(id).value, m - 1, n);
    }
  }

  /** A walk that comes back to its first node never stops. */
  lemma {:induction false} LoopNeverStops(w: Router, id: NodeId, period: nat, n: nat)
    requires period > 0 && WalkTo(w, id, period) == Some(id)
    ensures !StopsAfter(w, id, n)
    decreases n
  {
    if n < period {
      if WalkTo(w, id, n).Some? {
        WalkPlus(w, id, n, period - n);
      }
    } else {
      WalkPlus(w, id, period, n - period);
      LoopNeverStops(w, id, period, n - period);
    }
  }

  /** A chase from the middle of a walk is decided by the part still to come: the visited nodes only
      ever refuse walks that would never stop. */
  lemma {:induction false} ChaseFrom(w: Router, target: NodeId, hist: seq<NodeId>, visited: set<NodeId>, budget: int)
    requires Leads(w, hist, target) && visited == set x | x in hist
    ensures var (landed, merges) := Chase(w, target, visited, budget);
            && (forall n: nat :: n <= budget && StopsAfter(w, target, n) ==>
                  landed == WalkTo(w, target, n) && merges == MergesOn(w, target, n))
            && (!StopsWithin(w, target, budget) ==> landed.None?)
    decreases budget
  {
    if budget < 0 {
    } else if target in visited {
      var i :| 0 <= i < |hist| && hist[i] == target;
      HistoryWalks(w, hist, target, i);
      forall n: nat ensures !StopsAfter(w, target, n) {
        LoopNeverStops(w, target, |hist| - i, n);
      }
    } else if !w.routes(target) {
      assert StopsAfter(w, target, 0);
    } else if w.hop(target).Some? {
      var next := w.hop(target).value;
      ChaseFrom(w, next, hist + [target], visited + {target}, budget - 1);
      forall n: nat | StopsAfter(w, next, n) ensures StopsAfter(w, target, n + 1) {}
      forall n: nat | n <= budget && StopsAfter(w, target, n)
        ensures n > 0 && StopsAfter(w, next, n - 1)
        ensures WalkTo(w, target, n) == WalkTo(w, next, n - 1)
        ensures MergesOn(w, target, n) == Passed(w, target) + MergesOn(w, next, n - 1)
      {}
    }
  }

  /** Exactness of a chase: it lands where the walk stops if the walk stops within the budget, having
      passed exactly the Merge nodes of that walk, and lands nowhere otherwise. */
  lemma ChaseExact(w: Router, target: NodeId, budget: int)
    ensures var (landed, merges) := Chase(w, target, {}, budget);
            && (forall n: nat :: n <= budget && StopsAfter(w, target, n) ==>
                  landed == WalkTo(w, target, n) && merges == MergesOn(w, target, n))
            && (!StopsWithin(w, target, budget) ==> landed.None?)
  {
    ChaseFrom(w, target, [], {}, budget);
  }

  /** A walk stops at most once. */
  lemma {:induction false} StopsOnce(w: Router, id: NodeId, m: nat, n: nat)
    requires StopsAfter(w, id, m) && StopsAfter(w, id, n)
    ensures m == n
    decreases m
  {
    if m > 0 && n > 0 {
      StopsOnce(w, w.hop(id).value, m - 1, n - 1);
    }
  }

  /** Dropping the visited set changes where a chase lands for no target and no budget. */
  lemma {:induction false} VisitedSetIsRedundant(w: Router, target: NodeId, budget: int)
    ensures Chase(w, target, {}, budget).0 == Bounded(w, target, budget)
  {
    ChaseExact(w, target, budget);
    BoundedExact(w, target, budget);
    if StopsWithin(w, target, budget) {
      var n: nat :| n <= budget && StopsAfter(w, target, n);
    }
  }

  /** The chase without a visited set. */
  function Bounded(w: Router, id: NodeId, budget: int): Option<NodeId>
    decreases budget
  {
    if budget < 0 then None
    else if !w.routes(id) then Some(id)
    else if w.hop(id).None? then None
    else Bounded(w, w.hop(id).value, budget - 1)
  }

  lemma {:induction false} BoundedExact(w: Router, target: NodeId, budget: int)
    ensures forall n: nat :: n <= budget && StopsAfter(w, target, n) ==>
              Bounded(w, target, budget) == WalkTo(w, target, n)
    ensures !StopsWithin(w, target, budget) ==> Bounded(w, target, budget).None?
    decreases budget
  {
    if budget >= 0 && !w.routes(target) {
      assert StopsAfter(w, target, 0);
    } else if budget >= 0 && w.hop(target).Some? {
      var next := w.hop(target).value;
      BoundedExact(w, next, budget - 1);
      forall n: nat | StopsAfter(w, next, n) ensures StopsAfter(w, target, n + 1) {}
    }
  }
}
