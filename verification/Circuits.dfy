/** Chains of joins, independent of what makes one lead to the next: a track says where each join leads and which
    joins are satisfied. A chain that is long enough comes round. */
module Circuits {
  import opened Core
  import opened Trails

  /** A join on a chain, with the joins the chain has led to over no items so far. */
  datatype Place = Place(join: Node, emptied: set<NodeId>)

  datatype Track = Track(lead: NodeId -> Lead, ok: Place -> bool)

  function PlaceOf(lead: Lead, emptied: set<NodeId>): Place
    requires lead.ToJoin?
  {
    Place(lead.join, emptied + Emptied(lead))
  }

  function NextPlace(w: Track, at: Place): Option<Place> {
    var lead := w.lead(at.join.id);
    if lead.ToJoin? then Some(PlaceOf(lead, at.emptied)) else None
  }

  /** Where the chain is after `n` joins, whether they are satisfied or not. */
  function PlaceAfter(w: Track, at: Place, n: nat): Option<Place>
    decreases n
  {
    if n == 0 then Some(at)
    else if NextPlace(w, at).None? then None
    else PlaceAfter(w, NextPlace(w, at).value, n - 1)
  }

  predicate PassedAfter(w: Track, at: Place, n: nat) {
    PlaceAfter(w, at, n).Some? && w.ok(PlaceAfter(w, at, n).value)
  }

  /** The first `n` joins and one more are satisfied. */
  ghost predicate PassesUpTo(w: Track, at: Place, n: nat) {
    forall k: nat :: k <= n ==> PassedAfter(w, at, k)
  }

  lemma PassesStep(w: Track, at: Place, n: nat)
    requires n > 0
    ensures PassesUpTo(w, at, n) <==> w.ok(at) && NextPlace(w, at).Some? && PassesUpTo(w, NextPlace(w, at).value, n - 1)
  {
    assert PlaceAfter(w, at, 0) == Some(at);
    if PassesUpTo(w, at, n) {
      assert PassedAfter(w, at, 0) && PassedAfter(w, at, 1);
      var next := NextPlace(w, at).value;
      forall k: nat | k <= n - 1 ensures PassedAfter(w, next, k) {
        assert PassedAfter(w, at, k + 1);
      }
    }
    if w.ok(at) && NextPlace(w, at).Some? && PassesUpTo(w, NextPlace(w, at).value, n - 1) {
      var next := NextPlace(w, at).value;
      forall k: nat | k <= n ensures PassedAfter(w, at, k) {
        if k > 0 {
          assert PassedAfter(w, next, k - 1);
        }
      }
    }
  }

  /** Joins compose: from the `m`-th place on the chain is the chain of that place. */
  lemma {:induction false} PlacesCompose(w: Track, at: Place, m: nat, k: nat, mid: Place)
    requires m <= k && PlaceAfter(w, at, m) == Some(mid)
    ensures PlaceAfter(w, at, k) == PlaceAfter(w, mid, k - m)
    decreases m
  {
    if m > 0 {
      PlacesCompose(w, NextPlace(w, at).value, m - 1, k - 1, mid);
    }
  }

  /** The chain comes round: it is at one and the same place after `m` and after `n` joins, and every join before
      that is satisfied. */
  predicate ComesRound(w: Track, at: Place, m: nat, n: nat) {
    && m < n && PlaceAfter(w, at, m).Some? && PlaceAfter(w, at, n) == PlaceAfter(w, at, m)
    && forall k: nat :: k < n ==> PassedAfter(w, at, k)
  }

  /** Once round, always round. */
  lemma {:induction false} RoundAndRound(w: Track, at: Place, m: nat, n: nat, k: nat)
    requires ComesRound(w, at, m, n)
    ensures PassedAfter(w, at, k)
    decreases k
  {
    if k >= n {
      var mid, earlier := PlaceAfter(w, at, m).value, k - (n - m);
      RoundAndRound(w, at, m, n, earlier);
      PlacesCompose(w, at, n, k, mid);
      PlacesCompose(w, at, m, earlier, mid);
    }
  }

  // ------------------------------------------------------------------ long chains come round

  /** Every lead is to one of the joins. */
  ghost predicate Within(w: Track, joins: set<Node>) {
    forall id :: w.lead(id).ToJoin? ==> w.lead(id).join in joins
  }

  lemma {:induction false} PlacesWithin(w: Track, joins: set<Node>, at: Place, n: nat)
    requires Within(w, joins) && at.join in joins && PlaceAfter(w, at, n).Some?
    ensures PlaceAfter(w, at, n).value.join in joins
    decreases n
  {
    if n > 0 {
      PlacesWithin(w, joins, NextPlace(w, at).value, n - 1);
    }
  }

  /** Pigeonhole: a sequence longer than the set its elements come from repeats itself. */
  lemma {:induction false} Repeats(xs: seq<Node>, from: set<Node>) returns (i: nat, j: nat)
    requires |xs| > |from| && forall k :: 0 <= k < |xs| ==> xs[k] in from
    ensures i < j < |xs| && xs[i] == xs[j]
    decreases |xs|
  {
    var init, last := xs[..|xs| - 1], xs[|xs| - 1];
    if last in init {
      i :| 0 <= i < |init| && init[i] == last;
      j := |xs| - 1;
    } else {
      assert |from - {last}| == |from| - 1;
      forall k | 0 <= k < |init| ensures init[k] in from - {last} {
        assert init[k] in init;
      }
      i, j := Repeats(init, from - {last});
    }
  }

  function Visited(w: Track, at: Place, n: nat): seq<Node>
    requires PassesUpTo(w, at, n)
  {
    seq(n + 1, k requires 0 <= k < n + 1 => assert PassedAfter(w, at, k); PlaceAfter(w, at, k).value.join)
  }

  /** A chain that satisfies more joins than there are meets one of them twice. */
  lemma MeetsAgain(w: Track, joins: set<Node>, at: Place) returns (i: nat, j: nat)
    requires Within(w, joins) && at.join in joins && PassesUpTo(w, at, |joins|)
    ensures i < j <= |joins| && PlaceAfter(w, at, i).Some? && PlaceAfter(w, at, j).Some?
    ensures PlaceAfter(w, at, i).value.join == PlaceAfter(w, at, j).value.join
  {
    var visited := Visited(w, at, |joins|);
    forall k | 0 <= k < |visited| ensures visited[k] in joins {
      assert PassedAfter(w, at, k);
      PlacesWithin(w, joins, at, k);
    }
    i, j := Repeats(visited, joins);
    assert PassedAfter(w, at, i) && PassedAfter(w, at, j);
    assert visited[i] == PlaceAfter(w, at, i).value.join && visited[j] == PlaceAfter(w, at, j).value.join;
  }

  /** Later places have been led to over no items at least as often. */
  lemma {:induction false} EmptiedGrows(w: Track, at: Place, n: nat)
    requires PlaceAfter(w, at, n).Some?
    ensures at.emptied <= PlaceAfter(w, at, n).value.emptied
    decreases n
  {
    if n > 0 {
      EmptiedGrows(w, NextPlace(w, at).value, n - 1);
    }
  }

  /** Going round a second time leads to no join over no items that the first time did not. */
  lemma {:induction false} SecondRound(w: Track, first: Place, second: Place, last: set<NodeId>, n: nat)
    requires first.join.id == second.join.id && first.emptied <= last == second.emptied
    requires PlaceAfter(w, first, n).Some? && PlaceAfter(w, first, n).value.emptied <= last
    ensures PlaceAfter(w, second, n).Some?
    ensures n > 0 ==> PlaceAfter(w, second, n) == Some(PlaceAfter(w, first, n).value.(emptied := last))
    decreases n
  {
    if n > 0 {
      var next1, next2 := NextPlace(w, first).value, NextPlace(w, second).value;
      EmptiedGrows(w, next1, n - 1);
      assert Emptied(w.lead(first.join.id)) <= next1.emptied <= last;
      assert next2 == next1.(emptied := last);
      SecondRound(w, next1, next2, last, n - 1);
    }
  }

  /** A chain at the same join twice is at the same place one round later. */
  lemma OneRoundLater(w: Track, at: Place, i: nat, j: nat, n: nat)
    requires i < j && n == j + (j - i) && PlaceAfter(w, at, i).Some? && PlaceAfter(w, at, j).Some?
    requires PlaceAfter(w, at, i).value.join == PlaceAfter(w, at, j).value.join
    ensures PlaceAfter(w, at, n) == PlaceAfter(w, at, j)
  {
    var first, second := PlaceAfter(w, at, i).value, PlaceAfter(w, at, j).value;
    PlacesCompose(w, at, i, j, first);
    PlacesCompose(w, at, j, n, second);
    EmptiedGrows(w, first, j - i);
    SecondRound(w, first, second, second.emptied, j - i);
  }

  /** A chain that satisfies twice as many joins as there are comes round. */
  lemma LongChainComesRound(w: Track, joins: set<Node>, at: Place, length: nat) returns (m: nat, n: nat)
    requires Within(w, joins) && at.join in joins && length >= 2 * |joins| && PassesUpTo(w, at, length)
    ensures ComesRound(w, at, m, n)
  {
    var i, j := MeetsAgain(w, joins, at);
    m, n := j, j + (j - i);
    OneRoundLater(w, at, i, j, n);
  }

  /** A chain that never comes back to a join satisfies at most all of them. */
  lemma AcyclicChainEnds(w: Track, joins: set<Node>, at: Place)
    requires Within(w, joins) && at.join in joins
    requires forall p, n: nat :: n > 0 && PlaceAfter(w, p, n).Some? ==> PlaceAfter(w, p, n).value.join != p.join
    ensures !PassesUpTo(w, at, |joins|)
  {
    if PassesUpTo(w, at, |joins|) {
      var i, j := MeetsAgain(w, joins, at);
      PlacesCompose(w, at, i, j, PlaceAfter(w, at, i).value);
    }
  }
}
