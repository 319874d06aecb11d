/** Registration of plugins and the rounds in which they are built. */
module Plugins {
  import opened Core

  datatype Plugin = Plugin(name: string, dependencies: seq<string>, immediately: bool)

  /** Plugins by name. */
  type Registry = map<string, Plugin>

  predicate Keyed(registry: Registry) {
    forall name :: name in registry ==> registry[name].name == name
  }

  predicate DepsIn(p: Plugin, built: seq<string>) {
    forall i :: 0 <= i < |p.dependencies| ==> p.dependencies[i] in built
  }

  /** Every plugin exactly once, each after everything it depends on. */
  ghost predicate IsBuildOrder(registry: Registry, order: seq<string>) {
    && (forall i, j :: 0 <= i < j < |order| ==> order[i] != order[j])
    && (forall name :: name in registry <==> name in order)
    && forall i :: 0 <= i < |order| ==> DepsIn(registry[order[i]], order[..i])
  }

  ghost predicate Orderable(registry: Registry) {
    exists order :: IsBuildOrder(registry, order)
  }

  /** Some order in which a registry hands out its plugins. */
  predicate Enumerates(plugins: seq<Plugin>, registry: Registry) {
    && (forall i, j :: 0 <= i < j < |plugins| ==> plugins[i].name != plugins[j].name)
    && (forall i :: 0 <= i < |plugins| ==> plugins[i].name in registry && registry[plugins[i].name] == plugins[i])
    && forall name :: name in registry ==> exists i :: 0 <= i < |plugins| && plugins[i].name == name
  }

  // ------------------------------------------------------------------ why a round makes no progress

  predicate Pending(plugins: seq<Plugin>, name: string) {
    exists i :: 0 <= i < |plugins| && plugins[i].name == name
  }

  /** Every plugin of the registry is built or pending, and each pending one waits for something not built. */
  predicate Stuck(registry: Registry, built: seq<string>, pending: seq<Plugin>) {
    && pending != [] && Covered(registry, built, pending)
    && forall i :: 0 <= i < |pending| ==> !DepsIn(pending[i], built)
  }

  /** Every plugin of the registry is built or pending. */
  predicate Covered(registry: Registry, built: seq<string>, pending: seq<Plugin>) {
    && (forall name :: name in registry ==> name in built || Pending(pending, name))
    && forall i :: 0 <= i < |pending| ==> pending[i].name in registry && registry[pending[i].name] == pending[i]
  }

  /** The first pending plugin of an order has all its dependencies built. */
  lemma OrderHasNext(registry: Registry, built: seq<string>, pending: seq<Plugin>, order: seq<string>) returns (i: nat)
    requires IsBuildOrder(registry, order) && Covered(registry, built, pending) && pending != []
    ensures i < |pending| && DepsIn(pending[i], built)
  {
    assert pending[0].name in order;
    var k := FirstPending(pending, order);
    i :| 0 <= i < |pending| && pending[i].name == order[k];
    forall d | 0 <= d < |pending[i].dependencies| ensures pending[i].dependencies[d] in built {
      var dep := pending[i].dependencies[d];
      assert dep in order[..k];
      var j :| 0 <= j < k && order[j] == dep;
      assert order[j] in registry;
    }
  }

  /** A round without progress means no order exists. */
  lemma StuckHasNoOrder(registry: Registry, built: seq<string>, pending: seq<Plugin>, order: seq<string>)
    requires Stuck(registry, built, pending)
    ensures !IsBuildOrder(registry, order)
  {
    if IsBuildOrder(registry, order) {
      var _ := OrderHasNext(registry, built, pending, order);
    }
  }

  lemma {:induction false} FirstPending(pending: seq<Plugin>, order: seq<string>) returns (k: nat)
    requires pending != [] && pending[0].name in order
    ensures k < |order| && Pending(pending, order[k])
    ensures forall j :: 0 <= j < k ==> !Pending(pending, order[j])
  {
    if Pending(pending, order[0]) {
      k := 0;
    } else {
      assert order == [order[0]] + order[1..];
      var k' := FirstPending(pending, order[1..]);
      k := k' + 1;
      forall j | 0 <= j < k ensures !Pending(pending, order[j]) {
        if j > 0 {
          assert order[j] == order[1..][j - 1];
        }
      }
    }
  }

  // ------------------------------------------------------------------ the builder

  class ApplicationBuilder {
    var registry: Registry
    var built: seq<string>

    ghost predicate Valid()
      reads this
    {
      Keyed(registry)
    }

    constructor ()
      ensures Valid() && registry == map[] && built == []
    {
      registry := map[];
      built := [];
    }

    /** Refused, which is a panic, only for a name already taken; an immediate plugin is built on the spot and
        not registered. */
    method AddPlugin(p: Plugin) returns (ok: bool)
      requires Valid()
      modifies this
      ensures Valid()
      ensures ok <==> p.immediately || p.name !in old(registry)
      ensures registry == if ok && !p.immediately then old(registry)[p.name := p] else old(registry)
      ensures built == if p.immediately then old(built) + [p.name] else old(built)
    {
      if p.immediately {
        built := built + [p.name];
        return true;
      }
      if p.name in registry {
        return false;
      }
      registry := registry[p.name := p];
      return true;
    }

    /** One round: each plugin in turn is built if everything it depends on is, else deferred. */
    method BuildRound(toRegister: seq<Plugin>, registered: seq<string>)
      returns (nowRegistered: seq<string>, nextRound: seq<Plugin>)
      modifies this`built
      ensures (nowRegistered, nextRound) == Round(toRegister, registered, [])
      ensures |registered| <= |nowRegistered| && built == old(built) + nowRegistered[|registered|..]
    {
      nowRegistered, nextRound := registered, [];
      for i := 0 to |toRegister|
        invariant Round(toRegister[i..], nowRegistered, nextRound) == Round(toRegister, registered, [])
        invariant |registered| <= |nowRegistered| && built == old(built) + nowRegistered[|registered|..]
      {
        var plugin := toRegister[i];
        assert toRegister[i..][0] == plugin && toRegister[i..][1..] == toRegister[i + 1..];
        if DepsIn(plugin, nowRegistered) {
          built := built + [plugin.name];
          nowRegistered := nowRegistered + [plugin.name];
        } else {
          nextRound := nextRound + [plugin];
        }
      }
    }

    /** Builds the registered plugins in rounds, whatever order the registry hands them out in. It succeeds
        exactly when some order respects the dependencies, and then the plugins were built in such an order; it
        panics otherwise, the registry being lost. */
    method BuildPlugins(handedOut: seq<Plugin>) returns (ok: bool)
      requires Valid() && Enumerates(handedOut, registry)
      modifies this
      ensures ok <==> Orderable(old(registry))
      ensures ok <==> !HasMissing(old(registry)) && !HasCycle(old(registry))
      ensures ok ==> registry == old(registry) && old(built) <= built && IsBuildOrder(registry, built[|old(built)|..])
      ensures !ok ==> registry == map[]
    {
      var taken := registry;
      registry := map[];
      var toRegister := handedOut;
      var registered: seq<string> := [];
      while toRegister != []
        invariant registry == map[] && built == old(built) + registered
        invariant Rounds(toRegister, registered) == Rounds(handedOut, [])
        decreases |toRegister|
      {
        var nowRegistered, nextRound := BuildRound(toRegister, registered);
        var progress := |nowRegistered| > |registered|;
        if !progress {
          HandedOutBegins(taken, handedOut);
          RoundsExact(taken, handedOut, []);
          OrderableExactly(taken, handedOut);
          return false;
        }
        toRegister, registered := nextRound, nowRegistered;
      }
      HandedOutBegins(taken, handedOut);
      RoundsExact(taken, handedOut, []);
      OrderableExactly(taken, handedOut);
      registry := taken;
      assert built[|old(built)|..] == registered;
      return true;
    }
  }

  /** Order in which all plugins are built, if every round makes progress. */
  function Rounds(toRegister: seq<Plugin>, registered: seq<string>): Option<seq<string>>
    decreases |toRegister|
  {
    if toRegister == [] then Some(registered)
    else
      var (nowRegistered, nextRound) := Round(toRegister, registered, []);
      if |nowRegistered| == |registered| then None else Rounds(nextRound, nowRegistered)
  }

  lemma HandedOutBegins(registry: Registry, handedOut: seq<Plugin>)
    requires Enumerates(handedOut, registry)
    ensures RoundState(registry, [], handedOut)
  {
  }

  /** The rounds fail only in a state where nothing can be built. */
  lemma {:induction false} RoundsGetStuck(registry: Registry, toRegister: seq<Plugin>, registered: seq<string>)
    returns (built: seq<string>, pending: seq<Plugin>)
    requires RoundState(registry, registered, toRegister) && Rounds(toRegister, registered).None?
    ensures Stuck(registry, built, pending)
    decreases |toRegister|
  {
    var (nowRegistered, nextRound) := Round(toRegister, registered, []);
    assert [] + toRegister == toRegister;
    RoundKeeps(registry, toRegister, registered, []);
    if |nowRegistered| == |registered| {
      built, pending := registered, toRegister;
    } else {
      built, pending := RoundsGetStuck(registry, nextRound, nowRegistered);
    }
  }

  lemma {:induction false} RoundsFindOrder(registry: Registry, toRegister: seq<Plugin>, registered: seq<string>)
    requires RoundState(registry, registered, toRegister) && Rounds(toRegister, registered).Some?
    ensures IsBuildOrder(registry, Rounds(toRegister, registered).value)
    decreases |toRegister|
  {
    if toRegister != [] {
      var (nowRegistered, nextRound) := Round(toRegister, registered, []);
      assert [] + toRegister == toRegister;
      RoundKeeps(registry, toRegister, registered, []);
      RoundsFindOrder(registry, nextRound, nowRegistered);
    }
  }

  /** The rounds find an order exactly when there is one. */
  lemma RoundsExact(registry: Registry, toRegister: seq<Plugin>, registered: seq<string>)
    requires RoundState(registry, registered, toRegister)
    ensures match Rounds(toRegister, registered)
            case Some(order) => IsBuildOrder(registry, order)
            case None => !Orderable(registry)
  {
    if Rounds(toRegister, registered).Some? {
      RoundsFindOrder(registry, toRegister, registered);
    } else {
      var built, pending := RoundsGetStuck(registry, toRegister, registered);
      forall order ensures !IsBuildOrder(registry, order) {
        StuckHasNoOrder(registry, built, pending, order);
      }
    }
  }

  // ------------------------------------------------------------------ what makes a registry unorderable

  /** A plugin depends on one that is not registered. */
  predicate HasMissing(registry: Registry) {
    exists name :: name in registry
        && exists i :: 0 <= i < |registry[name].dependencies| && registry[name].dependencies[i] !in registry
  }

  predicate DependsOn(registry: Registry, name: string, dep: string) {
    name in registry && dep in registry[name].dependencies
  }

  predicate Chain(registry: Registry, path: seq<string>) {
    forall k :: 0 <= k < |path| - 1 ==> DependsOn(registry, path[k], path[k + 1])
  }

  /** A plugin depends, through others or directly, on itself. */
  ghost predicate HasCycle(registry: Registry) {
    exists path :: |path| > 1 && path[0] == path[|path| - 1] && Chain(registry, path)
  }

  /** Along a chain of dependencies the places in an order go down. */
  lemma {:induction false} ChainDescends(registry: Registry, order: seq<string>, path: seq<string>)
    returns (first: nat, last: nat)
    requires IsBuildOrder(registry, order) && path != [] && Chain(registry, path) && path[0] in order
    ensures first < |order| && order[first] == path[0] && last < |order| && order[last] == path[|path| - 1]
    ensures if |path| > 1 then last < first else last == first
    decreases |path|
  {
    first :| 0 <= first < |order| && order[first] == path[0];
    last := first;
    if |path| > 1 {
      assert DependsOn(registry, path[0], path[1]);
      assert path[1] in order[..first] by {
        var i :| 0 <= i < |registry[path[0]].dependencies| && registry[path[0]].dependencies[i] == path[1];
        assert DepsIn(registry[order[first]], order[..first]);
      }
      var j :| 0 <= j < first && order[j] == path[1];
      assert Chain(registry, path[1..]) by {
        forall k | 0 <= k < |path| - 2 ensures DependsOn(registry, path[1..][k], path[1..][k + 1]) {
          assert DependsOn(registry, path[k + 1], path[k + 2]);
        }
      }
      var next, end := ChainDescends(registry, order, path[1..]);
      assert next == j;
      last := end;
    }
  }

  lemma OrderHasNoDefect(registry: Registry, order: seq<string>)
    requires IsBuildOrder(registry, order)
    ensures !HasMissing(registry) && !HasCycle(registry)
  {
    forall name, i | name in registry && 0 <= i < |registry[name].dependencies|
      ensures registry[name].dependencies[i] in registry
    {
      assert name in order;
      var k :| 0 <= k < |order| && order[k] == name;
      assert DepsIn(registry[order[k]], order[..k]);
      assert registry[name].dependencies[i] in order;
    }
    if HasCycle(registry) {
      var path :| |path| > 1 && path[0] == path[|path| - 1] && Chain(registry, path);
      assert DependsOn(registry, path[0], path[1]);
      var first, last := ChainDescends(registry, order, path);
      assert false;
    }
  }

  lemma WaitsForPending(registry: Registry, built: seq<string>, pending: seq<Plugin>, name: string)
    returns (dep: string)
    requires Stuck(registry, built, pending) && !HasMissing(registry) && Pending(pending, name)
    ensures DependsOn(registry, name, dep) && Pending(pending, dep) && dep in registry
  {
    var i :| 0 <= i < |pending| && pending[i].name == name;
    var d :| 0 <= d < |pending[i].dependencies| && pending[i].dependencies[d] !in built;
    dep := registry[name].dependencies[d];
  }

  /** Stuck with nothing missing, every pending plugin waits for a pending one, as far as one likes. */
  lemma {:induction false} WaitingChain(registry: Registry, built: seq<string>, pending: seq<Plugin>, n: nat)
    returns (path: seq<string>)
    requires Stuck(registry, built, pending) && !HasMissing(registry)
    ensures |path| == n + 1 && Chain(registry, path) && Pending(pending, path[n])
    ensures forall k :: 0 <= k < |path| ==> path[k] in registry
  {
    if n == 0 {
      path := [pending[0].name];
    } else {
      var shorter := WaitingChain(registry, built, pending, n - 1);
      var dep := WaitsForPending(registry, built, pending, shorter[n - 1]);
      path := shorter + [dep];
      ChainPush(registry, shorter, dep);
    }
  }

  lemma ChainPush(registry: Registry, path: seq<string>, dep: string)
    requires path != [] && Chain(registry, path) && DependsOn(registry, path[|path| - 1], dep)
    ensures Chain(registry, path + [dep])
  {
    var longer := path + [dep];
    forall k | 0 <= k < |longer| - 1 ensures DependsOn(registry, longer[k], longer[k + 1]) {
      assert k < |path| - 1 ==> DependsOn(registry, path[k], path[k + 1]);
    }
  }

  lemma {:induction false} Pigeonhole(path: seq<string>, names: set<string>) returns (i: nat, j: nat)
    requires |path| > |names| && forall k :: 0 <= k < |path| ==> path[k] in names
    ensures i < j < |path| && path[i] == path[j]
    decreases |path|
  {
    if j' :| 1 <= j' < |path| && path[j'] == path[0] {
      i, j := 0, j';
    } else {
      forall k | 0 <= k < |path[1..]| ensures path[1..][k] in names - {path[0]} {
        assert path[1..][k] == path[k + 1];
      }
      i, j := Pigeonhole(path[1..], names - {path[0]});
      i, j := i + 1, j + 1;
    }
  }

  /** A chain long enough comes back to a plugin it has passed. */
  lemma LongChainCycles(registry: Registry, path: seq<string>)
    requires Chain(registry, path) && |path| > |registry.Keys| && forall k :: 0 <= k < |path| ==> path[k] in registry
    ensures HasCycle(registry)
  {
    var i, j := Pigeonhole(path, registry.Keys);
    var cycle := path[i..j + 1];
    ChainSlice(registry, path, i, j + 1);
    assert cycle[0] == cycle[|cycle| - 1];
  }

  lemma ChainSlice(registry: Registry, path: seq<string>, i: nat, j: nat)
    requires Chain(registry, path) && i <= j <= |path|
    ensures Chain(registry, path[i..j])
  {
    forall k | 0 <= k < j - i - 1 ensures DependsOn(registry, path[i..j][k], path[i..j][k + 1]) {
      assert DependsOn(registry, path[i + k], path[i + k + 1]);
    }
  }

  lemma StuckHasCycle(registry: Registry, built: seq<string>, pending: seq<Plugin>)
    requires Stuck(registry, built, pending) && !HasMissing(registry)
    ensures HasCycle(registry)
  {
    var path := WaitingChain(registry, built, pending, |registry.Keys|);
    LongChainCycles(registry, path);
  }

  /** Plugin ordering: a registry can be built exactly when no plugin depends on an unregistered one and no
      plugin depends on itself in a circle. */
  lemma OrderableExactly(registry: Registry, handedOut: seq<Plugin>)
    requires Enumerates(handedOut, registry)
    ensures Orderable(registry) <==> !HasMissing(registry) && !HasCycle(registry)
  {
    HandedOutBegins(registry, handedOut);
    RoundsExact(registry, handedOut, []);
    if Rounds(handedOut, []).Some? {
      OrderHasNoDefect(registry, Rounds(handedOut, []).value);
    } else if !HasMissing(registry) {
      var built, pending := RoundsGetStuck(registry, handedOut, []);
      StuckHasCycle(registry, built, pending);
    }
  }

  /** Between two builds: what is built so far is in order, and every plugin of the registry is built or among
      the rest, and not both. */
  predicate RoundState(registry: Registry, built: seq<string>, rest: seq<Plugin>) {
    && (forall i, j :: 0 <= i < j < |built| ==> built[i] != built[j])
    && (forall i :: 0 <= i < |built| ==> built[i] in registry && DepsIn(registry[built[i]], built[..i]))
    && (forall i, j :: 0 <= i < j < |rest| ==> rest[i].name != rest[j].name)
    && (forall i :: 0 <= i < |rest| ==>
          rest[i].name in registry && registry[rest[i].name] == rest[i] && rest[i].name !in built)
    && forall name :: name in registry ==> name in built || Pending(rest, name)
  }

  /** What a round leaves: the plugins built so far and those deferred to the next. */
  function Round(waiting: seq<Plugin>, registered: seq<string>, deferred: seq<Plugin>): (r: (seq<string>, seq<Plugin>))
    ensures |r.0| - |registered| == |deferred| + |waiting| - |r.1| && registered <= r.0
    decreases |waiting|
  {
    if waiting == [] then (registered, deferred)
    else if DepsIn(waiting[0], registered) then Round(waiting[1..], registered + [waiting[0].name], deferred)
    else Round(waiting[1..], registered, deferred + [waiting[0]])
  }

  lemma {:induction false} RoundKeeps(registry: Registry, waiting: seq<Plugin>, registered: seq<string>,
                                      deferred: seq<Plugin>)
    requires RoundState(registry, registered, deferred + waiting)
    ensures var (built, next) := Round(waiting, registered, deferred);
            && RoundState(registry, built, next)
            && (|built| == |registered| ==>
                  next == deferred + waiting && forall j :: 0 <= j < |waiting| ==> !DepsIn(waiting[j], registered))
    decreases |waiting|
  {
    if waiting == [] {
      assert deferred + waiting == deferred;
    } else {
      var p, later := waiting[0], waiting[1..];
      assert deferred + waiting == deferred + [p] + later;
      if DepsIn(p, registered) {
        Builds(registry, registered, deferred, p, later);
        RoundKeeps(registry, later, registered + [p.name], deferred);
      } else {
        RoundKeeps(registry, later, registered, deferred + [p]);
      }
    }
  }

  lemma Builds(registry: Registry, built: seq<string>, deferred: seq<Plugin>, p: Plugin, later: seq<Plugin>)
    requires RoundState(registry, built, deferred + [p] + later) && DepsIn(p, built)
    ensures RoundState(registry, built + [p.name], deferred + later)
  {
    var rest, rest', built', at := deferred + [p] + later, deferred + later, built + [p.name], |deferred|;
    forall i | 0 <= i < |rest'| ensures rest'[i] == rest[if i < at then i else i + 1] {
    }
    assert rest[at] == p;
    forall name | name in registry ensures name in built' || Pending(rest', name) {
      if name !in built' {
        var k :| 0 <= k < |rest| && rest[k].name == name;
        assert rest'[if k < at then k else k - 1] == rest[k];
      }
    }
    forall i | 0 <= i < |built'| ensures built'[i] in registry && DepsIn(registry[built'[i]], built'[..i]) {
      assert built'[..i] == built[..i];
    }
  }
}
