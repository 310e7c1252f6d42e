/** Multipass activation of presenters, and taking them down in reverse. */
module Presenters {
  import opened Basics

  type PresenterId = nat

  /** A presenter is ready when everything it waits on is loaded; `creates` is the native creation's outcome. */
  datatype Behaviour = Behaviour(waits: PresenterId -> set<PresenterId>, creates: PresenterId -> bool)

  /** What each pass finds when it asks: the live presenters, in the order of the walk, and how they behave. */
  datatype Environment = Environment(live: nat -> seq<PresenterId>, behaviour: nat -> Behaviour)

  /** Loading presenters changes nothing about which are live and how they behave. */
  ghost predicate Steady(env: Environment) {
    forall k: nat {:trigger env.live(k)} {:trigger env.behaviour(k)} ::
      env.live(k) == env.live(0) && env.behaviour(k) == env.behaviour(0)
  }

  type Loaded = map<PresenterId, nat>

  predicate Ready(b: Behaviour, loaded: Loaded, p: PresenterId) {
    b.waits(p) <= loaded.Keys
  }

  /** Load orders below the counter, no two alike. */
  ghost predicate Numbered(loaded: Loaded, next: nat) {
    && 0 < next && (forall p :: p in loaded ==> 0 < loaded[p] < next)
    && (forall p, q :: p in loaded && q in loaded && p != q ==> loaded[p] != loaded[q])
  }

  /** Every presenter of `which` that is loaded was loaded after all it waits on. */
  ghost predicate After(b: Behaviour, loaded: Loaded, which: set<PresenterId>) {
    forall p, w :: p in which && p in loaded && w in b.waits(p) ==> w in loaded && loaded[w] < loaded[p]
  }

  /** The waiting relation of the presenters still to load is acyclic, stays among them, and creation works. */
  ghost predicate Activatable(b: Behaviour, live: seq<PresenterId>, loaded: Loaded) {
    exists rank: map<PresenterId, nat> :: Ranked(b, live, loaded, rank)
  }

  ghost predicate Ranked(b: Behaviour, live: seq<PresenterId>, loaded: Loaded, rank: map<PresenterId, nat>) {
    forall p :: p in live && p !in loaded ==>
      && p in rank && b.creates(p)
      && forall w :: w in b.waits(p) ==> w in loaded || (w in live && w in rank && rank[w] < rank[p])
  }

  /** With nothing more to load, a ranked graph is loaded completely: look at an unloaded one of least rank. */
  lemma {:induction false} NothingStuck(b: Behaviour, live: seq<PresenterId>, start: Loaded, loaded: Loaded,
      rank: map<PresenterId, nat>, p: PresenterId)
    requires Ranked(b, live, start, rank) && start.Keys <= loaded.Keys && Exhausted(b, live, loaded)
    requires p in live && p !in loaded
    ensures false
    decreases rank[p]
  {
    assert !Ready(b, loaded, p);
    var w :| w in b.waits(p) && w !in loaded;
    NothingStuck(b, live, start, loaded, rank, w);
  }

  class PresenterHost {
    var loaded: Loaded
    var nextOrder: nat
    var unloaded: seq<PresenterId>  // OnUnload calls of the last unloading, in order

    constructor ()
      ensures loaded == map[] && nextOrder == 1 && unloaded == []
    {
      loaded, nextOrder, unloaded := map[], 1, [];
    }

    /** One pass over the presenters that are live now. */
    method Pass(env: Environment, ghost universe: set<PresenterId>, k: nat, ghost start: Loaded)
          returns (progress: bool)
      requires Activated(env, k, start, loaded, nextOrder) && SetOf(env.live(k)) <= universe
      modifies this`loaded, this`nextOrder
      ensures Activated(env, k + 1, start, loaded, nextOrder)
      ensures Grown(old(loaded), loaded, universe) && (progress <==> loaded != old(loaded))
      ensures !progress ==> Exhausted(env.behaviour(k), env.live(k), loaded)
    {
      hide Activated, Grown, Ready;
      progress := false;
      SelfGrown(loaded, universe);
      OnePassMore(env, k, start, loaded, nextOrder);
      var live, b := env.live(k), env.behaviour(k);
      for i := 0 to |live|
        invariant Activated(env, k + 1, start, loaded, nextOrder)
        invariant Grown(old(loaded), loaded, universe) && (progress <==> loaded != old(loaded))
        invariant !progress ==> forall j :: 0 <= j < i && live[j] !in loaded ==>
                  !(Ready(b, loaded, live[j]) && b.creates(live[j]))
      {
        var p := live[i];
        if p !in loaded && Ready(b, loaded, p) && b.creates(p) {
          LoadOne(env, universe, k, start, old(loaded), loaded, nextOrder, p);
          loaded := loaded[p := nextOrder];
          nextOrder := nextOrder + 1;
          progress := true;
        }
      }
    }

    /**
    Multipass activation, in an environment that may answer differently in each pass. It terminates, since the
    presenters are finitely many; what it loads was live, ready and created in some pass, and comes after
    everything it waited on then; the last pass finds nothing it could load. If the environment is steady,
    the closing assertion that every live presenter is loaded holds if and only if the waiting relation of
    the presenters not loaded before is acyclic within the live ones and their creation succeeds.
     */
    method InitializeNewPresenters(env: Environment, ghost universe: set<PresenterId>) returns (allLoaded: bool,
          passes: nat)
      requires Numbered(loaded, nextOrder) && forall k: nat :: SetOf(env.live(k)) <= universe
      modifies this`loaded, this`nextOrder
      ensures passes > 0 && Activated(env, passes, old(loaded), loaded, nextOrder)
      ensures Exhausted(env.behaviour(passes - 1), env.live(passes - 1), loaded)
      ensures allLoaded <==> forall p :: p in env.live(passes) ==> p in loaded
      ensures Steady(env) ==> (allLoaded <==> Activatable(env.behaviour(0), env.live(0), old(loaded)))
      ensures Steady(env) && After(env.behaviour(0), old(loaded), old(loaded).Keys) ==>
                After(env.behaviour(0), loaded, loaded.Keys)
    {
      hide Activated, Exhausted, After, Activatable, Numbered;
      ghost var start := loaded;
      StartActivated(env, loaded, nextOrder);
      passes := Passes(env, universe, start);
      allLoaded := CheckLoaded(env.live(passes));
      if Steady(env) {
        Completeness(env, passes, start, loaded, nextOrder);
        StillAfter(env, passes, start, loaded, nextOrder);
      }
    }

    /** Passes until one makes no progress. */
    method Passes(env: Environment, ghost universe: set<PresenterId>, ghost start: Loaded) returns (passes: nat)
      requires Activated(env, 0, start, loaded, nextOrder) && forall k: nat :: SetOf(env.live(k)) <= universe
      modifies this`loaded, this`nextOrder
      ensures passes > 0 && Activated(env, passes, start, loaded, nextOrder)
      ensures Exhausted(env.behaviour(passes - 1), env.live(passes - 1), loaded)
    {
      hide Activated, Exhausted, Grown, SetOf;
      var progress := true;
      passes := 0;
      while progress
        invariant Activated(env, passes, start, loaded, nextOrder)
        invariant !progress ==> passes > 0 && Exhausted(env.behaviour(passes - 1), env.live(passes - 1), loaded)
        decreases |universe - loaded.Keys|, progress
      {
        ghost var before := loaded;
        progress := Pass(env, universe, passes, start);
        passes := passes + 1;
        if progress {
          FewerLeft(universe, before, loaded);
        }
      }
    }

    /** The check that follows the passes. */
    method CheckLoaded(live: seq<PresenterId>) returns (allLoaded: bool)
      ensures allLoaded <==> forall p :: p in live ==> p in loaded
    {
      for i := 0 to |live|
        invariant forall k :: 0 <= k < i ==> live[k] in loaded
      {
        if live[i] !in loaded {
          assert live[i] in live;
          return false;
        }
      }
      allLoaded := true;
    }

    /** Unload the given presenters, last loaded first. */
    method UnloadPresentersDescending(presenters: seq<PresenterId>)
      requires Numbered(loaded, nextOrder) && Distinct(presenters)
      modifies this`loaded, this`unloaded
      ensures loaded == old(loaded) - SetOf(presenters)
      ensures forall p :: p in unloaded <==> p in presenters && p in old(loaded)
      ensures forall i, j :: 0 <= i < j < |unloaded| ==>
                unloaded[i] in old(loaded) && unloaded[j] in old(loaded) &&
                    old(loaded)[unloaded[i]] > old(loaded)[unloaded[j]]
    {
      ghost var start := loaded;
      unloaded := [];
      var order := SortDescending(loaded, presenters);
      assert order[..0] == [];
      for i := 0 to |order|
        invariant loaded == start - SetOf(order[..i])
        invariant forall p :: p in unloaded <==> p in order[..i] && p in start
        invariant forall k, l :: 0 <= k < l < |unloaded| ==>
                    unloaded[k] in start && unloaded[l] in start && start[unloaded[k]] > start[unloaded[l]]
      {
        var p := order[i];
        assert order[..i + 1] == order[..i] + [p];
        if p in loaded {
          StillAbove(start, order, i, unloaded);
          loaded := loaded - {p};
          unloaded := unloaded + [p];
        }
      }
      assert order[..|order|] == order;
    }
  }

  ghost predicate Distinct(s: seq<PresenterId>) {
    forall i, j :: 0 <= i < j < |s| ==> s[i] != s[j]
  }

  function SetOf(s: seq<PresenterId>): set<PresenterId> {
    set p | p in s
  }

  /** Only presenters of `universe` were added, none renumbered. */
  ghost predicate Grown(start: Loaded, loaded: Loaded, universe: set<PresenterId>) {
    && (forall p :: p in start ==> p in loaded && loaded[p] == start[p])
    && (forall p :: p in loaded && p !in start ==> p in universe)
  }

  /** In pass `k` the presenter was live, created, and everything it waited on was loaded before it. */
  ghost predicate LoadedIn(env: Environment, k: nat, loaded: Loaded, p: PresenterId)
    requires p in loaded
  {
    && p in env.live(k) && env.behaviour(k).creates(p)
    && forall w :: w in env.behaviour(k).waits(p) ==> w in loaded && loaded[w] < loaded[p]
  }

  /** What the passes have done so far: each new presenter was rightly loaded in one of them. */
  ghost predicate Activated(env: Environment, passes: nat, start: Loaded, loaded: Loaded, next: nat) {
    && Numbered(loaded, next)
    && (forall p :: p in start ==> p in loaded && loaded[p] == start[p])
    && forall p :: p in loaded && p !in start ==> exists k: nat :: k < passes && LoadedIn(env, k, loaded, p)
  }

  /** No live presenter is left that could be loaded now. */
  ghost predicate Exhausted(b: Behaviour, live: seq<PresenterId>, loaded: Loaded) {
    forall p :: p in live && p !in loaded ==> !(Ready(b, loaded, p) && b.creates(p))
  }

  lemma StartActivated(env: Environment, loaded: Loaded, next: nat)
    requires Numbered(loaded, next)
    ensures Activated(env, 0, loaded, loaded, next)
  {
  }

  lemma SelfGrown(loaded: Loaded, universe: set<PresenterId>)
    ensures Grown(loaded, loaded, universe)
  {
  }

  lemma OnePassMore(env: Environment, passes: nat, start: Loaded, loaded: Loaded, next: nat)
    requires Activated(env, passes, start, loaded, next)
    ensures Activated(env, passes + 1, start, loaded, next)
  {
    forall p | p in loaded && p !in start ensures exists k: nat :: k < passes + 1 && LoadedIn(env, k, loaded, p) {
      var k: nat :| k < passes && LoadedIn(env, k, loaded, p);
      assert k < passes + 1 && LoadedIn(env, k, loaded, p);
    }
  }

  lemma StillAfter(env: Environment, passes: nat, start: Loaded, loaded: Loaded, next: nat)
    requires Activated(env, passes, start, loaded, next) && Steady(env)
    ensures After(env.behaviour(0), start, start.Keys) ==> After(env.behaviour(0), loaded, loaded.Keys)
  {
    var b := env.behaviour(0);
    if After(b, start, start.Keys) {
      forall p, w | p in loaded && w in b.waits(p) ensures w in loaded && loaded[w] < loaded[p] {
        if p in start {
          assert w in start && start[w] < start[p];
        } else {
          var k: nat :| k < passes && LoadedIn(env, k, loaded, p);
          assert env.behaviour(k) == b;
        }
      }
    }
  }

  lemma LoadOne(env: Environment, universe: set<PresenterId>, k: nat, start: Loaded, before: Loaded, loaded: Loaded,
        next: nat, p: PresenterId)
    requires Activated(env, k + 1, start, loaded, next) && Grown(before, loaded, universe)
    requires p in env.live(k) && p in universe && p !in loaded && Ready(env.behaviour(k), loaded, p)
    requires env.behaviour(k).creates(p)
    ensures Activated(env, k + 1, start, loaded[p := next], next + 1) && Grown(before, loaded[p := next], universe)
    ensures loaded[p := next] != before
  {
    hide LoadedIn, Ready, Numbered;
    var more := loaded[p := next];
    assert p !in before && p in more;
    OneMoreNumber(loaded, next, p);
    JustLoaded(env, k, loaded, next, p);
    forall q | q in more && q !in start ensures exists j: nat :: j < k + 1 && LoadedIn(env, j, more, q) {
      if q == p {
        assert k < k + 1 && LoadedIn(env, k, more, q);
      } else {
        var j: nat :| j < k + 1 && LoadedIn(env, j, loaded, q);
        StaysLoadedIn(env, j, loaded, next, p, q);
        assert j < k + 1 && LoadedIn(env, j, more, q);
      }
    }
  }

  lemma OneMoreNumber(loaded: Loaded, next: nat, p: PresenterId)
    requires Numbered(loaded, next) && p !in loaded
    ensures Numbered(loaded[p := next], next + 1)
  {
  }

  lemma JustLoaded(env: Environment, k: nat, loaded: Loaded, next: nat, p: PresenterId)
    requires Numbered(loaded, next) && p in env.live(k) && p !in loaded
    requires Ready(env.behaviour(k), loaded, p) && env.behaviour(k).creates(p)
    ensures LoadedIn(env, k, loaded[p := next], p)
  {
  }

  lemma StaysLoadedIn(env: Environment, j: nat, loaded: Loaded, next: nat, p: PresenterId, q: PresenterId)
    requires q in loaded && p !in loaded && LoadedIn(env, j, loaded, q)
    ensures LoadedIn(env, j, loaded[p := next], q)
  {
  }

  lemma FewerLeft(universe: set<PresenterId>, before: Loaded, after: Loaded)
    requires Grown(before, after, universe) && before != after
    ensures |universe - after.Keys| < |universe - before.Keys|
  {
    NothingNew(universe, before, after);
    var p :| p in after && p !in before;
    Smaller(universe - after.Keys, universe - before.Keys, p);
  }

  lemma NothingNew(universe: set<PresenterId>, before: Loaded, after: Loaded)
    requires Grown(before, after, universe)
    ensures before == after || exists p :: p in after && p !in before
  {
    assert (forall p :: p in after ==> p in before) ==> before.Keys == after.Keys;
  }

  lemma Smaller(a: set<PresenterId>, b: set<PresenterId>, p: PresenterId)
    requires a <= b && p in b && p !in a
    ensures |a| < |b|
  {
    assert a <= b - {p};
    Subset(a, b - {p});
  }

  lemma {:induction false} Subset(a: set<PresenterId>, b: set<PresenterId>)
    requires a <= b
    ensures |a| <= |b|
  {
    if a != {} {
      var x :| x in a;
      Subset(a - {x}, b - {x});
    }
  }

  /** In a steady environment everything live got loaded exactly when a rank exists; the load order is one. */
  lemma Completeness(env: Environment, passes: nat, start: Loaded, loaded: Loaded, next: nat)
    requires Steady(env) && passes > 0 && Activated(env, passes, start, loaded, next)
    requires Exhausted(env.behaviour(passes - 1), env.live(passes - 1), loaded)
    ensures (forall p :: p in env.live(passes) ==> p in loaded) <==> Activatable(env.behaviour(0), env.live(0), start)
  {
    var b, live := env.behaviour(0), env.live(0);
    assert env.live(passes) == live && env.live(passes - 1) == live && env.behaviour(passes - 1) == b;
    if forall p :: p in live ==> p in loaded {
      forall p | p in live && p !in start
        ensures b.creates(p) && forall w :: w in b.waits(p) ==>
                  w in start || (w in live && w in loaded && loaded[w] < loaded[p])
      {
        var k: nat :| k < passes && LoadedIn(env, k, loaded, p);
        assert env.behaviour(k) == b;
        forall w | w in b.waits(p) && w !in start ensures w in live {
          var j: nat :| j < passes && LoadedIn(env, j, loaded, w);
          assert env.live(j) == live;
        }
      }
      assert Ranked(b, live, start, loaded);
    } else if Activatable(b, live, start) {
      var rank :| Ranked(b, live, start, rank);
      var p :| p in live && p !in loaded;
      NothingStuck(b, live, start, loaded, rank, p);
    }
  }

  // ----- unloading -----

  ghost predicate Descending(loaded: Loaded, s: seq<PresenterId>) {
    forall i, j :: 0 <= i < j < |s| ==> Order(loaded, s[i]) >= Order(loaded, s[j])
  }

  /** presentation_load_order: zero when not loaded. */
  function Order(loaded: Loaded, p: PresenterId): nat {
    if p in loaded then loaded[p] else 0
  }

  /** The sort by load order, highest first. */
  method SortDescending(loaded: Loaded, presenters: seq<PresenterId>) returns (order: seq<PresenterId>)
    requires Distinct(presenters)
    ensures Descending(loaded, order) && Distinct(order) && forall p :: p in order <==> p in presenters
  {
    hide Descending;
    order := [];
    NoneDescend(loaded);
    for i := 0 to |presenters|
      invariant Descending(loaded, order) && Distinct(order) && forall p :: p in order <==> p in presenters[..i]
    {
      assert presenters[..i + 1] == presenters[..i] + [presenters[i]] && presenters[i] !in presenters[..i];
      order := Place(loaded, order, presenters[i]);
    }
    assert presenters[..|presenters|] == presenters;
  }

  /** Put one presenter into a sorted list. */
  method Place(loaded: Loaded, order: seq<PresenterId>, p: PresenterId) returns (longer: seq<PresenterId>)
    requires Descending(loaded, order) && Distinct(order) && p !in order
    ensures Descending(loaded, longer) && Distinct(longer) && forall q :: q in longer <==> q in order || q == p
  {
    var k := 0;
    while k < |order| && Order(loaded, order[k]) >= Order(loaded, p)
      invariant k <= |order| && forall l :: 0 <= l < k ==> Order(loaded, order[l]) >= Order(loaded, p)
    {
      k := k + 1;
    }
    longer := order[..k] + [p] + order[k..];
    PlacedAt(order, k, p);
    PlacedDescending(loaded, order, k, p);
  }

  lemma NoneDescend(loaded: Loaded)
    ensures Descending(loaded, [])
  {
  }

  lemma PlacedAt(order: seq<PresenterId>, k: nat, p: PresenterId)
    requires k <= |order| && p !in order && Distinct(order)
    ensures var longer := order[..k] + [p] + order[k..];
            Distinct(longer) && forall q :: q in longer <==> q in order || q == p
  {
    assert order == order[..k] + order[k..];
  }

  lemma PlacedDescending(loaded: Loaded, order: seq<PresenterId>, k: nat, p: PresenterId)
    requires k <= |order| && Descending(loaded, order)
    requires forall l :: 0 <= l < k ==> Order(loaded, order[l]) >= Order(loaded, p)
    requires k < |order| ==> Order(loaded, order[k]) <= Order(loaded, p)
    ensures Descending(loaded, order[..k] + [p] + order[k..])
  {
    hide Order;
    var longer := order[..k] + [p] + order[k..];
    forall i, j | 0 <= i < j < |longer| ensures Order(loaded, longer[i]) >= Order(loaded, longer[j]) {
      assert longer[i] == if i < k then order[i] else if i == k then p else order[i - 1];
      assert longer[j] == if j < k then order[j] else if j == k then p else order[j - 1];
    }
  }

  lemma StillAbove(start: Loaded, order: seq<PresenterId>, i: nat, unloaded: seq<PresenterId>)
    requires Descending(start, order) && Distinct(order) && i < |order| && order[i] in start
    requires forall p, q :: p in start && q in start && p != q ==> start[p] != start[q]
    requires forall p :: p in unloaded ==> p in order[..i] && p in start
    ensures forall k :: 0 <= k < |unloaded| ==> unloaded[k] in start && start[unloaded[k]] > start[order[i]]
  {
    forall k | 0 <= k < |unloaded| ensures unloaded[k] in start && start[unloaded[k]] > start[order[i]] {
      assert unloaded[k] in unloaded;
      var l :| 0 <= l < i && order[..i][l] == unloaded[k];
      assert Order(start, order[l]) >= Order(start, order[i]);
    }
  }

  /**
  Unloading in descending load order takes each presenter down before everything it waits on, as long as
  all of them were loaded in dependency order.
   */
  lemma UnloadedBeforeDependencies(b: Behaviour, loaded: Loaded, unloaded: seq<PresenterId>, i: nat, j: nat)
    requires After(b, loaded, loaded.Keys) && i < |unloaded| && j < |unloaded|
    requires forall k, l :: 0 <= k < l < |unloaded| ==>
               unloaded[k] in loaded && unloaded[l] in loaded && loaded[unloaded[k]] > loaded[unloaded[l]]
    requires unloaded[i] in loaded && unloaded[j] in b.waits(unloaded[i])
    ensures i < j
  {
    assert loaded[unloaded[j]] < loaded[unloaded[i]];
  }
}
