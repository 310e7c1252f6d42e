/** The worklist walk that collects the live objects of a presentation root. */
module Reachability {
  import opened Basics

  type ObjId = nat

  /** An object of a domain. Edge 0 is an empty reference; `base` is the base snapshot of a node, 0 for none. */
  datatype Object = Object(edges: seq<ObjId>, base: ObjId)

  type Domain = map<ObjId, Object>

  /** The edge is followed: it is not empty and its object is in the domain. */
  ghost predicate Edge(domain: Domain, from: ObjId, to: ObjId) {
    from in domain && to in domain[from].edges && to != 0 && to in domain
  }

  ghost predicate Path(domain: Domain, path: seq<ObjId>) {
    path != [] && forall i :: 0 <= i < |path| - 1 ==> Edge(domain, path[i], path[i + 1])
  }

  ghost predicate Reachable(domain: Domain, root: ObjId, x: ObjId) {
    exists path :: Path(domain, path) && path[0] == root && path[|path| - 1] == x
  }

  lemma ReachesItself(domain: Domain, root: ObjId)
    ensures Reachable(domain, root, root)
  {
    assert Path(domain, [root]);
  }

  lemma ReachesOn(domain: Domain, root: ObjId, x: ObjId, y: ObjId)
    requires Reachable(domain, root, x) && Edge(domain, x, y)
    ensures Reachable(domain, root, y)
  {
    var path :| Path(domain, path) && path[0] == root && path[|path| - 1] == x;
    var longer := path + [y];
    assert Path(domain, longer) && longer[0] == root && longer[|longer| - 1] == y;
  }

  /** A set that contains the start of a path and is closed under edges contains its end. */
  lemma {:induction false} ClosedContains(domain: Domain, path: seq<ObjId>, closed: set<ObjId>)
    requires Path(domain, path) && path[0] in closed
    requires forall x, y :: x in closed && Edge(domain, x, y) ==> y in closed
    ensures path[|path| - 1] in closed
  {
    if |path| > 1 {
      assert Edge(domain, path[0], path[1]);
      var tail := path[1..];
      forall i | 0 <= i < |tail| - 1 ensures Edge(domain, tail[i], tail[i + 1]) {
        assert Edge(domain, path[i + 1], path[i + 2]);
      }
      ClosedContains(domain, tail, closed);
    }
  }

  ghost predicate Distinct(s: seq<ObjId>) {
    forall i, j :: 0 <= i < j < |s| ==> s[i] != s[j]
  }

  /** Everything seen is closed under edges up to what still waits on the stack. */
  ghost predicate Frontier(domain: Domain, seen: set<ObjId>, stack: seq<ObjId>) {
    forall x, y :: x in seen && Edge(domain, x, y) ==> y in seen || y in stack
  }

  /** Push the objects an object's edges lead to. */
  method PushEdges(domain: Domain, from: ObjId, stack: seq<ObjId>) returns (longer: seq<ObjId>)
    requires from in domain
    ensures forall y :: y in longer <==> y in stack || (y in domain[from].edges && y != 0 && y in domain)
  {
    longer := stack;
    var edges := domain[from].edges;
    for i := 0 to |edges|
      invariant forall y :: y in longer <==> y in stack || (y in edges[..i] && y != 0 && y in domain)
    {
      assert edges[..i + 1] == edges[..i] + [edges[i]];
      if edges[i] != 0 && edges[i] in domain {
        longer := longer + [edges[i]];
      }
    }
    assert edges[..|edges|] == edges;
  }

  /** The walk itself: exactly the reachable objects, each once. */
  method Walk(domain: Domain, root: ObjId) returns (out: seq<ObjId>)
    requires root in domain
    ensures Distinct(out) && forall x :: x in out <==> Reachable(domain, root, x)
  {
    var seen: set<ObjId> := {};
    var stack := [root];
    out := [];
    ReachesItself(domain, root);
    while stack != []
      invariant seen <= domain.Keys && Distinct(out) && forall x :: x in out <==> x in seen
      invariant forall x :: x in stack ==> x in domain && Reachable(domain, root, x)
      invariant forall x :: x in seen ==> Reachable(domain, root, x)
      invariant Frontier(domain, seen, stack)
      invariant root in seen || root in stack
      decreases |domain.Keys - seen|, |stack|
    {
      var x := stack[|stack| - 1];
      var rest := stack[..|stack| - 1];
      assert stack == rest + [x];
      if x in seen {
        stack := rest;
        continue;
      }
      seen := seen + {x};
      out := out + [x];
      stack := PushEdges(domain, x, rest);
      forall y | Edge(domain, x, y) ensures Reachable(domain, root, y) {
        ReachesOn(domain, root, x, y);
      }
    }
    forall x | Reachable(domain, root, x) ensures x in seen {
      var path :| Path(domain, path) && path[0] == root && path[|path| - 1] == x;
      ClosedContains(domain, path, seen);
    }
  }

  /** `x` is the base snapshot of one of the objects. */
  ghost predicate IsBase(domain: Domain, objects: seq<ObjId>, x: ObjId) {
    exists n :: n in objects && n in domain && domain[n].base != 0 && domain[n].base == x
  }

  /** Drop the base snapshots of collected nodes, keeping the order of the rest. */
  method RemoveDistilledBaseObjects(domain: Domain, objects: seq<ObjId>) returns (kept: seq<ObjId>)
    requires Distinct(objects) && forall x :: x in objects ==> x in domain
    ensures Distinct(kept) && forall x :: x in kept <==> x in objects && !IsBase(domain, objects, x)
  {
    var bases: set<ObjId> := {};
    for i := 0 to |objects|
      invariant forall x :: x in bases <==>
                exists k :: 0 <= k < i && domain[objects[k]].base != 0 && domain[objects[k]].base == x
    {
      if domain[objects[i]].base != 0 {
        bases := bases + {domain[objects[i]].base};
      }
    }
    forall x ensures x in bases <==> IsBase(domain, objects, x) {
      if IsBase(domain, objects, x) {
        var n :| n in objects && n in domain && domain[n].base != 0 && domain[n].base == x;
        var k :| 0 <= k < |objects| && objects[k] == n;
      }
    }
    kept := [];
    for i := 0 to |objects|
      invariant Distinct(kept) && forall x :: x in kept <==> x in objects[..i] && x !in bases
    {
      assert objects[..i + 1] == objects[..i] + [objects[i]];
      if objects[i] !in bases {
        assert objects[i] !in objects[..i];
        kept := kept + [objects[i]];
      }
    }
    assert objects[..|objects|] == objects;
  }

  /**
  Collection terminates and yields exactly the objects reachable from the root, each once, except those
  that are the base of a reachable node.
   */
  method CollectReachableObjectsFromLiveFields(domain: Domain, root: ObjId) returns (out: seq<ObjId>)
    requires root in domain
    ensures Distinct(out)
    ensures forall x :: x in out <==> (Reachable(domain, root, x) && !IsBaseOfReachable(domain, root, x))
  {
    var walked := Walk(domain, root);
    forall x | x in walked ensures x in domain {
      ReachableInDomain(domain, root, x);
    }
    out := RemoveDistilledBaseObjects(domain, walked);
    assert forall x :: IsBase(domain, walked, x) <==> IsBaseOfReachable(domain, root, x);
  }

  ghost predicate IsBaseOfReachable(domain: Domain, root: ObjId, x: ObjId) {
    exists n :: Reachable(domain, root, n) && n in domain && domain[n].base != 0 && domain[n].base == x
  }

  lemma ReachableInDomain(domain: Domain, root: ObjId, x: ObjId)
    requires root in domain && Reachable(domain, root, x)
    ensures x in domain
  {
    var path :| Path(domain, path) && path[0] == root && path[|path| - 1] == x;
    if |path| > 1 {
      assert Edge(domain, path[|path| - 2], path[|path| - 1]);
    }
  }
}
