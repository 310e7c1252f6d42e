/**
Import of a closed event graph: validation of stored class chains and references, and the copy under fresh
object ids. Object id 0 is the empty id.
 */
module GraphImport {
  import opened Basics

  type ObjId = nat
  type ClassId = nat

  /**
  What the code asks of the class registry. `distance(a, b)` counts generations from a down to b and is
  negative when b does not inherit from a; the root class `objClass` has no entry of its own.
   */
  datatype Registry = Registry(
    distance: (ClassId, ClassId) -> int,
    existing: set<ClassId>,
    factories: set<ClassId>,
    objClass: ClassId,
    eventClass: ClassId)

  /** Inheritance is a single-inheritance forest. */
  ghost predicate Forest(reg: Registry) {
    && (forall a :: reg.distance(a, a) == 0)
    && (forall a, b :: reg.distance(a, b) >= 0 && reg.distance(b, a) >= 0 ==> a == b)
    && (forall a, b :: reg.distance(a, b) == 0 ==> a == b)
    && (forall a, b, c :: reg.distance(a, b) >= 0 && reg.distance(b, c) >= 0 ==>
          reg.distance(a, c) == reg.distance(a, b) + reg.distance(b, c))
  }

  // ----- class chains -----

  ghost predicate Related(reg: Registry, a: ClassId, b: ClassId) {
    a == reg.objClass || b == reg.objClass || reg.distance(a, b) >= 0 || reg.distance(b, a) >= 0
  }

  /** The comparator: base before derived. */
  predicate Before(reg: Registry, a: ClassId, b: ClassId) {
    a != b && (a == reg.objClass || (b != reg.objClass && reg.distance(a, b) > 0))
  }

  ghost predicate BaseToDerived(reg: Registry, chain: seq<ClassId>) {
    forall i, j :: 0 <= i < j < |chain| ==> Before(reg, chain[i], chain[j])
  }

  ghost predicate AllRelated(reg: Registry, classes: set<ClassId>) {
    forall a, b :: a in classes && b in classes ==> Related(reg, a, b)
  }

  /** The class every stored layer belongs to an ancestor of. */
  ghost predicate IsTop(reg: Registry, classes: set<ClassId>, top: ClassId) {
    && top in classes && top != reg.objClass
    && forall c :: c in classes ==> c == reg.objClass || reg.distance(c, top) >= 0
  }

  /** Layers (class to number of stored versions) of one object that can be instantiated. */
  ghost predicate ClassChain(reg: Registry, layers: map<ClassId, nat>) {
    && (forall c :: c in layers ==> (c == reg.objClass || c in reg.existing) && layers[c] > 0)
    && AllRelated(reg, layers.Keys)
    && exists top :: IsTop(reg, layers.Keys, top) && top in reg.factories
  }

  /** The ancestors of a class form one line of descent. */
  ghost predicate SingleInheritance(reg: Registry) {
    forall a, b, c :: reg.distance(a, c) >= 0 && reg.distance(b, c) >= 0 ==>
      reg.distance(a, b) >= 0 || reg.distance(b, a) >= 0
  }

  /** With single inheritance a creatable class that inherits from all the others is all it takes. */
  lemma ClassChainIff(reg: Registry, layers: map<ClassId, nat>)
    requires SingleInheritance(reg)
    ensures ClassChain(reg, layers)
       <==> && (forall c :: c in layers ==> (c == reg.objClass || c in reg.existing) && layers[c] > 0)
            && exists top :: && top in layers && top != reg.objClass && top in reg.factories
                             && forall c :: c in layers ==> c == reg.objClass || reg.distance(c, top) >= 0
  {
    if top :| && top in layers && top != reg.objClass && top in reg.factories
              && forall c :: c in layers ==> c == reg.objClass || reg.distance(c, top) >= 0 {
      assert IsTop(reg, layers.Keys, top);
    }
  }

  lemma TopIsUnique(reg: Registry, classes: set<ClassId>, a: ClassId, b: ClassId)
    requires Forest(reg) && IsTop(reg, classes, a) && IsTop(reg, classes, b)
    ensures a == b
  {
  }

  lemma BeforeTransitive(reg: Registry, a: ClassId, b: ClassId, c: ClassId)
    requires Forest(reg) && Before(reg, a, b) && Before(reg, b, c)
    ensures Before(reg, a, c)
  {
    if a != reg.objClass {
      assert reg.distance(a, c) == reg.distance(a, b) + reg.distance(b, c);
      assert reg.distance(a, a) == 0;
    }
  }

  lemma BeforeStrict(reg: Registry, a: ClassId, b: ClassId)
    requires Forest(reg) && Before(reg, a, b)
    ensures !Before(reg, b, a)
  {
    assert reg.distance(a, a) == 0;
  }

  lemma BeforeTotal(reg: Registry, a: ClassId, b: ClassId)
    requires Forest(reg) && Related(reg, a, b) && a != b
    ensures Before(reg, a, b) || Before(reg, b, a)
  {
    if a != reg.objClass && b != reg.objClass {
      assert reg.distance(a, b) != 0 && reg.distance(b, a) != 0;
    }
  }

  /** Put one class into a sorted chain. */
  method Place(reg: Registry, chain: seq<ClassId>, c: ClassId) returns (longer: seq<ClassId>)
    requires Forest(reg) && BaseToDerived(reg, chain) && c !in chain
    requires forall x :: x in chain ==> Related(reg, x, c)
    ensures BaseToDerived(reg, longer) && forall x :: x in longer <==> x in chain || x == c
  {
    var k := 0;
    while k < |chain| && Before(reg, chain[k], c)
      invariant 0 <= k <= |chain|
      invariant forall i :: 0 <= i < k ==> Before(reg, chain[i], c)
    {
      k := k + 1;
    }
    forall i | k <= i < |chain| ensures Before(reg, c, chain[i]) {
      assert chain[k] in chain && chain[i] in chain;
      BeforeTotal(reg, chain[k], c);
      if k < i {
        BeforeTransitive(reg, c, chain[k], chain[i]);
      }
    }
    longer := chain[..k] + [c] + chain[k..];
    Placed(reg, chain, k, c);
  }

  lemma Placed(reg: Registry, chain: seq<ClassId>, k: nat, c: ClassId)
    requires k <= |chain| && BaseToDerived(reg, chain)
    requires (forall i :: 0 <= i < k ==> Before(reg, chain[i], c)) &&
              (forall i :: k <= i < |chain| ==> Before(reg, c, chain[i]))
    ensures var longer := chain[..k] + [c] + chain[k..];
            BaseToDerived(reg, longer) && forall x :: x in longer <==> x in chain || x == c
  {
    hide Before;
    assert chain == chain[..k] + chain[k..];
  }

  /** Every unordered pair of the list, as the two nested loops visit them. */
  method PairwiseRelated(reg: Registry, classes: seq<ClassId>) returns (ok: bool)
    requires Forest(reg)
    ensures ok <==> forall a, b :: a in classes && b in classes ==> Related(reg, a, b)
  {
    for i := 0 to |classes|
      invariant forall p, q :: 0 <= p < i && p < q < |classes| ==> Related(reg, classes[p], classes[q])
    {
      for j := i + 1 to |classes|
        invariant forall q :: i < q < j ==> Related(reg, classes[i], classes[q])
      {
        var a, b := classes[i], classes[j];
        if a != reg.objClass && b != reg.objClass && reg.distance(a, b) < 0 && reg.distance(b, a) < 0 {
          assert classes[i] in classes && classes[j] in classes;
          return false;
        }
      }
    }
    forall a, b | a in classes && b in classes ensures Related(reg, a, b) {
      var p :| 0 <= p < |classes| && classes[p] == a;
      var q :| 0 <= q < |classes| && classes[q] == b;
      assert p < q ==> Related(reg, classes[p], classes[q]);
      assert q < p ==> Related(reg, classes[q], classes[p]);
      assert reg.distance(a, a) == 0;
    }
    ok := true;
  }

  /** The last class of a sorted chain is its top, if the chain has one. */
  lemma LastIsTop(reg: Registry, chain: seq<ClassId>, classes: set<ClassId>)
    requires Forest(reg) && BaseToDerived(reg, chain) && chain != []
    requires forall x :: x in chain <==> x in classes
    ensures var last := chain[|chain| - 1];
            && (last != reg.objClass ==> IsTop(reg, classes, last))
            && (forall top :: IsTop(reg, classes, top) ==> top == last)
  {
    var last := chain[|chain| - 1];
    forall c | c in classes ensures c == last || Before(reg, c, last) {
      var i :| 0 <= i < |chain| && chain[i] == c;
    }
    forall top | IsTop(reg, classes, top) ensures top == last {
      assert last in chain;
      assert top == last || Before(reg, top, last);
      assert last == reg.objClass || reg.distance(last, top) >= 0;
    }
  }

  /**
  Validation of one object's stored layers: accepted exactly when they form an inheritance chain of
  known classes whose most derived one can be created. That class is the result; the source's last check
  of the sorted chain can never fail.
   */
  method ValidateClassChain(reg: Registry, layers: map<ClassId, nat>) returns (top: Option<ClassId>)
    requires Forest(reg)
    ensures top.Some? <==> ClassChain(reg, layers)
    ensures top.Some? ==> IsTop(reg, layers.Keys, top.value)
  {
    hide Forest, Related, Before, BaseToDerived;
    if layers == map[] {
      return None;
    }
    var classes := KnownClasses(reg, layers);
    if classes.None? {
      return None;
    }
    var related := PairwiseRelated(reg, classes.value);
    if !related {
      return None;
    }
    var chain := SortChain(reg, classes.value);
    var c0 :| c0 in layers.Keys;
    assert c0 in chain;
    LastIsTop(reg, chain, layers.Keys);
    var last := chain[|chain| - 1];
    if last == reg.objClass || last !in reg.factories {
      return None;
    }
    top := Some(last);
  }

  /** The stored classes, once each, unless one is unknown or stores no version. */
  method KnownClasses(reg: Registry, layers: map<ClassId, nat>) returns (classes: Option<seq<ClassId>>)
    ensures classes.Some? <==> forall c :: c in layers ==> (c == reg.objClass || c in reg.existing) && layers[c] > 0
    ensures classes.Some? ==> forall c :: c in classes.value <==> c in layers
    ensures classes.Some? ==> Distinct(classes.value)
  {
    var found: seq<ClassId> := [];
    var left := layers.Keys;
    while left != {}
      invariant left <= layers.Keys
      invariant forall c :: c in found <==> c in layers && c !in left
      invariant Distinct(found)
      invariant forall c :: c in found ==> (c == reg.objClass || c in reg.existing) && layers[c] > 0
      decreases |left|
    {
      var c :| c in left;
      if (c != reg.objClass && c !in reg.existing) || layers[c] == 0 {
        return None;
      }
      found := found + [c];
      left := left - {c};
    }
    classes := Some(found);
  }

  ghost predicate Distinct(classes: seq<ClassId>) {
    forall i, j :: 0 <= i < j < |classes| ==> classes[i] != classes[j]
  }

  method SortChain(reg: Registry, classes: seq<ClassId>) returns (chain: seq<ClassId>)
    requires Forest(reg) && forall a, b :: a in classes && b in classes ==> Related(reg, a, b)
    requires Distinct(classes)
    ensures BaseToDerived(reg, chain) && forall x :: x in chain <==> x in classes
  {
    chain := [];
    for i := 0 to |classes|
      invariant BaseToDerived(reg, chain) && forall x :: x in chain <==> x in classes[..i]
    {
      assert classes[..i + 1] == classes[..i] + [classes[i]];
      chain := Place(reg, chain, classes[i]);
    }
    assert classes[..|classes|] == classes;
  }

  // ----- graphs -----

  /** A reference in an object. `declared` is the class it is typed with. */
  datatype Link = Link(target: ObjId, local: bool, declared: ClassId, loaded: bool, flags: nat)

  datatype Object = Object(classId: ClassId, data: seq<nat>, links: seq<Link>)

  /** Stored layers, and the object they load as, if they load. */
  datatype Stored = Stored(layers: map<ClassId, nat>, loads: Option<Object>)

  /** A parsed payload; an entry without value is a removed object. */
  type Wire = map<ObjId, Option<Stored>>

  function Active(wire: Wire): set<ObjId> {
    set id | id in wire && wire[id].Some?
  }

  /** Validation of one reference, given each object's most derived class. */
  ghost predicate LinkOk(reg: Registry, wire: Wire, tops: map<ObjId, ClassId>, l: Link) {
    if l.local then l.target == 0
    else
      l.target == 0 ||
      (l.target in wire && wire[l.target].Some? && l.target in tops
       && reg.distance(l.declared, tops[l.target]) >= 0 && l.loaded)
  }

  ghost predicate LinksOk(reg: Registry, wire: Wire, tops: map<ObjId, ClassId>, links: seq<Link>) {
    forall i :: 0 <= i < |links| ==> LinkOk(reg, wire, tops, links[i])
  }

  ghost predicate TopsOf(reg: Registry, wire: Wire, tops: map<ObjId, ClassId>) {
    tops.Keys == Active(wire) && forall id :: id in tops ==> IsTop(reg, wire[id].value.layers.Keys, tops[id])
  }

  /** The payload is a closed graph of instantiable objects rooted at an event of the expected class. */
  ghost predicate Closed(reg: Registry, wire: Wire, root: ObjId, expected: ClassId, tops: map<ObjId, ClassId>) {
    && root != 0 && root in Active(wire) && 0 !in Active(wire)
    && (forall id :: id in Active(wire) ==> ClassChain(reg, wire[id].value.layers) && wire[id].value.loads.Some?)
    && TopsOf(reg, wire, tops)
    && reg.distance(reg.eventClass, tops[root]) >= 0 && (expected == 0 || tops[root] == expected)
    && (forall id :: id in Active(wire) ==> LinksOk(reg, wire, tops, wire[id].value.loads.value.links))
  }

  /** The object's most derived class is `c` or inherits from it. */
  ghost predicate IsA(reg: Registry, stored: Stored, c: ClassId) {
    exists top :: IsTop(reg, stored.layers.Keys, top) && reg.distance(c, top) >= 0
  }

  /**
  A local reference is empty; a shared one is empty, or it is loaded and leads to an object of the graph whose
  class is the declared one or inherits from it.
   */
  ghost predicate LinkImportable(reg: Registry, wire: Wire, l: Link) {
    if l.local then l.target == 0
    else l.target != 0 ==>
        l.loaded && l.target in wire && wire[l.target].Some? && IsA(reg, wire[l.target].value, l.declared)
  }

  ghost predicate LinksImportable(reg: Registry, wire: Wire, links: seq<Link>) {
    forall i :: 0 <= i < |links| ==> LinkImportable(reg, wire, links[i])
  }

  /** An untrusted graph that is imported: an event at the root, every object instantiable, every reference sound. */
  ghost predicate Importable(reg: Registry, wire: Wire, root: ObjId) {
    && root != 0 && root in wire && wire[root].Some? && IsA(reg, wire[root].value, reg.eventClass)
    && forall id :: id in wire && wire[id].Some? ==>
         && id != 0 && ClassChain(reg, wire[id].value.layers)
         && wire[id].value.loads.Some? && LinksImportable(reg, wire, wire[id].value.loads.value.links)
  }

  /** With the most derived classes at hand, a reference is importable exactly when it passes validation. */
  lemma LinkOkIff(reg: Registry, wire: Wire, tops: map<ObjId, ClassId>, l: Link)
    requires Forest(reg) && TopsOf(reg, wire, tops)
    ensures LinkOk(reg, wire, tops, l) <==> LinkImportable(reg, wire, l)
  {
    hide Forest, IsTop;
    if !l.local && l.target in tops {
      IsAIff(reg, wire[l.target].value, tops[l.target], l.declared);
    }
  }

  lemma IsAIff(reg: Registry, stored: Stored, top: ClassId, c: ClassId)
    requires Forest(reg) && IsTop(reg, stored.layers.Keys, top)
    ensures IsA(reg, stored, c) <==> reg.distance(c, top) >= 0
  {
    hide Forest, IsTop;
    if t :| IsTop(reg, stored.layers.Keys, t) && reg.distance(c, t) >= 0 {
      TopIsUnique(reg, stored.layers.Keys, t, top);
    }
  }

  /** The graphs that pass validation at any event class are exactly the importable ones. */
  lemma ImportableIffClosed(reg: Registry, wire: Wire, root: ObjId)
    requires Forest(reg)
    ensures Importable(reg, wire, root) <==> exists tops :: Closed(reg, wire, root, 0, tops)
  {
    hide Forest, IsTop, LinkOk, LinkImportable, IsA;
    if Importable(reg, wire, root) {
      var tops := map id | id in Active(wire) :: TopOf(reg, wire[id].value);
      TopsImportable(reg, wire, root, tops);
    }
    if tops :| Closed(reg, wire, root, 0, tops) {
      ClosedIsImportable(reg, wire, root, tops);
    }
  }

  ghost function TopOf(reg: Registry, stored: Stored): (top: ClassId)
    requires exists t :: IsTop(reg, stored.layers.Keys, t)
    ensures IsTop(reg, stored.layers.Keys, top)
  {
    var t :| IsTop(reg, stored.layers.Keys, t);
    t
  }

  lemma TopsImportable(reg: Registry, wire: Wire, root: ObjId, tops: map<ObjId, ClassId>)
    requires Forest(reg) && Importable(reg, wire, root) && TopsOf(reg, wire, tops)
    ensures Closed(reg, wire, root, 0, tops)
  {
    hide Forest, IsTop, LinkOk, LinkImportable, IsA, ClassChain;
    IsAIff(reg, wire[root].value, tops[root], reg.eventClass);
    forall id | id in Active(wire) ensures LinksOk(reg, wire, tops, wire[id].value.loads.value.links) {
      var links := wire[id].value.loads.value.links;
      forall i | 0 <= i < |links| ensures LinkOk(reg, wire, tops, links[i]) {
        LinkOkIff(reg, wire, tops, links[i]);
      }
    }
  }

  lemma ClosedIsImportable(reg: Registry, wire: Wire, root: ObjId, tops: map<ObjId, ClassId>)
    requires Forest(reg) && Closed(reg, wire, root, 0, tops)
    ensures Importable(reg, wire, root)
  {
    hide Forest, IsTop, LinkOk, LinkImportable, IsA, ClassChain;
    IsAIff(reg, wire[root].value, tops[root], reg.eventClass);
    forall id | id in Active(wire) ensures LinksImportable(reg, wire, wire[id].value.loads.value.links) {
      var links := wire[id].value.loads.value.links;
      forall i | 0 <= i < |links| ensures LinkImportable(reg, wire, links[i]) {
        LinkOkIff(reg, wire, tops, links[i]);
      }
    }
  }

  /** The graph with one more reference in one object. */
  ghost function WithLink(wire: Wire, id: ObjId, l: Link): Wire
    requires id in wire && wire[id].Some? && wire[id].value.loads.Some?
  {
    var o := wire[id].value.loads.value;
    wire[id := Some(wire[id].value.(loads := Some(o.(links := o.links + [l]))))]
  }

  /** One more reference in any object leaves a graph importable if and only if that reference is sound. */
  lemma OneMoreLink(reg: Registry, wire: Wire, root: ObjId, id: ObjId, l: Link)
    requires id in wire && wire[id].Some? && wire[id].value.loads.Some?
    ensures Importable(reg, WithLink(wire, id, l), root)
       <==> && Importable(reg, wire, root)
            && if l.local then l.target == 0
               else l.target == 0 || (l.loaded && l.target in wire && wire[l.target].Some?
                                      && IsA(reg, wire[l.target].value, l.declared))
  {
    hide IsTop, ClassChain, LinkImportable, IsA;
    var more, links := WithLink(wire, id, l), wire[id].value.loads.value.links;
    SameLayers(reg, wire, id, l);
    EachLink(reg, wire, l);
    assert forall i :: 0 <= i < |links| ==> (links + [l])[i] == links[i];
    assert (links + [l])[|links|] == l;
    assert LinksImportable(reg, wire, links + [l]) <==>
        LinksImportable(reg, wire, links) && LinkImportable(reg, wire, l);
    assert more[id].value.layers == wire[id].value.layers;
    if Importable(reg, more, root) {
      forall x | x in wire && wire[x].Some?
        ensures x != 0 && ClassChain(reg, wire[x].value.layers) && wire[x].value.loads.Some?
        ensures LinksImportable(reg, wire, wire[x].value.loads.value.links)
      {
        assert x in more && more[x].Some?;
        assert LinksImportable(reg, more, more[x].value.loads.value.links);
      }
    }
  }

  lemma EachLink(reg: Registry, wire: Wire, l: Link)
    ensures LinkImportable(reg, wire, l) <==>
            if l.local then l.target == 0
            else l.target == 0 || (l.loaded && l.target in wire && wire[l.target].Some?
                                   && IsA(reg, wire[l.target].value, l.declared))
  {
  }

  lemma SameLayers(reg: Registry, wire: Wire, id: ObjId, l: Link)
    requires id in wire && wire[id].Some? && wire[id].value.loads.Some?
    ensures forall m :: LinkImportable(reg, WithLink(wire, id, l), m) <==> LinkImportable(reg, wire, m)
    ensures forall links :: LinksImportable(reg, WithLink(wire, id, l), links) <==> LinksImportable(reg, wire, links)
    ensures forall c :: IsA(reg, WithLink(wire, id, l)[id].value, c) <==> IsA(reg, wire[id].value, c)
  {
    hide IsTop;
  }

  /** An empty reference, in particular, never stands in the way. */
  lemma EmptyLinkIsHarmless(reg: Registry, wire: Wire, root: ObjId, id: ObjId, declared: ClassId, loaded: bool,
        flags: nat)
    requires id in wire && wire[id].Some? && wire[id].value.loads.Some?
    ensures Importable(reg, WithLink(wire, id, Link(0, false, declared, loaded, flags)), root)
       <==> Importable(reg, wire, root)
    ensures Importable(reg, WithLink(wire, id, Link(0, true, declared, loaded, flags)), root)
       <==> Importable(reg, wire, root)
  {
    hide Importable;
    OneMoreLink(reg, wire, root, id, Link(0, false, declared, loaded, flags));
    OneMoreLink(reg, wire, root, id, Link(0, true, declared, loaded, flags));
  }

  method ValidateStoredClassChains(reg: Registry, wire: Wire) returns (tops: Option<map<ObjId, ClassId>>)
    requires Forest(reg)
    ensures tops.Some? <==>
              0 !in Active(wire) && forall id :: id in Active(wire) ==> ClassChain(reg, wire[id].value.layers)
    ensures tops.Some? ==> TopsOf(reg, wire, tops.value)
  {
    hide ClassChain, IsTop, Forest;
    var found: map<ObjId, ClassId> := map[];
    var left := Active(wire);
    while left != {}
      invariant left <= Active(wire) && found.Keys == Active(wire) - left && 0 !in found
      invariant forall id :: id in found ==>
                ClassChain(reg, wire[id].value.layers) && IsTop(reg, wire[id].value.layers.Keys, found[id])
      decreases |left|
    {
      var id :| id in left;
      if id == 0 {
        return None;
      }
      var top := ValidateClassChain(reg, wire[id].value.layers);
      if top.None? {
        return None;
      }
      found := found[id := top.value];
      left := left - {id};
    }
    tops := Some(found);
  }

  lemma TopsAreUnique(reg: Registry, wire: Wire, s: map<ObjId, ClassId>, t: map<ObjId, ClassId>)
    requires Forest(reg) && TopsOf(reg, wire, s) && TopsOf(reg, wire, t)
    ensures s == t
  {
    hide Forest, IsTop;
    forall id | id in s ensures s[id] == t[id] {
      TopIsUnique(reg, wire[id].value.layers.Keys, s[id], t[id]);
    }
  }

  /** Accepts exactly when local references are empty and shared ones are empty or lead where they may. */
  method ValidateLinks(reg: Registry, wire: Wire, tops: map<ObjId, ClassId>, links: seq<Link>) returns (ok: bool)
    ensures ok <==> forall i :: 0 <= i < |links| ==>
              var l := links[i];
              if l.local then l.target == 0
              else l.target == 0 || (l.target in wire && wire[l.target].Some? && l.target in tops
                                     && reg.distance(l.declared, tops[l.target]) >= 0 && l.loaded)
    ensures ok <==> LinksOk(reg, wire, tops, links)
  {
    for i := 0 to |links|
      invariant forall k :: 0 <= k < i ==> LinkOk(reg, wire, tops, links[k])
    {
      var l := links[i];
      if l.local {
        if l.target != 0 {
          return false;
        }
      } else if l.target != 0 {
        if l.target !in wire || wire[l.target].None? || l.target !in tops
           || reg.distance(l.declared, tops[l.target]) < 0 || !l.loaded {
          return false;
        }
      }
    }
    ok := true;
  }

  /** Accepts exactly the closed graphs, and reports each object's most derived class. */
  method ValidateClosedEventGraphStorage(reg: Registry, wire: Wire, root: ObjId, expected: ClassId)
        returns (tops: Option<map<ObjId, ClassId>>)
    requires Forest(reg)
    ensures tops.Some? ==> Closed(reg, wire, root, expected, tops.value)
    ensures tops.None? ==> forall t :: !Closed(reg, wire, root, expected, t)
  {
    hide Forest, ClassChain, IsTop, LinksOk;
    if root == 0 || root !in wire || wire[root].None? {
      return None;
    }
    var chains := ValidateStoredClassChains(reg, wire);
    if chains.None? {
      return None;
    }
    var found := chains.value;
    forall t | TopsOf(reg, wire, t) ensures t == found {
      TopsAreUnique(reg, wire, t, found);
    }
    if reg.distance(reg.eventClass, found[root]) < 0 || (expected != 0 && found[root] != expected) {
      return None;
    }
    var left := Active(wire);
    while left != {}
      invariant left <= Active(wire)
      invariant forall id :: id in Active(wire) - left ==>
                  wire[id].value.loads.Some? && LinksOk(reg, wire, found, wire[id].value.loads.value.links)
      decreases |left|
    {
      var id :| id in left;
      var stored := wire[id].value;
      if stored.loads.None? {
        return None;
      }
      var ok := ValidateLinks(reg, wire, found, stored.loads.value.links);
      if !ok {
        return None;
      }
      left := left - {id};
    }
    tops := chains;
  }

  // ----- renaming -----

  /**
  One visit of a reference in remap mode. `made` are the ids given to the imported objects: a reference
  that already names one of them has been remapped before.
   */
  function Remap(renaming: map<ObjId, ObjId>, made: set<ObjId>, l: Link): Option<Link> {
    if l.local then Some(l.(target := 0, loaded := false, flags := 0))
    else if l.target == 0 then Some(l)
    else if l.target in renaming then Some(l.(target := renaming[l.target], loaded := true))
    else if l.target in made then Some(l)
    else None
  }

  /** A visit clears a local reference and fails only on one that leads out of the graph. */
  lemma RemapOutcome(renaming: map<ObjId, ObjId>, made: set<ObjId>, l: Link)
    ensures l.local ==> Remap(renaming, made, l) == Some(Link(0, true, l.declared, false, 0))
    ensures Remap(renaming, made, l).None? <==> !l.local && l.target != 0 && l.target !in renaming && l.target !in made
  {
  }

  /** Serialization visits a reference once for each layer that carries it. */
  function RemapTimes(renaming: map<ObjId, ObjId>, made: set<ObjId>, l: Link, visits: nat): Option<Link> {
    if visits == 0 then Some(l)
    else
      var before := RemapTimes(renaming, made, l, visits - 1);
      if before.None? then None else Remap(renaming, made, before.value)
  }

  ghost predicate Injective(renaming: map<ObjId, ObjId>) {
    forall a, b :: a in renaming && b in renaming && renaming[a] == renaming[b] ==> a == b
  }

  /** No new id is also an id of the wire graph. */
  ghost predicate Apart(renaming: map<ObjId, ObjId>) {
    forall a :: a in renaming ==> renaming[a] !in renaming
  }

  /**
  A second visit of a remapped reference leaves it alone if and only if its new id is not itself the id of
  another wire object that is renamed away.
   */
  lemma RevisitHarmlessIff(renaming: map<ObjId, ObjId>, made: set<ObjId>, l: Link)
    requires made == renaming.Values && !l.local && l.target != 0 && l.target in renaming && 0 !in made
    ensures var once := Remap(renaming, made, l).value;
            Remap(renaming, made, once) == Some(once)
            <==> (renaming[l.target] in renaming ==> renaming[renaming[l.target]] == renaming[l.target])
  {
    var once := Remap(renaming, made, l).value;
    assert once.target in renaming.Values;
  }

  /** With ids apart, any number of visits is one visit. */
  lemma {:induction false} RevisitsHarmless(renaming: map<ObjId, ObjId>, made: set<ObjId>, l: Link, visits: nat)
    requires made == renaming.Values && Apart(renaming) && 0 !in made && visits > 0
    ensures RemapTimes(renaming, made, l, visits) == Remap(renaming, made, l)
  {
    if visits > 1 {
      RevisitsHarmless(renaming, made, l, visits - 1);
      var once := Remap(renaming, made, l);
      if once.Some? && !l.local && l.target != 0 && l.target in renaming {
        RevisitHarmlessIff(renaming, made, l);
      }
    } else {
      assert RemapTimes(renaming, made, l, 0) == Some(l);
    }
  }

  /** Any number of visits is one visit if and only if a second one is. */
  lemma RevisitsHarmlessIff(renaming: map<ObjId, ObjId>, made: set<ObjId>, l: Link)
    requires made == renaming.Values && !l.local && l.target != 0 && l.target in renaming && 0 !in made
    ensures (forall visits: nat :: visits > 0 ==> RemapTimes(renaming, made, l, visits) == Remap(renaming, made, l))
       <==> (renaming[l.target] in renaming ==> renaming[renaming[l.target]] == renaming[l.target])
  {
    RevisitHarmlessIff(renaming, made, l);
    assert RemapTimes(renaming, made, l, 0) == Some(l) && RemapTimes(renaming, made, l, 1) == Remap(renaming, made, l);
    var once := Remap(renaming, made, l).value;
    if Remap(renaming, made, once) == Some(once) {
      forall visits: nat | visits > 0 ensures RemapTimes(renaming, made, l, visits) == Some(once) {
        StaysPut(renaming, made, l, visits);
      }
    } else {
      assert RemapTimes(renaming, made, l, 2) == Remap(renaming, made, once);
    }
  }

  lemma {:induction false} StaysPut(renaming: map<ObjId, ObjId>, made: set<ObjId>, l: Link, visits: nat)
    requires visits > 0 && Remap(renaming, made, l).Some?
    requires Remap(renaming, made, Remap(renaming, made, l).value) == Remap(renaming, made, l)
    ensures RemapTimes(renaming, made, l, visits) == Remap(renaming, made, l)
  {
    if visits > 1 {
      StaysPut(renaming, made, l, visits - 1);
    } else {
      assert RemapTimes(renaming, made, l, 0) == Some(l);
    }
  }

  /** A reference into the graph is never turned away, however often it is visited. */
  lemma {:induction false} RemapNeverFails(renaming: map<ObjId, ObjId>, made: set<ObjId>, l: Link, visits: nat)
    requires made == renaming.Values && (l.local || l.target == 0 || l.target in renaming || l.target in made)
    ensures RemapTimes(renaming, made, l, visits).Some?
    ensures var m := RemapTimes(renaming, made, l, visits).value;
            m.local == l.local && (m.local || m.target == 0 || m.target in renaming || m.target in made)
  {
    if visits > 0 {
      RemapNeverFails(renaming, made, l, visits - 1);
      var before := RemapTimes(renaming, made, l, visits - 1).value;
      if before.target in renaming {
        assert renaming[before.target] in renaming.Values;
      }
    }
  }

  /** Reusing a wire id for a new object misdirects references: two objects that swap ids. */
  lemma SwappedIdsMisdirect(a: ObjId, b: ObjId, l: Link)
    requires a != 0 && b != 0 && a != b && !l.local && l.target == a
    ensures var renaming := map[a := b, b := a];
            && Injective(renaming)
            && RemapTimes(renaming, {a, b}, l, 1) == Some(l.(target := b, loaded := true))
            && RemapTimes(renaming, {a, b}, l, 2) == Some(l.(target := a, loaded := true))
  {
    var renaming := map[a := b, b := a];
    assert RemapTimes(renaming, {a, b}, l, 0) == Some(l);
    assert RemapTimes(renaming, {a, b}, l, 1) == Remap(renaming, {a, b}, l);
  }

  // ----- the imported graph -----

  /** How a reference arrives: local ones empty, empty ones as they were, the others renamed. */
  ghost predicate Arrives(renaming: map<ObjId, ObjId>, l: Link, arrived: Link) {
    if l.local then arrived == Link(0, true, l.declared, false, 0)
    else if l.target == 0 then arrived == l
    else l.target in renaming && arrived == l.(target := renaming[l.target], loaded := true)
  }

  ghost predicate ObjectArrives(renaming: map<ObjId, ObjId>, o: Object, arrived: Object) {
    && arrived.classId == o.classId && arrived.data == o.data && |arrived.links| == |o.links|
    && forall i :: 0 <= i < |o.links| ==> Arrives(renaming, o.links[i], arrived.links[i])
  }

  /** How often each reference of an object is visited. */
  type Visits = (ObjId, nat) -> nat

  /** What comes out of the visits, whatever the renaming. */
  ghost predicate ObjectVisited(renaming: map<ObjId, ObjId>, visits: Visits, id: ObjId, o: Object, arrived: Object) {
    && arrived.classId == o.classId && arrived.data == o.data && |arrived.links| == |o.links|
    && forall i :: 0 <= i < |o.links| ==>
         Some(arrived.links[i]) == RemapTimes(renaming, renaming.Values, o.links[i], visits(id, i))
  }

  /** No revisited reference is led on: no new id is a wire id, or nothing is visited twice. */
  ghost predicate Steady(renaming: map<ObjId, ObjId>, visits: Visits) {
    Apart(renaming) || forall id, i :: visits(id, i) == 1
  }

  /** `objects` holds a copy of the wire graph under the renaming. */
  ghost predicate Isomorphic(wire: Wire, renaming: map<ObjId, ObjId>, objects: map<ObjId, Object>) {
    && renaming.Keys == Active(wire) && Injective(renaming)
    && forall id :: id in renaming ==>
         && wire[id].value.loads.Some? && renaming[id] in objects
         && ObjectArrives(renaming, wire[id].value.loads.value, objects[renaming[id]])
  }

  /** Every wire object has arrived, its references as their visits leave them. */
  ghost predicate AllVisited(wire: Wire, renaming: map<ObjId, ObjId>, visits: Visits, objects: map<ObjId, Object>) {
    && renaming.Keys == Active(wire) && Injective(renaming)
    && forall id :: id in renaming ==>
         && wire[id].value.loads.Some? && renaming[id] in objects
         && ObjectVisited(renaming, visits, id, wire[id].value.loads.value, objects[renaming[id]])
  }

  /** The copy is closed: every reference of an imported object leads to an imported object or nowhere. */
  lemma CopyIsClosed(wire: Wire, renaming: map<ObjId, ObjId>, objects: map<ObjId, Object>, id: ObjId, i: nat)
    requires Isomorphic(wire, renaming, objects) && id in renaming && i < |objects[renaming[id]].links|
    ensures objects[renaming[id]].links[i].target == 0 || objects[renaming[id]].links[i].target in renaming.Values
  {
    assert Arrives(renaming, wire[id].value.loads.value.links[i], objects[renaming[id]].links[i]);
  }

  /** A reference that was empty arrives empty, and a local one arrives without its flags. */
  lemma EmptyLinkArrives(wire: Wire, renaming: map<ObjId, ObjId>, objects: map<ObjId, Object>, id: ObjId, i: nat)
    requires Isomorphic(wire, renaming, objects) && id in renaming && i < |wire[id].value.loads.value.links|
    requires wire[id].value.loads.value.links[i].local || wire[id].value.loads.value.links[i].target == 0
    ensures i < |objects[renaming[id]].links|
    ensures var l, arrived := wire[id].value.loads.value.links[i], objects[renaming[id]].links[i];
            arrived == if l.local then Link(0, true, l.declared, false, 0) else l
  {
    assert Arrives(renaming, wire[id].value.loads.value.links[i], objects[renaming[id]].links[i]);
  }

  /** Aliases stay aliases, and only aliases become aliases. */
  lemma AliasesKept(wire: Wire, renaming: map<ObjId, ObjId>, objects: map<ObjId, Object>, a: ObjId, i: nat, b: ObjId,
        j: nat)
    requires Isomorphic(wire, renaming, objects) && a in renaming && b in renaming && 0 !in renaming.Values
    requires i < |wire[a].value.loads.value.links| && j < |wire[b].value.loads.value.links|
    requires !wire[a].value.loads.value.links[i].local && !wire[b].value.loads.value.links[j].local
    ensures wire[a].value.loads.value.links[i].target == wire[b].value.loads.value.links[j].target
       <==> objects[renaming[a]].links[i].target == objects[renaming[b]].links[j].target
  {
    var l, m := wire[a].value.loads.value.links[i], wire[b].value.loads.value.links[j];
    assert Arrives(renaming, l, objects[renaming[a]].links[i]) && Arrives(renaming, m, objects[renaming[b]].links[j]);
    assert l.target != 0 ==> renaming[l.target] in renaming.Values;
    assert m.target != 0 ==> renaming[m.target] in renaming.Values;
  }

  /** ObjId::GenerateUnique as a stream that never runs out of ids outside any finite set. */
  ghost predicate Inexhaustible(generate: nat -> ObjId) {
    forall n: nat, taken: set<ObjId> :: YieldsOther(generate, n, taken)
  }

  ghost predicate YieldsOther(generate: nat -> ObjId, n: nat, taken: set<ObjId>) {
    exists m: nat :: m >= n && generate(m) !in taken
  }

  ghost predicate Generated(generate: nat -> ObjId, id: ObjId) {
    exists n: nat :: generate(n) == id
  }

  /** The receiving side: objects in the domain, ids with anything in storage, ids promised already. */
  class Receiver {
    var objects: map<ObjId, Object>
    var stored: map<ObjId, Object>
    var reserved: set<ObjId>

    constructor (objects: map<ObjId, Object>, stored: map<ObjId, Object>, reserved: set<ObjId>)
      ensures this.objects == objects && this.stored == stored && this.reserved == reserved
    {
      this.objects, this.stored, this.reserved := objects, stored, reserved;
    }

    predicate Free(id: ObjId)
      reads this
    {
      FreeIn(objects, stored, reserved, id)
    }

    method AllocateUniqueReceiverObjId(generate: nat -> ObjId, from: nat) returns (id: ObjId, next: nat)
      requires Inexhaustible(generate)
      ensures Free(id) && Generated(generate, id)
    {
      ghost var taken := {0} + reserved + objects.Keys + stored.Keys;
      assert YieldsOther(generate, from, taken);
      ghost var stop: nat :| stop >= from && generate(stop) !in taken;
      next := from;
      while !Free(generate(next))
        invariant from <= next <= stop
        decreases stop - next
      {
        next := next + 1;
      }
      id := generate(next);
      next := next + 1;
    }

    /** A new id for every object, each reserved before the next is drawn. */
    method AllocateAll(generate: nat -> ObjId, ids: set<ObjId>) returns (renaming: map<ObjId, ObjId>)
      requires Inexhaustible(generate)
      modifies this`reserved
      ensures renaming.Keys == ids && Injective(renaming)
      ensures reserved == old(reserved) + renaming.Values
      ensures AllNew(generate, objects, stored, old(reserved), renaming)
    {
      hide Injective, AllNew, FreeIn;
      renaming := map[];
      NothingNew(generate, objects, stored, reserved);
      var left, next := ids, 0;
      while left != {}
        invariant left <= ids && renaming.Keys == ids - left && Injective(renaming)
        invariant reserved == old(reserved) + renaming.Values
        invariant AllNew(generate, objects, stored, old(reserved), renaming)
        decreases |left|
      {
        var a :| a in left;
        var id;
        id, next := AllocateUniqueReceiverObjId(generate, next);
        OneMore(generate, objects, stored, old(reserved), renaming, a, id);
        reserved := reserved + {id};
        renaming := renaming[a := id];
        left := left - {a};
      }
    }

    /** Remap the references of one object, each as often as its layers serialize it. */
    method RemapObject(renaming: map<ObjId, ObjId>, id: ObjId, o: Object, visits: Visits) returns (r: Option<Object>)
      ensures r.Some? <==>
                forall i :: 0 <= i < |o.links| ==>
                RemapTimes(renaming, renaming.Values, o.links[i], visits(id, i)).Some?
      ensures r.Some? ==> ObjectVisited(renaming, visits, id, o, r.value)
    {
      var links: seq<Link> := [];
      for i := 0 to |o.links|
        invariant |links| == i
        invariant forall k :: 0 <= k < i ==>
                  Some(links[k]) == RemapTimes(renaming, renaming.Values, o.links[k], visits(id, k))
      {
        var link, n := Some(o.links[i]), 0;
        while n < visits(id, i)
          invariant n <= visits(id, i)
          invariant link == RemapTimes(renaming, renaming.Values, o.links[i], n)
        {
          link := if link.None? then None else Remap(renaming, renaming.Values, link.value);
          n := n + 1;
        }
        if link.None? {
          return None;
        }
        links := links + [link.value];
      }
      r := Some(o.(links := links));
    }

    /**
    Import of an untrusted graph. A graph that is not closed is refused and changes nothing; a closed one
    always arrives, under an injective renaming to ids that the domain, the storage and the reserved set did
    not have, every reference as its visits leave it, and nothing else in the domain or storage changes. It
    arrives as an isomorphic copy when no new id is a wire id, or nothing is visited twice.
     */
    method ImportClosedEventGraph(reg: Registry, wire: Wire, root: ObjId, generate: nat -> ObjId, visits: Visits)
      returns (imported: Option<ObjId>, renaming: map<ObjId, ObjId>)
      requires Forest(reg) && Inexhaustible(generate) && forall id, i :: visits(id, i) > 0
      modifies this
      ensures imported.Some? <==> Importable(reg, wire, root)
      ensures imported.None? ==> objects == old(objects) && stored == old(stored) && reserved == old(reserved)
      ensures imported.Some? ==>
                && AllVisited(wire, renaming, visits, objects) && root in renaming && imported.value == renaming[root]
                && (Steady(renaming, visits) ==> Isomorphic(wire, renaming, objects))
                && reserved == old(reserved) + renaming.Values
                && (forall a :: a in renaming ==>
                      && renaming[a] != 0 && renaming[a] !in old(objects) && renaming[a] !in old(stored)
                      && renaming[a] !in old(reserved))
                && Extended(old(objects), objects, renaming.Values) && Extended(old(stored), stored, renaming.Values)
                && (forall a :: a in renaming ==> renaming[a] in stored && stored[renaming[a]] == objects[renaming[a]])
    {
      hide Forest, Inexhaustible, Closed, Importable, Isomorphic, AllVisited, Injective, Steady, AllNew, Extended;
      hide Active;
      renaming := map[];
      var chains := ValidateClosedEventGraphStorage(reg, wire, root, 0);
      ImportableIffClosed(reg, wire, root);
      if chains.None? {
        return None, renaming;
      }
      RootIsActive(reg, wire, root, chains.value);
      renaming := AllocateAll(generate, Active(wire));
      NewIds(generate, objects, stored, old(reserved), renaming);
      StoreCopies(reg, wire, root, chains.value, renaming, visits);
      if Steady(renaming, visits) {
        SteadyArrives(reg, wire, root, chains.value, renaming, visits, objects);
      }
      imported := Some(renaming[root]);
    }

    /** Rename, register and store every object of a closed graph; none can fail. */
    method StoreCopies(reg: Registry, wire: Wire, root: ObjId, tops: map<ObjId, ClassId>,
          renaming: map<ObjId, ObjId>, visits: Visits)
      requires Closed(reg, wire, root, 0, tops) && renaming.Keys == Active(wire) && Injective(renaming)
      requires forall a :: a in renaming ==> renaming[a] !in objects && renaming[a] !in stored
      modifies this`objects, this`stored
      ensures AllVisited(wire, renaming, visits, objects)
      ensures Extended(old(objects), objects, renaming.Values) && Extended(old(stored), stored, renaming.Values)
      ensures forall a :: a in renaming ==>
                renaming[a] in objects && renaming[a] in stored && stored[renaming[a]] == objects[renaming[a]]
    {
      hide Closed, Copied, ObjectVisited, Injective, Images, Extended, Active, AllVisited, RemapTimes;
      ghost var objects0, stored0 := objects, stored;
      var ids := renaming.Keys;
      var left := ids;
      NoImages(renaming, ids);
      NothingExtended(objects, stored);
      while left != {}
        invariant left <= ids
        invariant Extended(objects0, objects, Images(renaming, ids - left))
        invariant Extended(stored0, stored, Images(renaming, ids - left))
        invariant forall a :: a in ids - left ==> Copied(wire, renaming, visits, objects, stored, a)
        decreases |left|
      {
        var a :| a in left;
        ClosedLinksLead(reg, wire, root, tops, renaming, visits, a);
        var copy := RemapObject(renaming, a, wire[a].value.loads.value, visits);
        assert ids - (left - {a}) == ids - left + {a};
        CopyOne(wire, renaming, visits, objects, stored, ids - left, a, copy.value);
        MoreImages(renaming, ids, left, a);
        ExtendOne(objects0, objects, Images(renaming, ids - left), renaming[a], copy.value);
        ExtendOne(stored0, stored, Images(renaming, ids - left), renaming[a], copy.value);
        objects := objects[renaming[a] := copy.value];
        stored := stored[renaming[a] := copy.value];
        left := left - {a};
      }
      assert ids - left == renaming.Keys - {};
      AllImages(renaming);
      AllCopied(wire, renaming, visits, objects, stored);
    }
  }

  lemma NothingExtended(objects: map<ObjId, Object>, stored: map<ObjId, Object>)
    ensures Extended(objects, objects, {}) && Extended(stored, stored, {})
  {
  }

  /** Exactly the new ids were added, and what was there is untouched. */
  ghost predicate Extended(before: map<ObjId, Object>, after: map<ObjId, Object>, ids: set<ObjId>) {
    after.Keys == before.Keys + ids && forall id :: id in before ==> after[id] == before[id]
  }

  lemma ExtendOne(before: map<ObjId, Object>, after: map<ObjId, Object>, ids: set<ObjId>, id: ObjId, o: Object)
    requires Extended(before, after, ids) && id !in before
    ensures Extended(before, after[id := o], ids + {id})
  {
  }

  ghost predicate Copied(wire: Wire, renaming: map<ObjId, ObjId>, visits: Visits, objects: map<ObjId, Object>,
        stored: map<ObjId, Object>, a: ObjId) {
    && a in renaming && renaming[a] in objects && renaming[a] in stored && stored[renaming[a]] == objects[renaming[a]]
    && a in wire && wire[a].Some? && wire[a].value.loads.Some?
    && ObjectVisited(renaming, visits, a, wire[a].value.loads.value, objects[renaming[a]])
  }

  /** The id names nothing in the domain or storage and is not promised. */
  predicate FreeIn(objects: map<ObjId, Object>, stored: map<ObjId, Object>, reserved: set<ObjId>, id: ObjId) {
    id != 0 && id !in reserved && id !in objects && id !in stored
  }

  ghost predicate AllNew(generate: nat -> ObjId, objects: map<ObjId, Object>, stored: map<ObjId, Object>,
        reserved: set<ObjId>,
                         renaming: map<ObjId, ObjId>) {
    forall a :: a in renaming ==> FreeIn(objects, stored, reserved, renaming[a]) && Generated(generate, renaming[a])
  }

  lemma NothingNew(generate: nat -> ObjId, objects: map<ObjId, Object>, stored: map<ObjId, Object>,
        reserved: set<ObjId>)
    ensures AllNew(generate, objects, stored, reserved, map[]) && Injective(map[])
  {
  }

  /** One more copy, under an id no other object has. */
  lemma CopyOne(wire: Wire, renaming: map<ObjId, ObjId>, visits: Visits, objects: map<ObjId, Object>,
        stored: map<ObjId, Object>,
                done: set<ObjId>, a: ObjId, copy: Object)
    requires Injective(renaming) && a in renaming && a in wire && wire[a].Some? && wire[a].value.loads.Some?
    requires ObjectVisited(renaming, visits, a, wire[a].value.loads.value, copy)
    requires forall b :: b in done ==> Copied(wire, renaming, visits, objects, stored, b)
    ensures forall b :: b in done + {a} ==>
              Copied(wire, renaming, visits, objects[renaming[a] := copy], stored[renaming[a] := copy], b)
  {
    hide ObjectVisited;
    forall b | b in done + {a}
      ensures Copied(wire, renaming, visits, objects[renaming[a] := copy], stored[renaming[a] := copy], b)
    {
      if b != a {
        assert Copied(wire, renaming, visits, objects, stored, b);
        assert renaming[b] != renaming[a];
      }
    }
  }

  lemma AllCopied(wire: Wire, renaming: map<ObjId, ObjId>, visits: Visits, objects: map<ObjId, Object>,
        stored: map<ObjId, Object>)
    requires renaming.Keys == Active(wire) && Injective(renaming)
    requires forall a :: a in renaming ==> Copied(wire, renaming, visits, objects, stored, a)
    ensures AllVisited(wire, renaming, visits, objects)
    ensures forall a :: a in renaming ==>
              renaming[a] in objects && renaming[a] in stored && stored[renaming[a]] == objects[renaming[a]]
  {
    hide ObjectVisited, Injective;
    forall a | a in renaming
      ensures renaming[a] in objects && renaming[a] in stored && stored[renaming[a]] == objects[renaming[a]]
    {
      assert Copied(wire, renaming, visits, objects, stored, a);
    }
    forall a | a in renaming
      ensures wire[a].value.loads.Some? && renaming[a] in objects
      ensures ObjectVisited(renaming, visits, a, wire[a].value.loads.value, objects[renaming[a]])
    {
      assert Copied(wire, renaming, visits, objects, stored, a);
    }
  }

  lemma OneMore(generate: nat -> ObjId, objects: map<ObjId, Object>, stored: map<ObjId, Object>, reserved: set<ObjId>,
                renaming: map<ObjId, ObjId>, a: ObjId, id: ObjId)
    requires Injective(renaming) && a !in renaming && AllNew(generate, objects, stored, reserved, renaming)
    requires FreeIn(objects, stored, reserved + renaming.Values, id) && Generated(generate, id)
    ensures Injective(renaming[a := id]) && AllNew(generate, objects, stored, reserved, renaming[a := id])
    ensures renaming[a := id].Values == renaming.Values + {id}
  {
    hide Generated;
    var more := renaming[a := id];
    assert more[a] == id;
    forall v | v in renaming.Values ensures v in more.Values {
      var b :| b in renaming && renaming[b] == v;
      assert more[b] == v;
    }
  }

  lemma NewIds(generate: nat -> ObjId, objects: map<ObjId, Object>, stored: map<ObjId, Object>, reserved: set<ObjId>,
               renaming: map<ObjId, ObjId>)
    requires AllNew(generate, objects, stored, reserved, renaming)
    ensures 0 !in renaming.Values
    ensures forall a :: a in renaming ==> FreeIn(objects, stored, reserved, renaming[a])
  {
  }

  function Images(renaming: map<ObjId, ObjId>, ids: set<ObjId>): set<ObjId> {
    set a | a in ids && a in renaming :: renaming[a]
  }

  lemma MoreImages(renaming: map<ObjId, ObjId>, ids: set<ObjId>, left: set<ObjId>, a: ObjId)
    requires a in left && left <= ids && a in renaming
    ensures Images(renaming, ids - (left - {a})) == Images(renaming, ids - left) + {renaming[a]}
  {
    assert ids - (left - {a}) == ids - left + {a};
  }

  lemma RootIsActive(reg: Registry, wire: Wire, root: ObjId, tops: map<ObjId, ClassId>)
    requires Closed(reg, wire, root, 0, tops)
    ensures root in Active(wire)
  {
  }

  lemma NoImages(renaming: map<ObjId, ObjId>, ids: set<ObjId>)
    ensures Images(renaming, ids - ids) == {}
  {
  }

  lemma AllImages(renaming: map<ObjId, ObjId>)
    ensures Images(renaming, renaming.Keys - {}) == renaming.Values
  {
  }

  lemma ClosedLinksArrive(reg: Registry, wire: Wire, root: ObjId, tops: map<ObjId, ClassId>,
        renaming: map<ObjId, ObjId>, a: ObjId)
    requires Closed(reg, wire, root, 0, tops) && renaming.Keys == Active(wire) && a in renaming
    ensures a in wire && wire[a].Some? && wire[a].value.loads.Some?
    ensures var links := wire[a].value.loads.value.links;
            forall i :: 0 <= i < |links| ==>
              var arrived := Remap(renaming, renaming.Values, links[i]);
              arrived.Some? && Arrives(renaming, links[i], arrived.value)
  {
    var links := wire[a].value.loads.value.links;
    forall i | 0 <= i < |links|
      ensures var arrived := Remap(renaming, renaming.Values, links[i]);
              arrived.Some? && Arrives(renaming, links[i], arrived.value)
    {
      assert LinkOk(reg, wire, tops, links[i]);
    }
  }

  /** In a closed graph every visit of every reference leads somewhere. */
  lemma ClosedLinksLead(reg: Registry, wire: Wire, root: ObjId, tops: map<ObjId, ClassId>, renaming: map<ObjId, ObjId>,
                        visits: Visits, a: ObjId)
    requires Closed(reg, wire, root, 0, tops) && renaming.Keys == Active(wire) && a in renaming
    ensures a in wire && wire[a].Some? && wire[a].value.loads.Some?
    ensures var links := wire[a].value.loads.value.links;
            forall i :: 0 <= i < |links| ==> RemapTimes(renaming, renaming.Values, links[i], visits(a, i)).Some?
  {
    var links := wire[a].value.loads.value.links;
    forall i | 0 <= i < |links| ensures RemapTimes(renaming, renaming.Values, links[i], visits(a, i)).Some? {
      assert LinkOk(reg, wire, tops, links[i]);
      RemapNeverFails(renaming, renaming.Values, links[i], visits(a, i));
    }
  }

  /** Where no reference is led on, the copy is isomorphic. */
  lemma SteadyArrives(reg: Registry, wire: Wire, root: ObjId, tops: map<ObjId, ClassId>, renaming: map<ObjId, ObjId>,
                      visits: Visits, objects: map<ObjId, Object>)
    requires Closed(reg, wire, root, 0, tops) && AllVisited(wire, renaming, visits, objects)
    requires Steady(renaming, visits) && 0 !in renaming.Values && forall id, i :: visits(id, i) > 0
    ensures Isomorphic(wire, renaming, objects)
  {
    hide Closed, Injective, Remap, RemapTimes;
    forall id | id in renaming ensures ObjectArrives(renaming, wire[id].value.loads.value, objects[renaming[id]]) {
      ClosedLinksArrive(reg, wire, root, tops, renaming, id);
      var links := wire[id].value.loads.value.links;
      forall i | 0 <= i < |links| ensures Arrives(renaming, links[i], objects[renaming[id]].links[i]) {
        VisitedOnce(renaming, links[i], visits(id, i));
      }
    }
  }

  lemma VisitedOnce(renaming: map<ObjId, ObjId>, l: Link, visits: nat)
    requires visits == 1 || (visits > 0 && Apart(renaming) && 0 !in renaming.Values)
    ensures RemapTimes(renaming, renaming.Values, l, visits) == Remap(renaming, renaming.Values, l)
  {
    if visits == 1 {
      assert RemapTimes(renaming, renaming.Values, l, 0) == Some(l);
    } else {
      RevisitsHarmless(renaming, renaming.Values, l, visits);
    }
  }
}
