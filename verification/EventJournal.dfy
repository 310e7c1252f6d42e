/**
The meaning of an event-sourced node: its fields are the fold of Apply over a base snapshot and a
journal ordered by timestamp. Everything here is about values; class `Node` is the code that keeps a
live object in step with this meaning.
 */
module EventJournal {
  import opened Basics

  /**
  What a concrete node class supplies. `S` are the fields that events and the base snapshot determine,
  `L` the local-persistent fields that a rebuild carries over instead of reloading (SharedNode's
  per-link sync states; unit for most nodes). `matches` is Event::MatchesSharedMetadata.
   */
  datatype Model<!S, !L, !E> = Model(
    apply: (S, E) -> S,
    can: (S, E) -> bool,
    applyLocal: (S, L, E) -> L,
    matches: (E, SharedEventId, nat) -> bool)

  datatype Record<+E> = Record(event: E, identity: SharedEventId, timestampUs: U64, retainedSinceUs: U64)

  /** What two replicas can agree on about a record: everything but the local retention stamp. */
  datatype Fact<+E> = Fact(event: E, identity: SharedEventId, timestampUs: U64)

  function FactOf<E>(r: Record<E>): Fact<E> {
    Fact(r.event, r.identity, r.timestampUs)
  }

  function Facts<E>(journal: seq<Record<E>>): seq<Fact<E>> {
    seq(|journal|, i requires 0 <= i < |journal| => FactOf(journal[i]))
  }

  // ----- replay -----

  function Fold<S, L, E>(m: Model<S, L, E>, s: S, journal: seq<Record<E>>): S {
    if journal == [] then s
    else
      var n := |journal| - 1;
      m.apply(Fold(m, s, journal[..n]), journal[n].event)
  }

  function FoldLocal<S, L, E>(m: Model<S, L, E>, s: S, l: L, journal: seq<Record<E>>): L {
    if journal == [] then l
    else
      var n := |journal| - 1;
      m.applyLocal(Fold(m, s, journal[..n]), FoldLocal(m, s, l, journal[..n]), journal[n].event)
  }

  /** Every record is admissible at its own replay point. */
  predicate Admissible<S, L, E>(m: Model<S, L, E>, s: S, journal: seq<Record<E>>) {
    journal == [] ||
    (var n := |journal| - 1;
     Admissible(m, s, journal[..n]) && m.can(Fold(m, s, journal[..n]), journal[n].event))
  }

  lemma {:induction false} FoldConcat<S, L, E>(m: Model<S, L, E>, s: S, a: seq<Record<E>>, b: seq<Record<E>>)
    ensures Fold(m, s, a + b) == Fold(m, Fold(m, s, a), b)
    ensures Admissible(m, s, a + b) <==> Admissible(m, s, a) && Admissible(m, Fold(m, s, a), b)
    decreases |b|
  {
    if b == [] {
      assert a + b == a;
    } else {
      var n := |b| - 1;
      assert (a + b)[..|a + b| - 1] == a + b[..n];
      FoldConcat(m, s, a, b[..n]);
    }
  }

  lemma {:induction false} FoldLocalConcat<S, L, E>(m: Model<S, L, E>, s: S, l: L, a: seq<Record<E>>, b: seq<Record<E>>)
    ensures FoldLocal(m, s, l, a + b) == FoldLocal(m, Fold(m, s, a), FoldLocal(m, s, l, a), b)
    decreases |b|
  {
    if b == [] {
      assert a + b == a;
    } else {
      var n := |b| - 1;
      assert (a + b)[..|a + b| - 1] == a + b[..n];
      FoldConcat(m, s, a, b[..n]);
      FoldLocalConcat(m, s, l, a, b[..n]);
    }
  }

  /** One step of a replay that started at `from` and has reached `c`. */
  lemma ReplayStep<S, L, E>(m: Model<S, L, E>, s: S, l: L, journal: seq<Record<E>>, from: nat, c: nat)
    requires from <= c < |journal|
    ensures Fold(m, s, journal[from..c + 1]) == m.apply(Fold(m, s, journal[from..c]), journal[c].event)
    ensures FoldLocal(m, s, l, journal[from..c + 1])
         == m.applyLocal(Fold(m, s, journal[from..c]), FoldLocal(m, s, l, journal[from..c]), journal[c].event)
    ensures Admissible(m, s, journal[from..c + 1])
       <==> Admissible(m, s, journal[from..c]) && m.can(Fold(m, s, journal[from..c]), journal[c].event)
  {
    var next := journal[from..c + 1];
    assert next[..|next| - 1] == journal[from..c];
    assert next[|next| - 1] == journal[c];
  }

  /** Replay depends on the events alone, not on identities, stamps or retention bookkeeping. */
  lemma {:induction false} FoldOfFacts<S, L, E>(m: Model<S, L, E>, s: S, a: seq<Record<E>>, b: seq<Record<E>>)
    requires Facts(a) == Facts(b)
    ensures Fold(m, s, a) == Fold(m, s, b)
    ensures Admissible(m, s, a) <==> Admissible(m, s, b)
    decreases |a|
  {
    assert |a| == |Facts(a)| == |Facts(b)| == |b|;
    if a != [] {
      var n := |a| - 1;
      assert Facts(a[..n]) == Facts(a)[..n] == Facts(b)[..n] == Facts(b[..n]);
      assert Facts(a)[n] == Facts(b)[n];
      FoldOfFacts(m, s, a[..n], b[..n]);
    }
  }

  /** Admissibility of a journal gives admissibility of each prefix. */
  lemma AdmissiblePrefix<S, L, E>(m: Model<S, L, E>, s: S, journal: seq<Record<E>>, k: nat)
    requires k <= |journal|
    requires Admissible(m, s, journal)
    ensures Admissible(m, s, journal[..k])
    ensures k < |journal| ==> m.can(Fold(m, s, journal[..k]), journal[k].event)
    ensures Admissible(m, Fold(m, s, journal[..k]), journal[k..])
    ensures Fold(m, s, journal) == Fold(m, Fold(m, s, journal[..k]), journal[k..])
  {
    assert journal == journal[..k] + journal[k..];
    FoldConcat(m, s, journal[..k], journal[k..]);
    if k < |journal| {
      var next := journal[..k + 1];
      assert next[..k] == journal[..k];
      assert journal == next + journal[k + 1..];
      FoldConcat(m, s, next, journal[k + 1..]);
    }
  }

  // ----- journal order -----

  /** Timestamps never decrease along the journal; nothing else decides position. */
  ghost predicate Sorted<E>(journal: seq<Record<E>>) {
    forall i, j :: 0 <= i < j < |journal| ==> journal[i].timestampUs <= journal[j].timestampUs
  }

  ghost predicate UniqueIdentities<E>(journal: seq<Record<E>>) {
    forall i, j :: 0 <= i < j < |journal| && journal[i].identity.IsShared() ==>
        journal[i].identity != journal[j].identity
  }

  ghost predicate PositiveTimes<E>(journal: seq<Record<E>>) {
    forall i :: 0 <= i < |journal| ==> 0 < journal[i].timestampUs
  }

  ghost predicate DistinctTimes<E>(journal: seq<Record<E>>) {
    forall i, j :: 0 <= i < j < |journal| ==> journal[i].timestampUs != journal[j].timestampUs
  }

  /** What every journal of a usable node satisfies. */
  ghost predicate JournalOk<S, L, E>(m: Model<S, L, E>, base: S, journal: seq<Record<E>>) {
    && Sorted(journal)
    && UniqueIdentities(journal)
    && PositiveTimes(journal)
    && Admissible(m, base, journal)
  }

  /** Identities of the shared events in a journal. */
  function Identities<E>(journal: seq<Record<E>>): set<SharedEventId> {
    set i | 0 <= i < |journal| && journal[i].identity.IsShared() :: journal[i].identity
  }

  /** First position whose timestamp is not below `ts` (std::lower_bound on a sorted journal). */
  function LowerBound<E>(journal: seq<Record<E>>, ts: nat): (k: nat)
    ensures k <= |journal|
    ensures forall i :: 0 <= i < k ==> journal[i].timestampUs < ts
    ensures k < |journal| ==> ts <= journal[k].timestampUs
  {
    if journal == [] || ts <= journal[0].timestampUs then 0 else 1 + LowerBound(journal[1..], ts)
  }

  function Insert<E>(journal: seq<Record<E>>, r: Record<E>): seq<Record<E>> {
    var k := LowerBound(journal, r.timestampUs);
    journal[..k] + [r] + journal[k..]
  }

  function InsertAll<E>(journal: seq<Record<E>>, rs: seq<Record<E>>): seq<Record<E>> {
    if rs == [] then journal
    else Insert(InsertAll(journal, rs[..|rs| - 1]), rs[|rs| - 1])
  }

  lemma InsertAt<E>(journal: seq<Record<E>>, r: Record<E>)
    ensures |Insert(journal, r)| == |journal| + 1
    ensures forall i {:trigger Insert(journal, r)[i]} :: 0 <= i < LowerBound(journal, r.timestampUs) ==>
              Insert(journal, r)[i] == journal[i]
    ensures Insert(journal, r)[LowerBound(journal, r.timestampUs)] == r
    ensures forall i {:trigger Insert(journal, r)[i]} :: LowerBound(journal, r.timestampUs) < i <= |journal| ==>
              Insert(journal, r)[i] == journal[i - 1]
  {
  }

  lemma InsertKeepsSorted<E>(journal: seq<Record<E>>, r: Record<E>)
    requires Sorted(journal)
    ensures Sorted(Insert(journal, r))
  {
    InsertAt(journal, r);
    var k := LowerBound(journal, r.timestampUs);
    var out := Insert(journal, r);
    forall i, j | 0 <= i < j < |out| ensures out[i].timestampUs <= out[j].timestampUs {
      if i == k {
        assert out[j] == journal[j - 1];
      } else if j == k {
        assert out[i] == journal[i];
      }
    }
  }

  /** Insertion adds the one record and disturbs no other. */
  lemma InsertMembers<E>(journal: seq<Record<E>>, r: Record<E>)
    ensures multiset(Insert(journal, r)) == multiset(journal) + multiset{r}
  {
    var k := LowerBound(journal, r.timestampUs);
    assert journal == journal[..k] + journal[k..];
  }

  lemma InsertFrom<E>(journal: seq<Record<E>>, r: Record<E>)
    ensures forall x :: x in Insert(journal, r) ==> x in journal || x == r
  {
  }

  lemma IdentityAt<E>(journal: seq<Record<E>>, i: nat)
    requires i < |journal| && journal[i].identity.IsShared()
    ensures journal[i].identity in Identities(journal)
  {
  }

  lemma InsertIdentities<E>(journal: seq<Record<E>>, r: Record<E>)
    ensures Identities(journal) <= Identities(Insert(journal, r))
    ensures Identities(Insert(journal, r)) <= Identities(journal) + {r.identity}
    ensures r.identity.IsShared() ==> r.identity in Identities(Insert(journal, r))
  {
    var k := LowerBound(journal, r.timestampUs);
    InsertAt(journal, r);
    var out := Insert(journal, r);
    forall id | id in Identities(journal) ensures id in Identities(out) {
      var i :| 0 <= i < |journal| && journal[i].identity.IsShared() && journal[i].identity == id;
      var o := if i < k then i else i + 1;
      assert out[o] == journal[i];
      IdentityAt(out, o);
    }
    if r.identity.IsShared() {
      IdentityAt(out, k);
    }
    forall id | id in Identities(out) ensures id in Identities(journal) + {r.identity} {
      var i :| 0 <= i < |out| && out[i].identity.IsShared() && out[i].identity == id;
      if i != k {
        IdentityAt(journal, if i < k then i else i - 1);
      }
    }
  }

  lemma InsertKeepsUnique<E>(journal: seq<Record<E>>, r: Record<E>)
    requires UniqueIdentities(journal)
    requires r.identity !in Identities(journal)
    ensures UniqueIdentities(Insert(journal, r))
  {
    InsertAt(journal, r);
    var k := LowerBound(journal, r.timestampUs);
    var out := Insert(journal, r);
    forall i, j | 0 <= i < j < |out| && out[i].identity.IsShared() ensures out[i].identity != out[j].identity {
      if i == k {
        assert out[j] == journal[j - 1];
      } else if j == k {
        assert out[i] == journal[i];
      }
    }
  }

  /** The lower bound is the only position that keeps the journal sorted and puts ties after the newcomer. */
  lemma LowerBoundUnique<E>(journal: seq<Record<E>>, ts: nat, k: nat)
    requires Sorted(journal) && k <= |journal|
    requires forall i :: 0 <= i < k ==> journal[i].timestampUs < ts
    requires k < |journal| ==> ts <= journal[k].timestampUs
    ensures LowerBound(journal, ts) == k
  {
  }

  // ----- order independence -----

  ghost predicate StrictlySorted<E>(facts: seq<Fact<E>>) {
    forall i, j :: 0 <= i < j < |facts| ==> facts[i].timestampUs < facts[j].timestampUs
  }

  /** A strictly sorted sequence is determined by the set of its elements. */
  lemma {:induction false} StrictlySortedUnique<E>(a: seq<Fact<E>>, b: seq<Fact<E>>)
    requires StrictlySorted(a) && StrictlySorted(b)
    requires SeqToSet(a) == SeqToSet(b)
    ensures a == b
    decreases |a|
  {
    if a == [] || b == [] {
      NoElements(a);
      NoElements(b);
    } else {
      SameLast(a, b);
      StrictlySortedUnique(a[..|a| - 1], b[..|b| - 1]);
      assert a == a[..|a| - 1] + [a[|a| - 1]] && b == b[..|b| - 1] + [b[|b| - 1]];
    }
  }

  lemma SameLast<E>(a: seq<Fact<E>>, b: seq<Fact<E>>)
    requires StrictlySorted(a) && StrictlySorted(b) && a != [] && b != []
    requires SeqToSet(a) == SeqToSet(b)
    ensures a[|a| - 1] == b[|b| - 1]
    ensures StrictlySorted(a[..|a| - 1]) && StrictlySorted(b[..|b| - 1])
    ensures SeqToSet(a[..|a| - 1]) == SeqToSet(b[..|b| - 1])
  {
    LastIsLatest(a, b);
    LastIsLatest(b, a);
    LastRemoved(a);
    LastRemoved(b);
  }

  lemma FactsLast<E>(rs: seq<Record<E>>)
    requires rs != []
    ensures SeqToSet(Facts(rs)) == SeqToSet(Facts(rs[..|rs| - 1])) + {FactOf(rs[|rs| - 1])}
  {
    var n := |rs| - 1;
    assert Facts(rs) == Facts(rs[..n]) + [FactOf(rs[n])];
    SetOfAppend(Facts(rs[..n]), FactOf(rs[n]));
  }

  lemma SetOfAppend<T>(s: seq<T>, x: T)
    ensures SeqToSet(s + [x]) == SeqToSet(s) + {x}
  {
  }

  lemma NoElements<T>(s: seq<T>)
    ensures SeqToSet(s) == {} ==> s == []
  {
    assert s != [] ==> s[0] in SeqToSet(s);
  }

  lemma LastIsLatest<E>(a: seq<Fact<E>>, b: seq<Fact<E>>)
    requires StrictlySorted(b) && SeqToSet(a) == SeqToSet(b) && a != [] && b != []
    ensures a[|a| - 1].timestampUs <= b[|b| - 1].timestampUs
    ensures a[|a| - 1].timestampUs == b[|b| - 1].timestampUs ==> a[|a| - 1] == b[|b| - 1]
  {
    assert a[|a| - 1] in SeqToSet(b);
  }

  lemma LastRemoved<E>(a: seq<Fact<E>>)
    requires StrictlySorted(a) && a != []
    ensures SeqToSet(a[..|a| - 1]) == SeqToSet(a) - {a[|a| - 1]}
    ensures StrictlySorted(a[..|a| - 1])
  {
    var n := |a| - 1;
    forall x ensures x in a[..n] <==> x in a && x != a[n] {
      if x in a && x != a[n] {
        var i :| 0 <= i < |a| && a[i] == x;
        assert a[..n][i] == x;
      }
    }
  }

  /** Whether TryInsertEvent can take `r`: the whole journal must still replay with `r` at its place. */
  predicate Accepts<S, L, E>(m: Model<S, L, E>, base: S, journal: seq<Record<E>>, r: Record<E>) {
    && 0 < r.timestampUs
    && r.identity !in Identities(journal)
    && Admissible(m, base, Insert(journal, r))
  }

  lemma AcceptedKeepsOk<S, L, E>(m: Model<S, L, E>, base: S, journal: seq<Record<E>>, r: Record<E>)
    requires JournalOk(m, base, journal) && Accepts(m, base, journal, r)
    ensures JournalOk(m, base, Insert(journal, r))
  {
    InsertKeepsSorted(journal, r);
    InsertKeepsUnique(journal, r);
    InsertAt(journal, r);
    var out := Insert(journal, r);
    forall i | 0 <= i < |out| ensures 0 < out[i].timestampUs {
      if i > LowerBound(journal, r.timestampUs) {
        assert out[i] == journal[i - 1];
      }
    }
  }

  /** Every record of `rs` is accepted when inserted in this order. */
  predicate AllAccepted<S, L, E>(m: Model<S, L, E>, base: S, journal: seq<Record<E>>, rs: seq<Record<E>>) {
    rs == [] ||
    (var n := |rs| - 1;
     AllAccepted(m, base, journal, rs[..n]) && Accepts(m, base, InsertAll(journal, rs[..n]), rs[n]))
  }

  lemma {:induction false} InsertAllKeepsOk<S, L, E>(m: Model<S, L, E>, base: S, journal: seq<Record<E>>,
        rs: seq<Record<E>>)
    requires JournalOk(m, base, journal) && AllAccepted(m, base, journal, rs)
    ensures JournalOk(m, base, InsertAll(journal, rs))
  {
    if rs != [] {
      var n := |rs| - 1;
      InsertAllKeepsOk(m, base, journal, rs[..n]);
      AcceptedKeepsOk(m, base, InsertAll(journal, rs[..n]), rs[n]);
    }
  }

  lemma InsertFacts<E>(journal: seq<Record<E>>, r: Record<E>)
    ensures SeqToSet(Facts(Insert(journal, r))) == SeqToSet(Facts(journal)) + {FactOf(r)}
  {
    InsertAt(journal, r);
    var k := LowerBound(journal, r.timestampUs);
    var out := Insert(journal, r);
    forall f | f in SeqToSet(Facts(out)) ensures f in SeqToSet(Facts(journal)) + {FactOf(r)} {
      var i :| 0 <= i < |Facts(out)| && Facts(out)[i] == f;
      if i != k {
        assert f == Facts(journal)[if i < k then i else i - 1];
      }
    }
    assert FactOf(r) == Facts(out)[k];
    forall f | f in SeqToSet(Facts(journal)) ensures f in SeqToSet(Facts(out)) {
      var i :| 0 <= i < |Facts(journal)| && Facts(journal)[i] == f;
      assert f == Facts(out)[if i < k then i else i + 1];
    }
  }

  lemma {:induction false} InsertAllFacts<E>(journal: seq<Record<E>>, rs: seq<Record<E>>)
    ensures SeqToSet(Facts(InsertAll(journal, rs))) == SeqToSet(Facts(journal)) + SeqToSet(Facts(rs))
  {
    if rs == [] {
    } else {
      var n := |rs| - 1;
      InsertAllFacts(journal, rs[..n]);
      InsertFacts(InsertAll(journal, rs[..n]), rs[n]);
      FactsLast(rs);
    }
  }

  lemma SortedDistinctFacts<E>(journal: seq<Record<E>>)
    requires Sorted(journal) && DistinctTimes(journal)
    ensures StrictlySorted(Facts(journal))
  {
  }

  lemma InsertKeepsDistinct<E>(journal: seq<Record<E>>, r: Record<E>)
    requires DistinctTimes(journal)
    requires forall i :: 0 <= i < |journal| ==> journal[i].timestampUs != r.timestampUs
    ensures DistinctTimes(Insert(journal, r))
  {
    InsertAt(journal, r);
    var k := LowerBound(journal, r.timestampUs);
    var out := Insert(journal, r);
    forall i, j | 0 <= i < j < |out| ensures out[i].timestampUs != out[j].timestampUs {
      if i == k {
        assert out[j] == journal[j - 1];
      } else if j == k {
        assert out[i] == journal[i];
      }
    }
  }

  lemma {:induction false} InsertAllFrom<E>(journal: seq<Record<E>>, rs: seq<Record<E>>)
    ensures forall x :: x in InsertAll(journal, rs) ==> x in journal || x in rs
  {
    if rs != [] {
      var n := |rs| - 1;
      InsertAllFrom(journal, rs[..n]);
      InsertFrom(InsertAll(journal, rs[..n]), rs[n]);
    }
  }

  lemma {:induction false} InsertAllKeepsDistinct<E>(journal: seq<Record<E>>, rs: seq<Record<E>>)
    requires DistinctTimes(journal + rs)
    ensures DistinctTimes(InsertAll(journal, rs))
  {
    if rs == [] {
      assert journal + rs == journal;
    } else {
      var n := |rs| - 1;
      var all := journal + rs;
      DistinctPrefix(journal, rs);
      InsertAllKeepsDistinct(journal, rs[..n]);
      InsertAllFrom(journal, rs[..n]);
      var mid := InsertAll(journal, rs[..n]);
      forall i | 0 <= i < |mid| ensures mid[i].timestampUs != rs[n].timestampUs {
        LastDiffers(journal, rs, mid[i]);
      }
      InsertKeepsDistinct(mid, rs[n]);
    }
  }

  lemma DistinctPrefix<E>(a: seq<Record<E>>, b: seq<Record<E>>)
    requires DistinctTimes(a + b) && b != []
    ensures DistinctTimes(a + b[..|b| - 1])
  {
    assert a + b[..|b| - 1] == (a + b)[..|a + b| - 1];
  }

  lemma LastDiffers<E>(a: seq<Record<E>>, b: seq<Record<E>>, x: Record<E>)
    requires DistinctTimes(a + b) && b != []
    requires x in a || x in b[..|b| - 1]
    ensures x.timestampUs != b[|b| - 1].timestampUs
  {
    var all := a + b;
    assert all[|all| - 1] == b[|b| - 1];
    if x in a {
      var i :| 0 <= i < |a| && a[i] == x;
      assert all[i] == x;
    } else {
      var i :| 0 <= i < |b| - 1 && b[i] == x;
      assert all[|a| + i] == x;
    }
  }

  /**
  Insertion order does not matter. Two nodes that start from equal bases and journals and accept the
  same shared events, in whatever orders, end with equal journals and equal fields, provided no two
  events share a timestamp. Local retention stamps are not compared.
   */
  lemma InsertionOrderIrrelevant<S, L, E>(m: Model<S, L, E>, base: S,
      j1: seq<Record<E>>, j2: seq<Record<E>>, xs: seq<Record<E>>, ys: seq<Record<E>>)
    requires JournalOk(m, base, j1) && JournalOk(m, base, j2) && Facts(j1) == Facts(j2)
    requires AllAccepted(m, base, j1, xs) && AllAccepted(m, base, j2, ys)
    requires SeqToSet(Facts(xs)) == SeqToSet(Facts(ys))
    requires DistinctTimes(j1 + xs) && DistinctTimes(j2 + ys)
    ensures Facts(InsertAll(j1, xs)) == Facts(InsertAll(j2, ys))
    ensures Fold(m, base, InsertAll(j1, xs)) == Fold(m, base, InsertAll(j2, ys))
  {
    var a, b := InsertAll(j1, xs), InsertAll(j2, ys);
    InsertAllKeepsOk(m, base, j1, xs);
    InsertAllKeepsOk(m, base, j2, ys);
    InsertAllKeepsDistinct(j1, xs);
    InsertAllKeepsDistinct(j2, ys);
    InsertAllFacts(j1, xs);
    InsertAllFacts(j2, ys);
    SortedDistinctFacts(a);
    SortedDistinctFacts(b);
    StrictlySortedUnique(Facts(a), Facts(b));
    FoldOfFacts(m, base, a, b);
  }

  /** Ties are exactly where order does matter: the later arrival goes in front. */
  lemma SwapInsertions<E>(journal: seq<Record<E>>, a: Record<E>, b: Record<E>)
    requires Sorted(journal)
    ensures Insert(Insert(journal, a), b) == Insert(Insert(journal, b), a)
            <==> a.timestampUs != b.timestampUs || a == b
  {
    var i, j := LowerBound(journal, a.timestampUs), LowerBound(journal, b.timestampUs);
    if a.timestampUs == b.timestampUs {
      InsertTwiceBelow(journal, a, b);
      InsertTwiceBelow(journal, b, a);
      assert Insert(Insert(journal, a), b)[i] == b;
      assert Insert(Insert(journal, b), a)[i] == a;
    } else if a.timestampUs < b.timestampUs {
      InsertTwiceAbove(journal, a, b);
      InsertTwiceBelow(journal, b, a);
      Reassociate(journal[..i], [a], journal[i..j], [b], journal[j..]);
    } else {
      InsertTwiceBelow(journal, a, b);
      InsertTwiceAbove(journal, b, a);
      Reassociate(journal[..j], [b], journal[j..i], [a], journal[i..]);
    }
  }

  lemma InsertTwiceBelow<E>(journal: seq<Record<E>>, a: Record<E>, b: Record<E>)
    requires Sorted(journal) && b.timestampUs <= a.timestampUs
    ensures var i, j := LowerBound(journal, a.timestampUs), LowerBound(journal, b.timestampUs);
            j <= i && Insert(Insert(journal, a), b) == journal[..j] + [b] + (journal[j..i] + [a] + journal[i..])
  {
    LowerBoundMonotone(journal, b.timestampUs, a.timestampUs);
    LowerBoundBelow(journal, a, b.timestampUs);
    SplitBefore(journal, LowerBound(journal, a.timestampUs), LowerBound(journal, b.timestampUs), a);
  }

  lemma InsertTwiceAbove<E>(journal: seq<Record<E>>, a: Record<E>, b: Record<E>)
    requires Sorted(journal) && a.timestampUs < b.timestampUs
    ensures var i, j := LowerBound(journal, a.timestampUs), LowerBound(journal, b.timestampUs);
            i <= j && Insert(Insert(journal, a), b) == journal[..i] + [a] + journal[i..j] + [b] + journal[j..]
  {
    var i, j := LowerBound(journal, a.timestampUs), LowerBound(journal, b.timestampUs);
    LowerBoundMonotone(journal, a.timestampUs, b.timestampUs);
    LowerBoundAbove(journal, a, b.timestampUs);
    SplitAfter(journal, i, j, a);
    InsertGiven(Insert(journal, a), b, j + 1, journal[..i] + [a] + journal[i..j], journal[j..]);
  }

  lemma InsertGiven<E>(journal: seq<Record<E>>, r: Record<E>, k: nat, before: seq<Record<E>>, after: seq<Record<E>>)
    requires LowerBound(journal, r.timestampUs) == k && journal[..k] == before && journal[k..] == after
    ensures Insert(journal, r) == before + [r] + after
  {
  }

  lemma Reassociate<T>(p: seq<T>, a: seq<T>, q: seq<T>, b: seq<T>, r: seq<T>)
    ensures p + a + q + b + r == p + a + (q + b + r)
  {
  }

  lemma LowerBoundBelow<E>(journal: seq<Record<E>>, a: Record<E>, ts: nat)
    requires Sorted(journal) && ts <= a.timestampUs
    ensures LowerBound(Insert(journal, a), ts) == LowerBound(journal, ts)
  {
    InsertAt(journal, a);
    InsertKeepsSorted(journal, a);
    LowerBoundMonotone(journal, ts, a.timestampUs);
    LowerBoundUnique(Insert(journal, a), ts, LowerBound(journal, ts));
  }

  lemma LowerBoundAbove<E>(journal: seq<Record<E>>, a: Record<E>, ts: nat)
    requires Sorted(journal) && a.timestampUs < ts
    ensures LowerBound(Insert(journal, a), ts) == LowerBound(journal, ts) + 1
  {
    InsertAt(journal, a);
    InsertKeepsSorted(journal, a);
    LowerBoundMonotone(journal, a.timestampUs, ts);
    var j := LowerBound(journal, ts);
    assert j < |journal| ==> Insert(journal, a)[j + 1] == journal[j];
    LowerBoundUnique(Insert(journal, a), ts, j + 1);
  }

  lemma SplitBefore<T>(s: seq<T>, i: nat, j: nat, a: T)
    requires j <= i <= |s|
    ensures (s[..i] + [a] + s[i..])[..j] == s[..j]
    ensures (s[..i] + [a] + s[i..])[j..] == s[j..i] + [a] + s[i..]
  {
  }

  lemma SplitAfter<T>(s: seq<T>, i: nat, j: nat, a: T)
    requires i <= j <= |s|
    ensures (s[..i] + [a] + s[i..])[..j + 1] == s[..i] + [a] + s[i..j]
    ensures (s[..i] + [a] + s[i..])[j + 1..] == s[j..]
  {
  }

  lemma {:induction false} LowerBoundMonotone<E>(journal: seq<Record<E>>, s: nat, t: nat)
    requires Sorted(journal) && s <= t
    ensures LowerBound(journal, s) <= LowerBound(journal, t)
  {
    if journal != [] && journal[0].timestampUs < s {
      LowerBoundMonotone(journal[1..], s, t);
    }
  }
}
