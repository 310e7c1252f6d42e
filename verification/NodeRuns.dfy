/** Whole lives of a node: any sequence of operations, with compactions in between. */
module NodeRuns {
  import opened Basics
  import opened EventJournal
  import opened Nodes

  /** A public operation on a live node. */
  datatype Operation<+E> =
    | Commit(event: E, now: U64)
    | CommitShared(event: E, identity: SharedEventId, timestampUs: U64, usable: bool, now: U64)
    | EnsureCurrent
    | Rebuild
    | Compact(now: U64)
    | Configure(policy: RetentionPolicy, blocked: bool)

  /** What a node stands for: its base, everything ever folded into it, and the journal kept. */
  datatype Life<+S, +E> = Life(
    base: S,
    collapsed: seq<Record<E>>,
    journal: seq<Record<E>>,
    policy: RetentionPolicy,
    blocked: bool)
  {
    function History(): seq<Record<E>> {
      collapsed + journal
    }
  }

  // ----- the life as values -----

  /** First record from `i` on that retention needs. */
  function FirstRetained<E>(policy: RetentionPolicy, journal: seq<Record<E>>, now: nat, i: nat): nat
    requires i <= |journal|
    decreases |journal| - i
  {
    if i == |journal| || Retained(policy, journal, i, now) then i else FirstRetained(policy, journal, now, i + 1)
  }

  function Collapsible<E>(policy: RetentionPolicy, blocked: bool, journal: seq<Record<E>>, now: nat): nat {
    if blocked then 0 else FirstRetained(policy, journal, now, 0)
  }

  lemma {:induction false} FirstRetainedIs<E>(policy: RetentionPolicy, journal: seq<Record<E>>, now: nat, i: nat,
        k: nat)
    requires i <= k <= |journal|
    requires forall j :: i <= j < k ==> !Retained(policy, journal, j, now)
    requires k < |journal| ==> Retained(policy, journal, k, now)
    ensures FirstRetained(policy, journal, now, i) == k
    decreases k - i
  {
    if i < k {
      FirstRetainedIs(policy, journal, now, i + 1, k);
    }
  }

  /** There is one collapsible prefix. */
  lemma CollapsibleIs<E>(policy: RetentionPolicy, blocked: bool, journal: seq<Record<E>>, now: nat, k: nat)
    ensures IsCollapsible(policy, blocked, journal, now, k) <==> k == Collapsible(policy, blocked, journal, now)
  {
    if blocked {
    } else if IsCollapsible(policy, blocked, journal, now, k) {
      FirstRetainedIs(policy, journal, now, 0, k);
    } else {
      FirstRetainedFits(policy, journal, now, 0);
    }
  }

  lemma {:induction false} FirstRetainedFits<E>(policy: RetentionPolicy, journal: seq<Record<E>>, now: nat, i: nat)
    requires i <= |journal|
    ensures var k := FirstRetained(policy, journal, now, i);
            && i <= k <= |journal|
            && (forall j :: i <= j < k ==> !Retained(policy, journal, j, now))
            && (k < |journal| ==> Retained(policy, journal, k, now))
    decreases |journal| - i
  {
    if i < |journal| && !Retained(policy, journal, i, now) {
      FirstRetainedFits(policy, journal, now, i + 1);
    }
  }

  /** The records an operation adds to the history: at most one. */
  ghost function Added<S, L, E>(m: Model<S, L, E>, life: Life<S, E>, operation: Operation<E>): seq<Record<E>> {
    match operation
    case Commit(event, now) =>
      var ts := CommitTime(now, life.journal);
      if m.can(Fold(m, life.base, life.journal), event) && ts != 0 then [Record(event, NO_IDENTITY, ts, now)] else []
    case CommitShared(event, identity, ts, usable, now) =>
      var r := Record(event, identity, ts, now);
      if usable && identity.IsShared() && m.matches(event, identity, ts) &&
          Accepts(m, life.base, life.journal, r) then [r]
      else []
    case _ => []
  }

  ghost function StepLife<S, L, E>(m: Model<S, L, E>, life: Life<S, E>, operation: Operation<E>): Life<S, E> {
    match operation
    case Compact(now) =>
      var k := Collapsible(life.policy, life.blocked, life.journal, now);
      if |life.journal| < k then life
      else life.(base := Fold(m, life.base, life.journal[..k]),
                 collapsed := life.collapsed + life.journal[..k],
                 journal := life.journal[k..])
    case Configure(policy, blocked) => life.(policy := policy, blocked := blocked)
    case _ => life.(journal := InsertAll(life.journal, Added(m, life, operation)))
  }

  /**
  The one operation after which the object has to be discarded: a well-formed shared event, new to the
  journal, whose place is inside it and with which the journal does not replay.
   */
  ghost predicate Ends<S, L, E>(m: Model<S, L, E>, life: Life<S, E>, operation: Operation<E>) {
    && operation.CommitShared?
    && operation.usable
    && operation.identity.IsShared()
    && m.matches(operation.event, operation.identity, operation.timestampUs)
    && operation.timestampUs != 0
    && operation.identity !in Identities(life.journal)
    && LowerBound(life.journal, operation.timestampUs) < |life.journal|
    && Added(m, life, operation) == []
  }

  ghost function RunLife<S, L, E>(m: Model<S, L, E>, life: Life<S, E>, operations: seq<Operation<E>>): Life<S, E> {
    if operations == [] then life
    else StepLife(m, RunLife(m, life, operations[..|operations| - 1]), operations[|operations| - 1])
  }

  /** Every record added by the run, oldest first. */
  ghost function AddedBy<S, L, E>(m: Model<S, L, E>, life: Life<S, E>, operations: seq<Operation<E>>): seq<Record<E>> {
    if operations == [] then []
    else
      var k := |operations| - 1;
      AddedBy(m, life, operations[..k]) + Added(m, RunLife(m, life, operations[..k]), operations[k])
  }

  /** The journal is in order, and the base is what the original base becomes through what was collapsed. */
  ghost predicate LifeOk<S, L, E>(m: Model<S, L, E>, original: S, life: Life<S, E>) {
    && JournalOk(m, life.base, life.journal)
    && life.base == Fold(m, original, life.collapsed)
    && Admissible(m, original, life.History())
  }

  lemma InsertNone<E>(journal: seq<Record<E>>)
    ensures InsertAll(journal, []) == journal
  {
  }

  lemma InsertOne<E>(journal: seq<Record<E>>, r: Record<E>)
    ensures InsertAll(journal, [r]) == Insert(journal, r)
  {
    assert [r][..0] == [];
  }

  /** An addition of its own is accepted, and lies at the end. */
  lemma AddedIsAccepted<S, L, E>(m: Model<S, L, E>, original: S, life: Life<S, E>, operation: Operation<E>)
    requires LifeOk(m, original, life)
    ensures |Added(m, life, operation)| <= 1
    ensures forall r :: r in Added(m, life, operation) ==> Accepts(m, life.base, life.journal, r)
    ensures operation.Commit? ==>
              InsertAll(life.journal, Added(m, life, operation)) == life.journal + Added(m, life, operation)
  {
    if operation.Commit? && Added(m, life, operation) != [] {
      var r := Added(m, life, operation)[0];
      CommitTimeIsLatest(life.journal, operation.now);
      AppendAccepted(m, life.base, life.journal, r);
      InsertOne(life.journal, r);
    } else if operation.Commit? {
      assert life.journal + [] == life.journal;
    }
  }

  lemma HistoryAdmissible<S, L, E>(m: Model<S, L, E>, original: S, base: S, collapsed: seq<Record<E>>,
        journal: seq<Record<E>>)
    requires base == Fold(m, original, collapsed) && Admissible(m, original, collapsed)
    ensures Fold(m, original, collapsed + journal) == Fold(m, base, journal)
    ensures Admissible(m, original, collapsed + journal) <==> Admissible(m, base, journal)
  {
    FoldConcat(m, original, collapsed, journal);
  }

  lemma CollapsedAdmissible<S, L, E>(m: Model<S, L, E>, original: S, collapsed: seq<Record<E>>, journal: seq<Record<E>>)
    requires Admissible(m, original, collapsed + journal)
    ensures Admissible(m, original, collapsed)
  {
    FoldConcat(m, original, collapsed, journal);
  }

  /** Folding a prefix into the base keeps the life in order and its history as it is. */
  lemma CompactLife<S, L, E>(m: Model<S, L, E>, original: S, life: Life<S, E>, k: nat)
    requires LifeOk(m, original, life) && k <= |life.journal|
    ensures var base := Fold(m, life.base, life.journal[..k]);
            var after := Life(base, life.collapsed + life.journal[..k], life.journal[k..], life.policy, life.blocked);
            LifeOk(m, original, after) && after.History() == life.History()
  {
    hide Fold, Admissible, Sorted, UniqueIdentities, PositiveTimes;
    CollapsedAdmissible(m, original, life.collapsed, life.journal);
    FoldConcat(m, original, life.collapsed, life.journal[..k]);
    AdmissiblePrefix(m, life.base, life.journal, k);
    SuffixKeepsOrder(life.journal, k);
    Regroup(life.collapsed, life.journal, k);
  }

  lemma Regroup<T>(a: seq<T>, b: seq<T>, k: nat)
    requires k <= |b|
    ensures (a + b[..k]) + b[k..] == a + b
  {
  }

  lemma JournalAdmissible<S, L, E>(m: Model<S, L, E>, base: S, journal: seq<Record<E>>)
    requires JournalOk(m, base, journal)
    ensures Admissible(m, base, journal)
  {
  }

  lemma CompactedLength<E>(policy: RetentionPolicy, blocked: bool, journal: seq<Record<E>>, now: U64, k: nat)
    requires IsCollapsible(policy, blocked, journal, now, k)
    ensures k <= |journal|
  {
  }

  /** An accepted record keeps the life in order and is all the history gains. */
  lemma AddToLife<S, L, E>(m: Model<S, L, E>, original: S, life: Life<S, E>, r: Record<E>)
    requires LifeOk(m, original, life) && Accepts(m, life.base, life.journal, r)
    ensures LifeOk(m, original, life.(journal := Insert(life.journal, r)))
    ensures multiset(life.collapsed + Insert(life.journal, r)) == multiset(life.History()) + multiset{r}
  {
    hide JournalOk, Accepts, Insert, Admissible, Fold;
    AcceptedKeepsOk(m, life.base, life.journal, r);
    JournalAdmissible(m, life.base, Insert(life.journal, r));
    CollapsedAdmissible(m, original, life.collapsed, life.journal);
    HistoryAdmissible(m, original, life.base, life.collapsed, Insert(life.journal, r));
    InsertMembers(life.journal, r);
  }

  lemma StepKeepsLife<S, L, E>(m: Model<S, L, E>, original: S, life: Life<S, E>, operation: Operation<E>)
    requires LifeOk(m, original, life)
    ensures LifeOk(m, original, StepLife(m, life, operation))
    ensures multiset(StepLife(m, life, operation).History())
         == multiset(life.History()) + multiset(Added(m, life, operation))
  {
    hide JournalOk, Accepts, Insert, Admissible, Fold, FirstRetained, IsCollapsible;
    var added := Added(m, life, operation);
    AddedIsAccepted(m, original, life, operation);
    if operation.Compact? {
      var k := Collapsible(life.policy, life.blocked, life.journal, operation.now);
      CollapsibleIs(life.policy, life.blocked, life.journal, operation.now, k);
      CompactedLength(life.policy, life.blocked, life.journal, operation.now, k);
      CompactLife(m, original, life, k);
    } else if added == [] {
      assert StepLife(m, life, operation).History() == life.History();
    } else {
      assert added == [added[0]];
      InsertOne(life.journal, added[0]);
      AddToLife(m, original, life, added[0]);
    }
  }

  /**
  Nothing is ever lost, doubled or altered: after any run collapsed prefix and journal together hold the
  records there were at first and exactly those the run added, and they replay from the original base.
   */
  lemma {:induction false} RunKeepsHistory<S, L, E>(m: Model<S, L, E>, original: S, life: Life<S, E>,
        operations: seq<Operation<E>>)
    requires LifeOk(m, original, life)
    ensures LifeOk(m, original, RunLife(m, life, operations))
    ensures multiset(RunLife(m, life, operations).History())
         == multiset(life.History()) + multiset(AddedBy(m, life, operations))
  {
    hide LifeOk, StepLife, Added;
    if operations != [] {
      var k := |operations| - 1;
      RunKeepsHistory(m, original, life, operations[..k]);
      StepKeepsLife(m, original, RunLife(m, life, operations[..k]), operations[k]);
    }
  }

  // ----- identities across compactions -----

  lemma UniqueConcat<E>(a: seq<Record<E>>, b: seq<Record<E>>)
    ensures UniqueIdentities(a + b) <==> UniqueIdentities(a) && UniqueIdentities(b) && Identities(a) !! Identities(b)
  {
    var all := a + b;
    if UniqueIdentities(all) {
      assert forall i :: 0 <= i < |a| ==> all[i] == a[i];
      assert forall j :: 0 <= j < |b| ==> all[|a| + j] == b[j];
    }
    if UniqueIdentities(a) && UniqueIdentities(b) && Identities(a) !! Identities(b) {
      forall i, j | 0 <= i < j < |all| && all[i].identity.IsShared() ensures all[i].identity != all[j].identity {
        if i < |a| <= j {
          IdentityAt(a, i);
          if b[j - |a|].identity.IsShared() {
            IdentityAt(b, j - |a|);
          }
        }
      }
    }
  }

  /**
  Only the journal is searched for an identity, so uniqueness over the whole history survives an insertion
  exactly when the identity is not one that compaction has folded away.
   */
  lemma InsertKeepsHistoryUniqueIff<E>(collapsed: seq<Record<E>>, journal: seq<Record<E>>, r: Record<E>)
    requires UniqueIdentities(collapsed + journal) && r.identity !in Identities(journal)
    ensures UniqueIdentities(collapsed + Insert(journal, r)) <==> r.identity !in Identities(collapsed)
  {
    hide Insert, UniqueIdentities;
    UniqueConcat(collapsed, journal);
    UniqueConcat(collapsed, Insert(journal, r));
    InsertKeepsUnique(journal, r);
    InsertIdentities(journal, r);
  }

  // ----- the object -----

  /** The object is the life: same base, journal and settings, fields equal to the fold over the history. */
  ghost predicate Lives<S, L, E>(node: Node<S, L, E>, original: S, life: Life<S, E>)
    reads node
  {
    && node.Valid()
    && life == Life(node.base, life.collapsed, node.journal, node.policy, node.compactionBlocked)
    && LifeOk(node.model, original, life)
  }

  /** What the fields mean: the original base with everything ever recorded applied to it. */
  lemma FieldsAreTheHistory<S, L, E>(node: Node<S, L, E>, original: S, life: Life<S, E>)
    requires Lives(node, original, life)
    ensures node.fields == Fold(node.model, original, life.History())
  {
    CollapsedAdmissible(node.model, original, life.collapsed, life.journal);
    HistoryAdmissible(node.model, original, life.base, life.collapsed, life.journal);
  }

  method StepShared<S, L, E>(node: Node<S, L, E>, operation: Operation<E>, ghost original: S, ghost life: Life<S, E>)
      returns (ok: bool)
    requires Lives(node, original, life) && operation.CommitShared?
    modifies node
    ensures ok <==> !Ends(node.model, life, operation)
    ensures ok ==> Lives(node, original, StepLife(node.model, life, operation))
  {
    hide JournalOk, Accepts, Insert, LowerBound, Identities, Fold, FoldLocal, Admissible, LifeOk;
    var CommitShared(event, identity, ts, usable, now) := operation;
    var mayEnd := && LowerBound(node.journal, ts) < |node.journal|
                  && usable && identity.IsShared() && node.model.matches(event, identity, ts)
                  && ts != 0 && identity !in Identities(node.journal);
    StepKeepsLife(node.model, original, life, operation);
    InsertOne(node.journal, Record(event, identity, ts, now));
    var committed := node.TryCommitSharedInto(event, identity, ts, usable, now);
    ok := committed || !mayEnd;
  }

  method StepCompact<S, L, E>(node: Node<S, L, E>, now: U64, ghost original: S, ghost life: Life<S, E>)
    requires Lives(node, original, life)
    modifies node
    ensures Lives(node, original, StepLife(node.model, life, Compact(now)))
  {
    hide JournalOk, Fold, FoldLocal, Admissible, LifeOk, IsCollapsible, FirstRetained;
    ghost var journal0 := node.journal;
    StepKeepsLife(node.model, original, life, Compact(now));
    ghost var k := node.CompactJournalInto(now);
    CollapsibleIs(life.policy, life.blocked, journal0, now, k);
    CompactedLength(life.policy, life.blocked, journal0, now, k);
  }

  method StepCommit<S, L, E>(node: Node<S, L, E>, event: E, now: U64, ghost original: S, ghost life: Life<S, E>)
    requires Lives(node, original, life)
    modifies node
    ensures Lives(node, original, StepLife(node.model, life, Commit(event, now)))
  {
    hide JournalOk, Accepts, Insert, InsertAll, LowerBound, Fold, FoldLocal, Admissible, LifeOk;
    StepKeepsLife(node.model, original, life, Commit(event, now));
    AddedIsAccepted(node.model, original, life, Commit(event, now));
    assert node.journal + [] == node.journal;
    if node.model.can(node.fields, event) {
      var committed := node.CommitInto(event, now);
    }
  }

  /**
  One operation takes the object to the next life, unless it is the one that ends it. Commit's caller
  checks CanApply first, as the source demands.
   */
  method Step<S, L, E>(node: Node<S, L, E>, operation: Operation<E>, ghost original: S, ghost life: Life<S, E>)
      returns (ok: bool)
    requires Lives(node, original, life)
    modifies node
    ensures ok <==> !Ends(node.model, life, operation)
    ensures ok ==> Lives(node, original, StepLife(node.model, life, operation))
  {
    hide JournalOk, Accepts, Insert, InsertAll, LowerBound, Identities, Fold, FoldLocal, Admissible, LifeOk;
    ok := true;
    StepKeepsLife(node.model, original, life, operation);
    InsertNone(node.journal);
    match operation {
      case Commit(event, now) =>
        StepCommit(node, event, now, original, life);
      case CommitShared(_, _, _, _, _) =>
        ok := StepShared(node, operation, original, life);
      case EnsureCurrent =>
        NothingLeft(node.model, node.fields, node.journal);
        var current := node.TryEnsureCurrentGeneration();
        assert current;
      case Rebuild =>
        JournalAdmissible(node.model, node.base, node.journal);
        var rebuilt := node.TryRebuildFromBaseAndReplay();
        assert rebuilt;
      case Compact(now) =>
        StepCompact(node, now, original, life);
      case Configure(policy, blocked) =>
        node.policy := policy;
        node.compactionBlocked := blocked;
    }
  }

  /**
  Run the operations. The object goes through exactly the lives of RunLife, and its fields are always the
  fold of the original base over the whole history. It stops only in front of an operation that ends it.
   */
  method Run<S, L, E>(node: Node<S, L, E>, operations: seq<Operation<E>>) returns (done: nat)
    requires node.Valid()
    modifies node
    ensures done <= |operations|
    ensures var life := Life(old(node.base), [], old(node.journal), old(node.policy), old(node.compactionBlocked));
            && (forall i :: 0 <= i < done ==>
                !Ends(node.model, RunLife(node.model, life, operations[..i]), operations[i]))
            && (done < |operations| ==>
                Ends(node.model, RunLife(node.model, life, operations[..done]), operations[done]))
            && (done == |operations| ==>
                  && Lives(node, old(node.base), RunLife(node.model, life, operations))
                  && node.fields == Fold(node.model, old(node.base), RunLife(node.model, life, operations).History()))
  {
    hide Lives, StepLife, Ends, Fold, Admissible, JournalOk;
    ghost var original, life := node.base, Life(node.base, [], node.journal, node.policy, node.compactionBlocked);
    Beginning(node);
    assert operations[..0] == [];
    for i := 0 to |operations|
      invariant Lives(node, original, RunLife(node.model, life, operations[..i]))
      invariant forall j :: 0 <= j < i ==> !Ends(node.model, RunLife(node.model, life, operations[..j]), operations[j])
    {
      assert operations[..i + 1][..i] == operations[..i];
      var ok := Step(node, operations[i], original, RunLife(node.model, life, operations[..i]));
      if !ok {
        return i;
      }
    }
    assert operations[..|operations|] == operations;
    FieldsAreTheHistory(node, original, RunLife(node.model, life, operations));
    done := |operations|;
  }

  lemma Beginning<S, L, E>(node: Node<S, L, E>)
    requires node.Valid()
    ensures Lives(node, node.base, Life(node.base, [], node.journal, node.policy, node.compactionBlocked))
  {
    assert [] + node.journal == node.journal;
  }

  lemma NothingLeft<S, L, E>(m: Model<S, L, E>, s: S, journal: seq<Record<E>>)
    ensures journal[|journal|..] == [] && journal[..|journal|] == journal
    ensures Admissible(m, s, journal[|journal|..])
  {
  }
}
