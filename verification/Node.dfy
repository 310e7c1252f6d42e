/** The live node object: the code paths that keep its fields equal to the fold over its journal. */
module Nodes {
  import opened Basics
  import opened EventJournal

  /** Replay cursor. `FullyMaterialized` is the sentinel a freshly loaded node carries. */
  datatype Cursor = FullyMaterialized | Applied(count: nat)

  /** `maxEvents` None is "keep every event"; `maxAge` is a signed count of microseconds. */
  datatype RetentionPolicy = RetentionPolicy(maxEvents: Option<nat>, maxAge: Option<I64>)

  /** Conversion of a signed 64-bit count to unsigned, as the age comparison performs it. */
  function AsUnsigned(x: I64): U64 {
    if x < 0 then x + 0x1_0000_0000_0000_0000 else x
  }

  predicate RetainedByCount(policy: RetentionPolicy, size: nat, i: nat) {
    policy.maxEvents.None? || size - i <= policy.maxEvents.value
  }

  predicate RetainedByAge(policy: RetentionPolicy, retainedSince: nat, now: nat) {
    policy.maxAge.Some? && (now < retainedSince || now - retainedSince <= AsUnsigned(policy.maxAge.value))
  }

  predicate Retained<E>(policy: RetentionPolicy, journal: seq<Record<E>>, i: nat, now: nat)
    requires i < |journal|
  {
    RetainedByCount(policy, |journal|, i) || RetainedByAge(policy, journal[i].retainedSinceUs, now)
  }

  /** `k` is the longest prefix that neither count nor age retention needs. */
  ghost predicate IsCollapsible<E>(policy: RetentionPolicy, blocked: bool, journal: seq<Record<E>>, now: nat, k: nat) {
    && k <= |journal|
    && (blocked ==> k == 0)
    && (forall i :: 0 <= i < k ==> !Retained(policy, journal, i, now))
    && (!blocked && k < |journal| ==> Retained(policy, journal, k, now))
  }

  /** Timestamp a local commit gets: the clock, pushed past the journal's last record, in 64 bits. */
  function CommitTime<E>(now: U64, journal: seq<Record<E>>): U64 {
    if journal != [] && now <= journal[|journal| - 1].timestampUs then
      (if journal[|journal| - 1].timestampUs == MAX_U64 then 0 else journal[|journal| - 1].timestampUs + 1)
    else now
  }

  class Node<S, L, E> {
    const model: Model<S, L, E>
    var base: S
    var journal: seq<Record<E>>
    var fields: S
    var local: L
    var generation: nat
    var cursor: Cursor
    var policy: RetentionPolicy
    var compactionBlocked: bool
    var suppressChange: bool
    var notifications: nat  // calls made to the materialized-change notifier

    /** The state every public operation starts from and returns to. */
    ghost predicate Valid()
      reads this
    {
      && JournalOk(model, base, journal)
      && fields == Fold(model, base, journal)
      && (cursor.FullyMaterialized? || cursor == Applied(|journal|))
      && !suppressChange
    }

    /** Replay in progress: the fields hold exactly the records the cursor claims. */
    ghost predicate Replaying()
      reads this
    {
      match cursor
      case FullyMaterialized => fields == Fold(model, base, journal)
      case Applied(n) => n <= |journal| && fields == Fold(model, base, journal[..n])
    }

    /** A node that has just been initialized: base equal to the live fields, empty journal. */
    constructor (model: Model<S, L, E>, fields: S, local: L)
      ensures Valid() && fresh(this)
      ensures this.model == model && this.base == fields && this.fields == fields && this.local == local
      ensures journal == [] && generation == 1 && notifications == 0
      ensures policy == RetentionPolicy(None, None) && !compactionBlocked
    {
      this.model := model;
      this.base, this.fields, this.local, this.journal := fields, fields, local, [];
      generation, cursor, notifications := 1, FullyMaterialized, 0;
      policy, compactionBlocked, suppressChange := RetentionPolicy(None, None), false, false;
    }

    /** A node as loading leaves it: whatever fields were stored, not yet replayed. */
    constructor Loaded(model: Model<S, L, E>, base: S, journal: seq<Record<E>>, fields: S, local: L)
      ensures fresh(this) && !suppressChange
      ensures this.model == model && this.base == base && this.journal == journal && this.fields == fields
      ensures this.local == local && cursor == FullyMaterialized && notifications == 0
      ensures generation == 1 && policy == RetentionPolicy(None, None) && !compactionBlocked
    {
      this.model := model;
      this.base, this.fields, this.local, this.journal := base, fields, local, journal;
      generation, cursor, notifications := 1, FullyMaterialized, 0;
      policy, compactionBlocked, suppressChange := RetentionPolicy(None, None), false, false;
    }

    method NoteMaterializedChange()
      modifies this`generation, this`notifications
      ensures generation == old(generation) + if suppressChange then 0 else 1
      ensures notifications == old(notifications) + if suppressChange then 0 else 1
    {
      if suppressChange {
        return;
      }
      generation := generation + 1;
      notifications := notifications + 1;
    }

    method ApplyEvent(event: E)
      modifies this`fields, this`local, this`generation, this`notifications
      ensures fields == model.apply(old(fields), event)
      ensures local == model.applyLocal(old(fields), old(local), event)
      ensures generation == old(generation) + if suppressChange then 0 else 1
      ensures notifications == old(notifications) + if suppressChange then 0 else 1
    {
      local := model.applyLocal(fields, local, event);
      fields := model.apply(fields, event);
      NoteMaterializedChange();
    }

    /**
    Apply every record the cursor has not passed. It succeeds exactly when the rest of the journal is
    admissible from the current fields, and otherwise stops in front of the first inadmissible record.
     */
    method TryEnsureCurrentGeneration() returns (ok: bool)
      requires Replaying()
      modifies this`fields, this`local, this`generation, this`notifications, this`cursor
      ensures Replaying() && cursor.Applied?
      ensures old(cursor).FullyMaterialized? ==>
                ok && fields == old(fields) && local == old(local) && generation == old(generation)
                && notifications == old(notifications) && cursor == Applied(|journal|)
      ensures old(cursor).Applied? ==>
                && old(cursor).count <= cursor.count
                && (ok <==> Admissible(model, old(fields), journal[old(cursor).count..]))
                && (ok <==> cursor.count == |journal|)
                && (!ok ==> !model.can(fields, journal[cursor.count].event))
                && local == FoldLocal(model, old(fields), old(local), journal[old(cursor).count..cursor.count])
                && generation == old(generation) + (if suppressChange then 0 else cursor.count - old(cursor).count)
                && notifications == old(notifications) + (if suppressChange then 0
                    else cursor.count - old(cursor).count)
    {
      if cursor.FullyMaterialized? {
        cursor := Applied(|journal|);
        assert journal[..|journal|] == journal;
        ok := true;
        return;
      }
      ghost var s0, l0, n0, g0, c0 := fields, local, cursor.count, generation, notifications;
      assert journal[n0..n0] == [];
      while cursor.count < |journal|
        invariant cursor.Applied? && n0 <= cursor.count <= |journal|
        invariant fields == Fold(model, s0, journal[n0..cursor.count])
        invariant local == FoldLocal(model, s0, l0, journal[n0..cursor.count])
        invariant Admissible(model, s0, journal[n0..cursor.count])
        invariant generation == g0 + if suppressChange then 0 else cursor.count - n0
        invariant notifications == c0 + if suppressChange then 0 else cursor.count - n0
      {
        var c := cursor.count;
        ReplayStep(model, s0, l0, journal, n0, c);
        if !model.can(fields, journal[c].event) {
          StuckAt(model, s0, journal, n0, c);
          ReplayedSoFar(model, base, journal, n0, c);
          return false;
        }
        ApplyEvent(journal[c].event);
        cursor := Applied(c + 1);
      }
      ReplayedSoFar(model, base, journal, n0, |journal|);
      WholeSlice(journal, n0);
      ok := true;
    }

    method TryReplayJournal() returns (ok: bool)
      requires fields == base
      modifies this`fields, this`local, this`generation, this`notifications, this`cursor
      ensures ok <==> Admissible(model, base, journal)
      ensures ok ==> fields == Fold(model, base, journal) && cursor == Applied(|journal|)
      ensures ok ==> local == FoldLocal(model, base, old(local), journal)
      ensures ok ==> generation == old(generation) + if suppressChange then 0 else |journal|
      ensures suppressChange ==> notifications == old(notifications)
    {
      cursor := Applied(0);
      assert journal[..0] == [] && journal[0..] == journal;
      ok := TryEnsureCurrentGeneration();
      assert journal[..|journal|] == journal;
    }

    /**
    Reload the base and replay. The event-sourced fields start over from the base; the local-persistent
    ones are stashed across the reload and only see the replayed events.
     */
    method TryRebuildFromBaseAndReplay() returns (ok: bool)
      modifies this`fields, this`local, this`generation, this`notifications, this`cursor
      ensures ok <==> Admissible(model, base, journal)
      ensures ok ==> fields == Fold(model, base, journal) && cursor == Applied(|journal|)
      ensures ok ==> local == FoldLocal(model, base, old(local), journal)
      ensures ok ==> generation == 1 + if suppressChange then 0 else |journal|
      ensures suppressChange ==> notifications == old(notifications)
    {
      fields := base;
      generation := 1;
      ok := TryReplayJournal();
    }

    /**
    Insert at the timestamp's place: append when the newcomer is latest, otherwise rebuild from base.
    Both paths succeed exactly when the whole journal replays with the record in it, and then agree
    with the fold. `usable` stands for the validity and domain checks on node, base and event. A rejected
    append leaves journal and fields as they were; after a rejected mid-journal insert the object is
    to be discarded and nothing is promised about it.
     */
    method TryInsertEvent(record: Record<E>, usable: bool, now: U64) returns (ok: bool)
      requires Valid()
      modifies this`journal, this`fields, this`local, this`generation, this`notifications, this`cursor
      ensures ok <==> usable && Accepts(model, base, old(journal), record)
      ensures ok ==> Valid()
      ensures ok ==> journal == Insert(old(journal),
                                       record.(retainedSinceUs := if record.retainedSinceUs == 0 then now
                                                                  else record.retainedSinceUs))
      ensures ok && LowerBound(old(journal), record.timestampUs) == |old(journal)| ==>
                local == model.applyLocal(old(fields), old(local), record.event)
                && generation == old(generation) + 1 && notifications == old(notifications) + 1
      ensures ok && LowerBound(old(journal), record.timestampUs) < |old(journal)| ==>
                local == FoldLocal(model, base, old(local), journal)
      ensures !ok && (!usable || record.timestampUs == 0 || record.identity in Identities(old(journal))
                      || LowerBound(old(journal), record.timestampUs) == |old(journal)|) ==>
                Valid() && journal == old(journal) && fields == old(fields) && local == old(local)
                && generation == old(generation) && notifications == old(notifications)
    {
      if !usable || record.timestampUs == 0 {
        return false;
      }
      var stamped := record;
      if stamped.retainedSinceUs == 0 {
        stamped := stamped.(retainedSinceUs := now);
      }
      StampedSame(model, base, journal, record, now);
      if stamped.identity.IsShared() {
        var existing := FindSharedEvent(stamped.identity);
        if existing.Some? {
          return false;
        }
      }
      SharedOnly(journal, stamped.identity);
      var position := LowerBound(journal, stamped.timestampUs);
      if position == |journal| {
        ok := TryAppend(stamped);
      } else {
        ok := TryInsertInside(stamped, position);
      }
    }

    /** Append path of TryInsertEvent. */
    method TryAppend(stamped: Record<E>) returns (ok: bool)
      requires Valid()
      requires stamped.identity !in Identities(journal) && 0 < stamped.timestampUs
      requires LowerBound(journal, stamped.timestampUs) == |journal|
      modifies this`journal, this`fields, this`local, this`generation, this`notifications, this`cursor
      ensures Valid()
      ensures ok <==> Accepts(model, base, old(journal), stamped)
      ensures ok ==> journal == Insert(old(journal), stamped)
      ensures ok ==> local == model.applyLocal(old(fields), old(local), stamped.event)
      ensures ok ==> generation == old(generation) + 1 && notifications == old(notifications) + 1
      ensures !ok ==> journal == old(journal) && fields == old(fields) && local == old(local)
                      && generation == old(generation) && notifications == old(notifications)
    {
      hide JournalOk, Accepts, Admissible, Fold, FoldLocal, Insert, Identities, LowerBound;
      ghost var was, s0, l0 := journal, fields, local;
      ghost var all := was + [stamped];
      AppendFacts(model, base, was, s0, l0, stamped);
      journal := journal + [stamped];
      assert journal == all;
      if cursor.FullyMaterialized? {
        cursor := Applied(|journal| - 1);
      }
      assert cursor == Applied(|was|) && Replaying();
      ok := TryEnsureCurrentGeneration();
      assert ok <==> Admissible(model, s0, [stamped]);
      if ok {
        assert cursor.count == |all| && local == FoldLocal(model, s0, l0, [stamped]);
        AcceptedKeepsOk(model, base, was, stamped);
      } else {
        assert cursor.count == |was| && local == FoldLocal(model, s0, l0, []);
        journal := journal[..|journal| - 1];
        cursor := Applied(|journal|);
      }
    }

    /** Mid-journal path of TryInsertEvent. */
    method TryInsertInside(stamped: Record<E>, position: nat) returns (ok: bool)
      requires Valid()
      requires stamped.identity !in Identities(journal) && 0 < stamped.timestampUs
      requires position == LowerBound(journal, stamped.timestampUs)
      modifies this`journal, this`fields, this`local, this`generation, this`notifications, this`cursor
      ensures ok <==> Accepts(model, base, old(journal), stamped)
      ensures ok ==> Valid() && journal == Insert(old(journal), stamped)
      ensures ok ==> local == FoldLocal(model, base, old(local), journal)
    {
      ghost var was := journal;
      journal := journal[..position] + [stamped] + journal[position..];
      assert journal == Insert(was, stamped);
      ok := TryRebuildFromBaseAndReplay();
      if ok {
        AcceptedKeepsOk(model, base, was, stamped);
      }
    }

    /** First record carrying the identity; an empty origin names no shared event. */
    method FindSharedEvent(identity: SharedEventId) returns (index: Option<nat>)
      ensures index.None? <==> identity !in Identities(journal)
      ensures index.Some? ==> index.value < |journal| && journal[index.value].identity == identity
    {
      if identity.originUid == "" {
        return None;
      }
      var i := 0;
      while i < |journal|
        invariant 0 <= i <= |journal|
        invariant forall k :: 0 <= k < i ==> journal[k].identity != identity
      {
        if journal[i].identity.IsShared() && journal[i].identity == identity {
          IdentityAt(journal, i);
          return Some(i);
        }
        i := i + 1;
      }
      index := None;
    }

    /**
    Commit of a node's own event at the current time. The caller has checked that the event applies.
    `ok` is the source's assertion that the insertion worked: it holds unless the last record already has
    the largest timestamp, or the journal is empty and the clock reads 0.
     */
    method CommitInto(event: E, now: U64) returns (ok: bool)
      requires Valid() && model.can(fields, event)
      modifies this`journal, this`fields, this`local, this`generation, this`notifications, this`cursor
      ensures Valid()
      ensures ok <==> if old(journal) == [] then now != 0 else old(journal)[|old(journal)| - 1].timestampUs != MAX_U64
      ensures ok ==> journal == old(journal) + [Record(event, NO_IDENTITY, CommitTime(now, old(journal)), now)]
      ensures ok ==> fields == model.apply(old(fields), event)
      ensures ok ==> local == model.applyLocal(old(fields), old(local), event)
      ensures !ok ==> journal == old(journal) && fields == old(fields) && local == old(local)
    {
      var stamp := CommitTime(now, journal);
      var record := Record(event, NO_IDENTITY, stamp, now);
      if stamp != 0 {
        CommitTimeIsLatest(journal, now);
        AppendAccepted(model, base, journal, record);
      }
      ok := TryInsertEvent(record, true, now);
    }

    /**
    Commit of a shared event at the identity and timestamp it was given.
     */
    method TryCommitSharedInto(event: E, identity: SharedEventId, timestampUs: U64, usable: bool, now: U64)
          returns (ok: bool)
      requires Valid()
      modifies this`journal, this`fields, this`local, this`generation, this`notifications, this`cursor
      ensures ok <==> usable && identity.IsShared() && model.matches(event, identity, timestampUs)
                      && Accepts(model, base, old(journal), Record(event, identity, timestampUs, now))
      ensures ok ==> Valid() && journal == Insert(old(journal), Record(event, identity, timestampUs, now))
      ensures ok && LowerBound(old(journal), timestampUs) == |old(journal)| ==>
                local == model.applyLocal(old(fields), old(local), event)
      ensures ok && LowerBound(old(journal), timestampUs) < |old(journal)| ==>
                local == FoldLocal(model, base, old(local), journal)
      ensures !ok && (!usable || !identity.IsShared() || !model.matches(event, identity, timestampUs) ||
                timestampUs == 0
                      || identity in Identities(old(journal)) ||
                          LowerBound(old(journal), timestampUs) == |old(journal)|) ==>
                Valid() && journal == old(journal) && fields == old(fields) && local == old(local)
    {
      if !usable || !identity.IsShared() || !model.matches(event, identity, timestampUs) {
        return false;
      }
      ok := TryInsertEvent(Record(event, identity, timestampUs, now), true, now);
    }

    // ----- compaction -----

    /** Longest collapsible prefix: records that neither count nor age retention needs. */
    method CollapsiblePrefixCount(now: U64) returns (k: nat)
      ensures IsCollapsible(policy, compactionBlocked, journal, now, k)
      ensures k <= |journal| && (compactionBlocked || policy.maxEvents.None? ==> k == 0)
      ensures 0 < k ==> policy.maxEvents.Some? && policy.maxEvents.value < |journal| - (k - 1)
      ensures policy.maxAge.Some? && 0 <= policy.maxAge.value ==>
                forall i :: 0 <= i < k ==> journal[i].retainedSinceUs + policy.maxAge.value < now
      ensures !compactionBlocked && k < |journal| && policy.maxEvents.Some? ==>
                policy.maxEvents.value < |journal| - k ==>
                && policy.maxAge.Some?
                && (0 <= policy.maxAge.value ==> now <= journal[k].retainedSinceUs + policy.maxAge.value)
    {
      if compactionBlocked || journal == [] {
        return 0;
      }
      var i := 0;
      while i < |journal|
        invariant 0 <= i <= |journal|
        invariant forall j :: 0 <= j < i ==> !Retained(policy, journal, j, now)
        invariant 0 < i ==> policy.maxEvents.Some? && policy.maxEvents.value < |journal| - (i - 1)
        invariant policy.maxAge.Some? && 0 <= policy.maxAge.value ==>
                    forall j :: 0 <= j < i ==> journal[j].retainedSinceUs + policy.maxAge.value < now
      {
        var retain := false;
        if policy.maxEvents.None? {
          retain := true;
        } else if |journal| - i <= policy.maxEvents.value {
          retain := true;
        }
        if policy.maxAge.Some? {
          if journal[i].retainedSinceUs > now {
            retain := true;
          } else {
            var ageUs := now - journal[i].retainedSinceUs;
            if ageUs <= AsUnsigned(policy.maxAge.value) {
              retain := true;
            }
          }
        }
        if retain {
          return i;
        }
        i := i + 1;
      }
      k := |journal|;
    }

    /** Snapshot the live fields as the new base. */
    method CaptureBaseState()
      requires journal == []
      modifies this`base
      ensures base == fields
    {
      base := fields;
    }

    /**
    Fold the collapsible prefix into the base. Housekeeping only: fields, generation and the notifier
    are untouched, the new base is the old one with the collapsed records applied, and what is left
    of the journal is exactly the rest.
     */
    method CompactJournalInto(now: U64) returns (ghost collapsed: nat)
      requires Valid()
      modifies this`base, this`journal, this`fields, this`local, this`generation, this`notifications,
               this`cursor, this`suppressChange
      ensures Valid()
      ensures IsCollapsible(policy, compactionBlocked, old(journal), now, collapsed)
      ensures base == Fold(model, old(base), old(journal)[..collapsed])
      ensures journal == old(journal)[collapsed..]
      ensures fields == old(fields) && generation == old(generation) && notifications == old(notifications)
      ensures local == old(local) ||
                (0 < collapsed < |old(journal)| && local == FoldLocal(model, old(base), old(local), old(journal)))
    {
      var collapse := CollapsiblePrefixCount(now);
      collapsed := collapse;
      if collapse == 0 {
        assert journal[..0] == [] && journal[0..] == journal;
        return;
      }
      var savedGeneration := generation;
      if collapse == |journal| {
        assert journal[..collapse] == journal && journal[collapse..] == [];
        journal := [];
        CaptureBaseState();
      } else {
        suppressChange := true;
        Rebase(collapse);
        suppressChange := false;
      }
      generation := savedGeneration;
      cursor := FullyMaterialized;
    }

    /** Replay the first `collapse` records, snapshot them as the new base, and replay the rest on top. */
    method Rebase(collapse: nat)
      requires collapse <= |journal| && suppressChange
      requires JournalOk(model, base, journal)
      modifies this`base, this`journal, this`fields, this`local, this`generation, this`notifications, this`cursor
      ensures JournalOk(model, base, journal)
      ensures base == Fold(model, old(base), old(journal)[..collapse])
      ensures journal == old(journal)[collapse..]
      ensures fields == Fold(model, old(base), old(journal)) && notifications == old(notifications)
      ensures fields == Fold(model, base, journal)
      ensures local == FoldLocal(model, old(base), old(local), old(journal))
    {
      AdmissiblePrefix(model, base, journal, collapse);
      SuffixKeepsOrder(journal, collapse);
      ghost var all, base0, local0 := journal, base, local;
      var retained := journal[collapse..];
      journal := journal[..collapse];
      var rebuilt := TryRebuildFromBaseAndReplay();
      assert rebuilt;
      journal := [];
      CaptureBaseState();
      journal := retained;
      var replayed := TryReplayJournal();
      assert replayed;
      FoldLocalSplit(model, base0, local0, all, collapse);
    }
  }

  lemma FoldLocalSplit<S, L, E>(m: Model<S, L, E>, s: S, l: L, journal: seq<Record<E>>, k: nat)
    requires k <= |journal|
    ensures FoldLocal(m, s, l, journal)
         == FoldLocal(m, Fold(m, s, journal[..k]), FoldLocal(m, s, l, journal[..k]), journal[k..])
  {
    assert journal == journal[..k] + journal[k..];
    FoldLocalConcat(m, s, l, journal[..k], journal[k..]);
  }

  ghost function Stamped<E>(record: Record<E>, now: U64): Record<E> {
    if record.retainedSinceUs == 0 then record.(retainedSinceUs := now) else record
  }

  /** The retention stamp decides neither position nor admissibility. */
  lemma StampedSame<S, L, E>(m: Model<S, L, E>, base: S, journal: seq<Record<E>>, r: Record<E>, now: U64)
    ensures Accepts(m, base, journal, Stamped(r, now)) <==> Accepts(m, base, journal, r)
  {
    var a, b := Insert(journal, r), Insert(journal, Stamped(r, now));
    assert Facts(a) == Facts(b);
    FoldOfFacts(m, base, a, b);
  }

  lemma AppendAdmissible<S, L, E>(m: Model<S, L, E>, s: S, journal: seq<Record<E>>, r: Record<E>)
    ensures Admissible(m, s, journal + [r]) <==> Admissible(m, s, journal) && m.can(Fold(m, s, journal), r.event)
    ensures Fold(m, s, journal + [r]) == m.apply(Fold(m, s, journal), r.event)
  {
    assert (journal + [r])[..|journal|] == journal;
  }

  /** A replay that cannot take its next record is not admissible. */
  lemma StuckAt<S, L, E>(m: Model<S, L, E>, s: S, journal: seq<Record<E>>, from: nat, k: nat)
    requires from <= k < |journal| && !m.can(Fold(m, s, journal[from..k]), journal[k].event)
    ensures !Admissible(m, s, journal[from..])
  {
    assert journal[from..][..k - from] == journal[from..k];
    if Admissible(m, s, journal[from..]) {
      AdmissiblePrefix(m, s, journal[from..], k - from);
      assert false;
    }
  }

  lemma ReplayedSoFar<S, L, E>(m: Model<S, L, E>, base: S, journal: seq<Record<E>>, from: nat, c: nat)
    requires from <= c <= |journal|
    ensures Fold(m, base, journal[..c]) == Fold(m, Fold(m, base, journal[..from]), journal[from..c])
  {
    assert journal[..c] == journal[..from] + journal[from..c];
    FoldConcat(m, base, journal[..from], journal[from..c]);
  }

  lemma WholeSlice<T>(s: seq<T>, from: nat)
    requires from <= |s|
    ensures s[from..|s|] == s[from..]
  {
    assert s[..|s|] == s;
  }

  lemma OneStep<S, L, E>(m: Model<S, L, E>, s: S, l: L, r: Record<E>)
    ensures Admissible(m, s, [r]) <==> m.can(s, r.event)
    ensures Fold(m, s, [r]) == m.apply(s, r.event)
    ensures FoldLocal(m, s, l, [r]) == m.applyLocal(s, l, r.event)
  {
    assert [r][..0] == [];
  }

  lemma AppendShape<T>(s: seq<T>, x: T)
    ensures var t := s + [x];
            |t| - 1 == |s| && t[..|s|] == s && t[|s|..] == [x] && t[|s|..|s|] == [] && t[|s|..|t|] == [x] &&
                t[..|t|] == t
  {
  }

  lemma AppendIsInsert<E>(journal: seq<Record<E>>, r: Record<E>)
    requires LowerBound(journal, r.timestampUs) == |journal|
    ensures Insert(journal, r) == journal + [r]
  {
    InsertGiven(journal, r, |journal|, journal, []);
    assert journal + [r] + [] == journal + [r];
  }

  /** All an append relies on: the new record is the rest of the replay, and accepting it is being able to apply it. */
  lemma AppendFacts<S, L, E>(m: Model<S, L, E>, base: S, was: seq<Record<E>>, s: S, l: L, r: Record<E>)
    requires JournalOk(m, base, was) && s == Fold(m, base, was)
    requires r.identity !in Identities(was) && 0 < r.timestampUs && LowerBound(was, r.timestampUs) == |was|
    ensures var all := was + [r];
            && Insert(was, r) == all && all[..|was|] == was && all[..|all| - 1] == was && all[..|all|] == all
            && all[|was|..] == [r] && all[|was|..|was|] == [] && all[|was|..|all|] == [r]
            && (Accepts(m, base, was, r) <==> Admissible(m, s, [r])) && (Admissible(m, s, [r]) <==> m.can(s, r.event))
            && FoldLocal(m, s, l, []) == l && FoldLocal(m, s, l, [r]) == m.applyLocal(s, l, r.event)
            && Fold(m, base, all) == m.apply(s, r.event)
  {
    hide Identities, LowerBound;
    AppendIsInsert(was, r);
    AppendShape(was, r);
    AppendAdmissible(m, base, was, r);
    OneStep(m, s, l, r);
  }

  /** An unshared event that applies to the current fields is accepted at the end of the journal. */
  lemma AppendAccepted<S, L, E>(m: Model<S, L, E>, base: S, journal: seq<Record<E>>, r: Record<E>)
    requires JournalOk(m, base, journal) && LowerBound(journal, r.timestampUs) == |journal|
    requires 0 < r.timestampUs && r.identity == NO_IDENTITY && m.can(Fold(m, base, journal), r.event)
    ensures Accepts(m, base, journal, r)
    ensures Insert(journal, r) == journal + [r]
    ensures Fold(m, base, journal + [r]) == m.apply(Fold(m, base, journal), r.event)
  {
    AppendIsInsert(journal, r);
    AppendAdmissible(m, base, journal, r);
    SharedOnly(journal, r.identity);
  }

  lemma SharedOnly<E>(journal: seq<Record<E>>, id: SharedEventId)
    ensures !id.IsShared() ==> id !in Identities(journal)
  {
  }

  lemma CommitTimeIsLatest<E>(journal: seq<Record<E>>, now: U64)
    requires Sorted(journal) && CommitTime(now, journal) != 0
    ensures LowerBound(journal, CommitTime(now, journal)) == |journal|
    ensures CommitTime(now, journal) == now <==> forall i :: 0 <= i < |journal| ==> journal[i].timestampUs < now
    ensures CommitTime(now, journal) != now ==>
              journal != [] && CommitTime(now, journal) == journal[|journal| - 1].timestampUs + 1
  {
    LowerBoundUnique(journal, CommitTime(now, journal), |journal|);
  }

  lemma SuffixKeepsOrder<E>(journal: seq<Record<E>>, k: nat)
    requires k <= |journal| && Sorted(journal) && UniqueIdentities(journal) && PositiveTimes(journal)
    ensures Sorted(journal[k..]) && UniqueIdentities(journal[k..]) && PositiveTimes(journal[k..])
  {
  }

  /** Without an age limit compaction keeps exactly the last `maxEvents` records, all when there is no limit. */
  lemma RetentionByCountAlone<E>(policy: RetentionPolicy, journal: seq<Record<E>>, now: nat, k: nat)
    requires IsCollapsible(policy, false, journal, now, k) && policy.maxAge.None?
    ensures |journal| - k == if policy.maxEvents.Some? &&
              policy.maxEvents.value < |journal| then policy.maxEvents.value else |journal|
  {
    if 0 < k {
      assert !Retained(policy, journal, k - 1, now);
    }
  }

  /** Nothing is collapsed while compaction is blocked or every event is kept. */
  lemma CollapsesNothing<E>(policy: RetentionPolicy, blocked: bool, journal: seq<Record<E>>, now: nat, k: nat)
    requires blocked || policy.maxEvents.None?
    ensures IsCollapsible(policy, blocked, journal, now, k) <==> k == 0
  {
    if k <= |journal| && 0 < k && !blocked {
      assert Retained(policy, journal, 0, now);
    }
  }

  /**
  With a count and an age limit exactly the records in front of the first one are collapsed that is among the last
  `n` or not older than the limit. A negative limit counts as the unsigned number it wraps to.
   */
  lemma CollapsibleIff<E>(policy: RetentionPolicy, journal: seq<Record<E>>, now: nat, k: nat, n: nat, age: I64,
      limit: nat)
    requires policy == RetentionPolicy(Some(n), Some(age))
    requires limit == if age < 0 then age + 0x1_0000_0000_0000_0000 else age
    ensures IsCollapsible(policy, false, journal, now, k) <==>
            && k <= |journal|
            && (0 < k ==> n < |journal| - (k - 1))
            && (forall i :: 0 <= i < k ==> journal[i].retainedSinceUs + limit < now)
            && (k < |journal| ==> |journal| - k <= n || now <= journal[k].retainedSinceUs + limit)
  {
    if k <= |journal| && forall i :: 0 <= i < k ==> !Retained(policy, journal, i, now) {
      forall i | 0 <= i < k ensures n < |journal| - i && journal[i].retainedSinceUs + limit < now {
        assert !Retained(policy, journal, i, now);
      }
      assert 0 < k ==> !Retained(policy, journal, k - 1, now);
    } else if k <= |journal| {
      var i :| 0 <= i < k && Retained(policy, journal, i, now);
      assert n < |journal| - i ==> now <= journal[i].retainedSinceUs + limit;
    }
  }

  /** No record that is younger than the age limit is collapsed, and none behind it. */
  lemma RetentionByAge<E>(policy: RetentionPolicy, blocked: bool, journal: seq<Record<E>>, now: nat, k: nat, i: nat)
    requires IsCollapsible(policy, blocked, journal, now, k) && i < |journal|
    requires policy.maxAge.Some? && 0 <= policy.maxAge.value && now <= journal[i].retainedSinceUs + policy.maxAge.value
    ensures k <= i
  {
    assert Retained(policy, journal, i, now);
  }

  // ----- compaction against insertion -----

  /**
  Compacting first and inserting later gives the node that inserting first and compacting later gives,
  for a record later than everything collapsed: same new base, same journal, same verdict.
   */
  lemma CompactionCommutes<S, L, E>(m: Model<S, L, E>, base: S, journal: seq<Record<E>>, k: nat, r: Record<E>)
    requires JournalOk(m, base, journal) && k <= |journal|
    requires k == 0 || journal[k - 1].timestampUs < r.timestampUs
    requires r.identity !in Identities(journal)
    ensures Insert(journal, r)[..k] == journal[..k]
    ensures Insert(journal, r)[k..] == Insert(journal[k..], r)
    ensures Accepts(m, Fold(m, base, journal[..k]), journal[k..], r) <==> Accepts(m, base, journal, r)
    ensures Fold(m, base, Insert(journal, r)) == Fold(m, Fold(m, base, journal[..k]), Insert(journal[k..], r))
  {
    hide Insert, LowerBound, Fold, Admissible, Identities, Sorted, UniqueIdentities, PositiveTimes;
    SuffixLowerBound(journal, k, r.timestampUs);
    SliceInsert(journal, k, LowerBound(journal, r.timestampUs), r);
    SuffixIdentities(journal, k);
    InsertLength(journal, r);
    SplitAt(Insert(journal, r), k);
    FoldConcat(m, base, journal[..k], Insert(journal[k..], r));
    AdmissiblePrefix(m, base, journal, k);
  }

  /** For a record that is not later, the two orders leave different journals. */
  lemma CompactionCommutesOnlyAbove<E>(journal: seq<Record<E>>, k: nat, r: Record<E>)
    requires Sorted(journal) && k <= |journal| && r !in journal
    ensures Insert(journal, r)[k..] == Insert(journal[k..], r) <==> k == 0 || journal[k - 1].timestampUs < r.timestampUs
  {
    var p := LowerBound(journal, r.timestampUs);
    if k == 0 || journal[k - 1].timestampUs < r.timestampUs {
      SuffixLowerBound(journal, k, r.timestampUs);
      SliceInsert(journal, k, p, r);
    } else {
      InsertAt(journal, r);
      assert p < k;
      assert Insert(journal, r)[k] == journal[k - 1];
      assert Insert(journal, r)[k..][0] == journal[k - 1];
      LowerBoundUnique(journal[k..], r.timestampUs, 0);
      assert Insert(journal[k..], r)[0] == r;
    }
  }

  lemma InsertLength<E>(journal: seq<Record<E>>, r: Record<E>)
    ensures |Insert(journal, r)| == |journal| + 1
  {
  }

  lemma SplitAt<T>(s: seq<T>, k: nat)
    requires k <= |s|
    ensures s == s[..k] + s[k..]
  {
  }

  lemma SuffixLowerBound<E>(journal: seq<Record<E>>, k: nat, ts: nat)
    requires Sorted(journal) && k <= |journal|
    requires k == 0 || journal[k - 1].timestampUs < ts
    ensures k <= LowerBound(journal, ts)
    ensures LowerBound(journal[k..], ts) == LowerBound(journal, ts) - k
  {
    var p := LowerBound(journal, ts);
    assert Sorted(journal[k..]);
    LowerBoundUnique(journal[k..], ts, p - k);
  }

  lemma SliceInsert<E>(journal: seq<Record<E>>, k: nat, p: nat, r: Record<E>)
    requires k <= p <= |journal|
    requires p == LowerBound(journal, r.timestampUs) && p - k == LowerBound(journal[k..], r.timestampUs)
    ensures Insert(journal, r)[..k] == journal[..k]
    ensures Insert(journal, r)[k..] == Insert(journal[k..], r)
  {
    hide Insert, LowerBound;
    SliceAround(journal, k, p, r);
    InsertGiven(journal, r, p, journal[..p], journal[p..]);
    InsertGiven(journal[k..], r, p - k, journal[k..p], journal[p..]);
  }

  lemma SliceAround<T>(s: seq<T>, k: nat, p: nat, x: T)
    requires k <= p <= |s|
    ensures (s[..p] + [x] + s[p..])[..k] == s[..k]
    ensures (s[..p] + [x] + s[p..])[k..] == s[k..p] + [x] + s[p..]
    ensures s[k..][..p - k] == s[k..p] && s[k..][p - k..] == s[p..]
  {
  }

  lemma SuffixIdentities<E>(journal: seq<Record<E>>, k: nat)
    requires k <= |journal|
    ensures Identities(journal[k..]) <= Identities(journal)
  {
    forall id | id in Identities(journal[k..]) ensures id in Identities(journal) {
      var i :| 0 <= i < |journal[k..]| && journal[k..][i].identity.IsShared() && journal[k..][i].identity == id;
      IdentityAt(journal, k + i);
    }
  }
}
