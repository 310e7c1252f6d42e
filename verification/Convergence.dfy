/** What the replication invariant means: sound acknowledgements, stable packets, agreement. */
module Convergence {
  import opened Basics
  import opened EventJournal
  import opened LinkSync
  import opened Replication
  import opened ReplicationInvariant
  import opened ReplicationSteps

  /** The shared records of a journal, in journal order. */
  function SharedPart<E(!new)>(journal: seq<Record<E>>): (r: seq<Record<E>>)
    ensures forall x :: x in r <==> x in journal && x.identity.IsShared()
  {
    if journal == [] then []
    else
      var n := |journal| - 1;
      assert journal == journal[..n] + [journal[n]];
      if journal[n].identity.IsShared() then SharedPart(journal[..n]) + [journal[n]] else SharedPart(journal[..n])
  }

  ghost function SharedFacts<E(!new)>(journal: seq<Record<E>>): set<Fact<E>> {
    SeqToSet(Facts(SharedPart(journal)))
  }

  lemma SharedFactsAre<E(!new)>(journal: seq<Record<E>>, f: Fact<E>)
    ensures f in SharedFacts(journal) <==>
              exists i :: 0 <= i < |journal| && journal[i].identity.IsShared() && FactOf(journal[i]) == f
  {
    var part := SharedPart(journal);
    if f in SharedFacts(journal) {
      var k :| 0 <= k < |Facts(part)| && Facts(part)[k] == f;
      assert part[k] in journal;
    }
    if i :| 0 <= i < |journal| && journal[i].identity.IsShared() && FactOf(journal[i]) == f {
      assert journal[i] in part;
      var k :| 0 <= k < |part| && part[k] == journal[i];
      assert Facts(part)[k] == f;
    }
  }

  // ----- acknowledgements -----

  /**
  Every identity `p` counts as delivered to `q` is in q's storage, however it got there, at every point
  of every run.
   */
  lemma AckSoundness<S, L, E>(cfg: Config<S, L, E>, creator: Uid, journal: seq<Record<E>>,
      states: seq<System<S, E>>, steps: seq<Step<E>>, k: nat, p: Uid, q: Uid, id: SharedEventId)
    requires Run(cfg, states, steps) && Init(cfg, creator, journal, states[0]) && k < |states|
    requires p in cfg.endpoints && q in cfg.endpoints
    requires states[k].replicas.Keys == cfg.endpoints
    requires var rep := states[k].replicas[p];
             || (rep.live.Some? && q in rep.live.value.sync && id in rep.live.value.sync[q].delivered)
             || (rep.saved.Some? && q in rep.saved.value.sync && id in rep.saved.value.sync[q].delivered)
    ensures states[k].replicas[q].saved.Some? && id in Identities(states[k].replicas[q].saved.value.journal)
  {
    RunKeepsInv(cfg, creator, journal, states, steps, k);
    var w := WorldOf(states[k]);
    assert ReplicaOk(cfg, w, p, states[k].replicas[p]);
    assert SyncOk(w, p, q, states[k].replicas[p].saved.value.sync[q]);
    assert Has(w, q, id);
  }

  /** All bytes ever sent under one packet id, acknowledgements aside, are the same bytes to the same peer. */
  lemma PacketsAreFrozen<S, L, E>(cfg: Config<S, L, E>, creator: Uid, journal: seq<Record<E>>,
      states: seq<System<S, E>>, steps: seq<Step<E>>, k: nat, a: Message<S, E>, b: Message<S, E>)
    requires Run(cfg, states, steps) && Init(cfg, creator, journal, states[0]) && k < |states|
    requires a in states[k].sent && b in states[k].sent && !a.frame.AckFrame? && !b.frame.AckFrame?
    requires a.frame.packetId == b.frame.packetId
    ensures a == b
  {
    RunKeepsInv(cfg, creator, journal, states, steps, k);
    assert MessageOk(WorldOf(states[k]), a) && MessageOk(WorldOf(states[k]), b);
  }

  // ----- agreement -----

  /** `p` has nothing left to do towards `q`. */
  ghost predicate Quiet<S, E>(s: System<S, E>, p: Uid, q: Uid) {
    HasLive(s, p) && q in s.replicas[p].live.value.sync &&
    var st := s.replicas[p].live.value.sync[q];
    st.phase.Complete? && st.pendingEvent.None? && NextUndelivered(s.replicas[p].live.value.journal, st, q).None?
  }

  /** A quiet direction has carried everything over. */
  lemma QuietIncludes<S, L, E>(cfg: Config<S, L, E>, s: System<S, E>, p: Uid, q: Uid)
    requires Inv(cfg, s) && p != q && Quiet(s, p, q) && HasLive(s, q)
    ensures Identities(s.replicas[p].live.value.journal) <= Identities(s.replicas[q].live.value.journal)
  {
    var w := WorldOf(s);
    var live := s.replicas[p].live.value;
    assert ReplicaOk(cfg, w, p, s.replicas[p]) && ReplicaOk(cfg, w, q, s.replicas[q]);
    assert SyncOk(w, p, q, s.replicas[p].saved.value.sync[q]);
    LiveOrigins(cfg, w, p, s.replicas[p]);
    forall id | id in Identities(live.journal) ensures id in Identities(s.replicas[q].live.value.journal) {
      var i :| 0 <= i < |live.journal| && live.journal[i].identity.IsShared() && live.journal[i].identity == id;
      assert Skipped(live.journal[i], live.sync[q], q);
      assert Has(w, q, id);
    }
  }

  lemma IncludedFacts<S, L, E(!new)>(cfg: Config<S, L, E>, s: System<S, E>, p: Uid, q: Uid)
    requires Inv(cfg, s) && HasLive(s, p) && HasLive(s, q)
    requires Identities(s.replicas[p].live.value.journal) <= Identities(s.replicas[q].live.value.journal)
    ensures SharedFacts(s.replicas[p].live.value.journal) <= SharedFacts(s.replicas[q].live.value.journal)
  {
    var w := WorldOf(s);
    assert ReplicaOk(cfg, w, p, s.replicas[p]) && ReplicaOk(cfg, w, q, s.replicas[q]);
    var a, b := s.replicas[p].live.value.journal, s.replicas[q].live.value.journal;
    forall f | f in SharedFacts(a) ensures f in SharedFacts(b) {
      SharedFactsAre(a, f);
      var i :| 0 <= i < |a| && a[i].identity.IsShared() && FactOf(a[i]) == f;
      IdentityAt(a, i);
      var j :| 0 <= j < |b| && b[j].identity.IsShared() && b[j].identity == a[i].identity;
      SharedFactsAre(b, f);
    }
  }

  /** Events that were issued have pairwise different timestamps. */
  ghost predicate IssuedApart<S, E>(s: System<S, E>) {
    forall x, y :: x in s.issued && y in s.issued && x != y ==> s.issued[x].timestampUs != s.issued[y].timestampUs
  }

  lemma {:induction false} SharedPartOrder<E(!new)>(journal: seq<Record<E>>)
    requires Sorted(journal) && UniqueIdentities(journal)
    ensures Sorted(SharedPart(journal)) && UniqueIdentities(SharedPart(journal))
  {
    if journal != [] {
      var n := |journal| - 1;
      SharedPartOrder(journal[..n]);
      if journal[n].identity.IsShared() {
        LastOfAll(journal, SharedPart(journal[..n]));
      }
    }
  }

  lemma LastOfAll<E(!new)>(journal: seq<Record<E>>, part: seq<Record<E>>)
    requires Sorted(journal) && UniqueIdentities(journal) && journal != []
    requires Sorted(part) && UniqueIdentities(part)
    requires forall x :: x in part ==> x in journal[..|journal| - 1] && x.identity.IsShared()
    ensures Sorted(part + [journal[|journal| - 1]]) && UniqueIdentities(part + [journal[|journal| - 1]])
  {
    var n := |journal| - 1;
    forall i | 0 <= i < |part|
      ensures part[i].timestampUs <= journal[n].timestampUs && part[i].identity != journal[n].identity
    {
      assert part[i] in part;
      var k :| 0 <= k < n && journal[k] == part[i];
    }
  }

  lemma SharedPartStrict<S, L, E(!new)>(cfg: Config<S, L, E>, s: System<S, E>, p: Uid)
    requires Inv(cfg, s) && HasLive(s, p) && IssuedApart(s)
    ensures StrictlySorted(Facts(SharedPart(s.replicas[p].live.value.journal)))
  {
    var w, j := WorldOf(s), s.replicas[p].live.value.journal;
    assert ReplicaOk(cfg, w, p, s.replicas[p]);
    var part := SharedPart(j);
    SharedPartOrder(j);
    forall a, b | 0 <= a < b < |part| ensures part[a].timestampUs != part[b].timestampUs {
      assert part[a] in j && part[b] in j;
      assert part[a].identity != part[b].identity;
      var i :| 0 <= i < |j| && j[i] == part[a];
      var k :| 0 <= k < |j| && j[k] == part[b];
    }
    SortedDistinctFacts(part);
  }

  /**
  Agreement. In any run, two replicas with nothing left to send to each other hold the same shared
  events with the same timestamps and payloads; if no two issued events share a timestamp they hold them
  in the same order.
   */
  lemma QuietReplicasAgree<S, L, E(!new)>(cfg: Config<S, L, E>, creator: Uid, journal: seq<Record<E>>,
      states: seq<System<S, E>>, steps: seq<Step<E>>, k: nat, p: Uid, q: Uid)
    requires Run(cfg, states, steps) && Init(cfg, creator, journal, states[0]) && k < |states|
    requires p != q && Quiet(states[k], p, q) && Quiet(states[k], q, p)
    ensures var a, b := states[k].replicas[p].live.value, states[k].replicas[q].live.value;
            && a.base == b.base
            && SharedFacts(a.journal) == SharedFacts(b.journal)
            && (IssuedApart(states[k]) ==> Facts(SharedPart(a.journal)) == Facts(SharedPart(b.journal)))
  {
    hide Run, Init, JournalOk, SyncOk, MessageOk, FrozenFrameOk, Genuine, Kinds, OriginsSaved, Facts, SharedPart;
    var s := states[k];
    RunKeepsInv(cfg, creator, journal, states, steps, k);
    assert ReplicaOk(cfg, WorldOf(s), p, s.replicas[p]) && ReplicaOk(cfg, WorldOf(s), q, s.replicas[q]);
    QuietIncludes(cfg, s, p, q);
    QuietIncludes(cfg, s, q, p);
    IncludedFacts(cfg, s, p, q);
    IncludedFacts(cfg, s, q, p);
    if IssuedApart(s) {
      SharedPartStrict(cfg, s, p);
      SharedPartStrict(cfg, s, q);
      StrictlySortedUnique(Facts(SharedPart(s.replicas[p].live.value.journal)),
          Facts(SharedPart(s.replicas[q].live.value.journal)));
    }
  }

  // ----- repeats -----

  /**
  An event frame whose event the receiver already has is acknowledged again and changes nothing; the
  mismatch branch that would drop it is never taken.
   */
  lemma RepeatedEventIsHarmless<S, L, E>(cfg: Config<S, L, E>, s: System<S, E>, p: Uid, q: Uid, frame: Frame<S, E>,
        now: U64)
    requires Inv(cfg, s) && frame.EventFrame? && Message(p, q, frame) in s.sent && HasLive(s, q)
    requires p != q && p in cfg.endpoints && cfg.writable(q, p) && cfg.allows(q, frame.fact.event)
    ensures frame.fact.identity in Identities(s.replicas[q].live.value.journal) ==>
              OnEvent(cfg, q, s.replicas[q].live.value, p, frame.packetId, frame.share, frame.fact, now)
              == Effect(s.replicas[q].live.value, false, Some(AckFrame(frame.packetId, frame.share)))
  {
    hide JournalOk, Insert, Accepts, SyncOk, OriginsSaved;
    var w, live := WorldOf(s), s.replicas[q].live.value;
    assert MessageOk(w, Message(p, q, frame)) && ReplicaOk(cfg, w, q, s.replicas[q]);
    assert FrozenFrameOk(cfg, w, frame.packetId, w.frozen[frame.packetId]);
    if frame.fact.identity in Identities(live.journal) {
      var i :| 0 <= i < |live.journal| && live.journal[i].identity.IsShared() &&
          live.journal[i].identity == frame.fact.identity;
      assert Facts(live.journal)[i] == frame.fact;
    }
  }

  /**
  A snapshot frame that reaches a replica which already has the node never changes it, in memory or in
  storage; it is acknowledged exactly when it is the snapshot recorded on import and the binding that
  its source may still be waiting for succeeds.
   */
  lemma RepeatedSnapshotIsHarmless<S, L, E>(cfg: Config<S, L, E>, s: System<S, E>, p: Uid, q: Uid,
        frame: Frame<S, E>, bound: bool)
    requires Inv(cfg, s) && frame.NodeStateFrame? && Message(p, q, frame) in s.sent && HasLive(s, q)
    requires p != q && p in cfg.endpoints
    ensures q in s.replicas[q].live.value.sync
    ensures var rep := s.replicas[q];
            var outcome := OnNodeStateAgain(cfg, q, rep, p, frame.packetId, frame.share, bound, Ran);
            && outcome.rep.live == rep.live && outcome.rep.saved == rep.saved
            && outcome.reply == (if rep.live.value.sync[q].receivedInitial == Some(frame.packetId) &&
                (p in rep.expecting ==> bound)
                                 then Some(AckFrame(frame.packetId, frame.share)) else None)
            && outcome.rep.referenced == (rep.referenced || (outcome.reply.Some? && p in rep.expecting))
  {
    hide JournalOk, Insert, Accepts, OriginsSaved, Genuine, Kinds;
    var w := WorldOf(s);
    assert MessageOk(w, Message(p, q, frame)) && ReplicaOk(cfg, w, q, s.replicas[q]);
    assert FrozenFrameOk(cfg, w, frame.packetId, w.frozen[frame.packetId]);
  }

  /**
  The initial packet a replica is waiting on is still on record: once its acknowledgement arrives, the
  relationship completes with every identity of the snapshot delivered.
   */
  lemma AwaitedAckCompletes<S, L, E>(cfg: Config<S, L, E>, s: System<S, E>, p: Uid, q: Uid, pid: nat)
    requires Inv(cfg, s) && HasLive(s, p) && q in s.replicas[p].live.value.sync
    requires var st := s.replicas[p].live.value.sync[q];
             st.phase.Pending? && st.pendingInitial.Some? && st.pendingInitial.value.packetId == pid
    ensures var node := s.replicas[p].live.value;
            var eff := OnAck(node, q, pid, q);
            && eff.changed && eff.node.journal == node.journal && eff.node.sync[q].phase.Complete?
            && (forall id :: id in eff.node.sync[q].delivered <==>
                  id in node.sync[q].delivered || id in node.sync[q].pendingInitial.value.covered)
            && (forall r :: r in node.sync && r != q ==> eff.node.sync[r] == node.sync[r])
  {
  }

  // ----- bootstrap -----

  /**
  A snapshot another replica really sent, arriving where the node is not registered, is imported if and only if
  storage holds nothing of the node yet and the replica waits for it: for the node by its id or for its source,
  and for the source only if what it may introduce is a root of this class and, unless no id was named, this node.
   */
  lemma SnapshotAdmittedIffUnoccupied<S, L, E>(cfg: Config<S, L, E>, s: System<S, E>, p: Uid, q: Uid,
        frame: Frame<S, E>, bound: bool)
    requires Inv(cfg, s) && frame.NodeStateFrame? && Message(p, q, frame) in s.sent
    requires p != q && p in cfg.endpoints && q in s.replicas && s.replicas[q].live.None?
    ensures var rep := s.replicas[q];
            HasLive(Import(cfg, s, q, p, frame, bound, Ran), q)
            <==> && !rep.occupied && (rep.expectNode || p in rep.expecting)
                 && (p in rep.expecting ==>
                       && rep.expecting[p].classId == cfg.nodeClass
                       && (rep.expecting[p].nodeId == 0 || rep.expecting[p].nodeId == cfg.nodeId))
  {
    var w := WorldOf(s);
    assert MessageOk(w, Message(p, q, frame));
    assert FrozenFrameOk(cfg, w, frame.packetId, w.frozen[frame.packetId]);
  }

  // ----- interrupted imports -----

  /** Storage holds objects of the node, but the node is not registered and nothing saved refers to it. */
  ghost predicate Stranded<S, E>(rep: Replica<S, E>) {
    rep.occupied && rep.live.None? && !rep.referenced
  }

  /** No single step brings a stranded replica its node: no restart finds it, and no snapshot is admitted. */
  lemma StrandedForGood<S, L, E>(cfg: Config<S, L, E>, s: System<S, E>, step: Step<E>, q: Uid)
    requires Enabled(cfg, s, step) && q in s.replicas && Stranded(s.replicas[q])
    ensures q in Next(cfg, s, step).replicas && Stranded(Next(cfg, s, step).replicas[q])
  {
    hide Accepts, Insert, SyncInitialState, SyncNextEvent, OnEvent, OnAck, OnNodeStateAgain, SnapshotAdmissible;
    hide Imported, Awaits;
  }

  /** Once stranded, stranded in every later state of the run. */
  lemma {:induction false} StrandedForever<S, L, E>(cfg: Config<S, L, E>, states: seq<System<S, E>>,
        steps: seq<Step<E>>, j: nat, k: nat, q: Uid)
    requires Run(cfg, states, steps) && j <= k < |states|
    requires q in states[j].replicas && Stranded(states[j].replicas[q])
    ensures q in states[k].replicas && Stranded(states[k].replicas[q])
    decreases k
  {
    hide Next, Enabled;
    if j < k {
      StrandedForever(cfg, states, steps, j, k - 1, q);
      var s, step := states[k - 1], steps[k - 1];
      StrandedForGood(cfg, s, step, q);
    }
  }

  /** Some run from `s` ends with the node registered at `q`. */
  ghost predicate Recoverable<S(!new), L, E(!new)>(cfg: Config<S, L, E>, s: System<S, E>, q: Uid) {
    exists states: seq<System<S, E>>, steps: seq<Step<E>> ::
      Run(cfg, states, steps) && states[0] == s && HasLive(states[|steps|], q)
  }

  /** A restart and the registration of what the saved objects refer to. */
  lemma RestartRecovers<S(!new), L, E(!new)>(cfg: Config<S, L, E>, s: System<S, E>, q: Uid)
    requires q in s.replicas && s.replicas[q].live.None? && s.replicas[q].referenced && s.replicas[q].saved.Some?
    ensures Recoverable(cfg, s, q)
  {
    var s1 := if s.replicas[q].up then s else Next(cfg, s, Restart(q));
    var s2 := Next(cfg, s1, Register(q));
    var states: seq<System<S, E>> := if s.replicas[q].up then [s, s2] else [s, s1, s2];
    var steps: seq<Step<E>> := if s.replicas[q].up then [Register(q)] else [Restart(q), Register(q)];
    assert Run(cfg, states, steps);
    assert states[|steps|] == s2 && HasLive(s2, q);
  }

  /**
  A replica whose storage holds the node can get it back, by any run at all, if and only if its saved
  objects refer to it.
   */
  lemma RecoverableIffReferenced<S(!new), L, E(!new)>(cfg: Config<S, L, E>, s: System<S, E>, q: Uid)
    requires Inv(cfg, s) && q in s.replicas && s.replicas[q].occupied && s.replicas[q].live.None?
    ensures Recoverable(cfg, s, q) <==> s.replicas[q].referenced
  {
    hide HasLive, Next, Enabled;
    assert ReplicaOk(cfg, WorldOf(s), q, s.replicas[q]);
    if s.replicas[q].referenced {
      RestartRecovers(cfg, s, q);
    } else if Recoverable(cfg, s, q) {
      var states: seq<System<S, E>>, steps: seq<Step<E>> :|
        Run(cfg, states, steps) && states[0] == s && HasLive(states[|steps|], q);
      NeverLive(cfg, states, steps, q);
      assert false;
    }
  }

  lemma NeverLive<S, L, E>(cfg: Config<S, L, E>, states: seq<System<S, E>>, steps: seq<Step<E>>, q: Uid)
    requires Run(cfg, states, steps) && q in states[0].replicas && Stranded(states[0].replicas[q])
    ensures !HasLive(states[|steps|], q)
  {
    StrandedForever(cfg, states, steps, 0, |steps|, q);
  }

  /**
  A crash loses the node for good exactly where storage holds it and no saved object refers to it yet: an
  import that ran to its end without a successful binding is lost as well.
   */
  lemma CrashStrandsIff<S(!new), L, E(!new)>(cfg: Config<S, L, E>, s: System<S, E>, q: Uid)
    requires Inv(cfg, s) && q in s.replicas && s.replicas[q].occupied
    ensures Inv(cfg, Next(cfg, s, Crash(q)))
    ensures Recoverable(cfg, Next(cfg, s, Crash(q)), q) <==> s.replicas[q].referenced
  {
    hide Inv;
    StepKeepsInv(cfg, s, Crash(q));
    RecoverableIffReferenced(cfg, Next(cfg, s, Crash(q)), q);
  }

  /**
  An import that dies at one of its persist points, or right after it has run, can be made good if and
  only if it got as far as the binding: the source was expected by its endpoint, the binding succeeded and
  was saved. Otherwise redelivery is refused by the storage it has already occupied.
   */
  lemma InterruptedImportRecoverableIff<S(!new), L, E(!new)>(cfg: Config<S, L, E>, s: System<S, E>, q: Uid, p: Uid,
        frame: Frame<S, E>, bound: bool, stage: Stage)
    requires Inv(cfg, s) && q in s.replicas && s.replicas[q].up && s.replicas[q].live.None? && !s.replicas[q].occupied
    requires frame.NodeStateFrame? && Message(p, q, frame) in s.sent && p in cfg.endpoints && p != q
    requires Awaits(cfg, s.replicas[q], p)
    ensures var s' := Import(cfg, s, q, p, frame, bound, stage);
            && Enabled(cfg, s', Crash(q))
            && (Recoverable(cfg, Next(cfg, s', Crash(q)), q) <==>
                  (stage.Ran? || stage.DiedAfterBinding?) && p in s.replicas[q].expecting && bound)
  {
    hide Inv, Recoverable, Imported, Awaits, SnapshotAdmissible;
    ImportOccupies(cfg, s, q, p, frame, bound, stage);
    CrashStrandsIff(cfg, Import(cfg, s, q, p, frame, bound, stage), q);
  }

  lemma ImportOccupies<S, L, E>(cfg: Config<S, L, E>, s: System<S, E>, q: Uid, p: Uid, frame: Frame<S, E>,
        bound: bool, stage: Stage)
    requires Inv(cfg, s) && q in s.replicas && s.replicas[q].up && s.replicas[q].live.None? && !s.replicas[q].occupied
    requires frame.NodeStateFrame? && Message(p, q, frame) in s.sent && p in cfg.endpoints && p != q
    requires Awaits(cfg, s.replicas[q], p)
    ensures var s' := Import(cfg, s, q, p, frame, bound, stage);
            && Inv(cfg, s') && q in s'.replicas && s'.replicas[q].occupied
            && (s'.replicas[q].referenced <==>
                (stage.Ran? || stage.DiedAfterBinding?) && p in s.replicas[q].expecting && bound)
  {
    hide Imported, Awaits, Admissible, MessageOk, SavedOk, LiveOk, SnapshotAdmissible;
    assert MessageOk(WorldOf(s), Message(p, q, frame)) && ReplicaOk(cfg, WorldOf(s), q, s.replicas[q]);
    SentIsAdmissible(cfg, s, q, p, frame);
    ImportRule(cfg, s, q, p, frame, bound, stage);
  }

  /** What a replica really sent is admissible where it is addressed. */
  lemma SentIsAdmissible<S, L, E>(cfg: Config<S, L, E>, s: System<S, E>, q: Uid, p: Uid, frame: Frame<S, E>)
    requires Inv(cfg, s) && frame.NodeStateFrame? && Message(p, q, frame) in s.sent
    requires p in cfg.endpoints && q in s.replicas && p != q
    ensures SnapshotAdmissible(cfg, q, p, frame.share, frame.base, frame.journal)
  {
    hide Admissible;
    var w := WorldOf(s);
    assert MessageOk(w, Message(p, q, frame));
    assert FrozenFrameOk(cfg, w, frame.packetId, w.frozen[frame.packetId]);
  }
}
