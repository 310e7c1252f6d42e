/**
What one undisturbed run of each handler does, case by case, in the fields of the state it meets: what it
puts into memory and storage, and what it sends. The cases of each handler exhaust its inputs.
 */
module HandlerLaws {
  import opened Basics
  import opened EventJournal
  import opened LinkSync
  import opened Replication
  import opened ReplicationInvariant
  import opened ReplicationSteps

  /** The two states differ by one packet put on its way, which a direction that is down loses. */
  ghost predicate OnlySent<S, E>(s: System<S, E>, s': System<S, E>, p: Uid, q: Uid, frame: Frame<S, E>) {
    && s'.replicas == s.replicas && s'.disconnected == s.disconnected
    && s'.frozen == s.frozen && s'.issued == s.issued
    && s'.sent == s.sent + {Message(p, q, frame)}
    && s'.queues == if (p, q) in s.disconnected then s.queues
                    else s.queues[(p, q) := (if (p, q) in s.queues then s.queues[(p, q)] else []) + [frame]]
  }

  /** The frame at the head has been taken off, and nothing else has happened. */
  ghost function Taken<S, E>(s: System<S, E>, p: Uid, q: Uid): System<S, E>
    requires Queued(s, p, q)
  {
    s.(queues := s.queues[(p, q) := s.queues[(p, q)][1..]])
  }

  /** `p` has registered and saved `node`. */
  ghost function WithNode<S, E>(s: System<S, E>, p: Uid, node: NodeState<S, E>): System<S, E>
    requires p in s.replicas
  {
    s.(replicas := s.replicas[p := s.replicas[p].(live := Some(node), saved := Some(node))])
  }

  lemma SameReplica<K, V>(m: map<K, V>, k: K)
    requires k in m
    ensures m[k := m[k]] == m
  {
  }

  // ----- sending an event -----

  /** The relationship with `q` owes it this record. */
  ghost predicate Owes<S, E>(r: Record<E>, st: Sync<S, E>, q: Uid) {
    && r.identity.originUid != "" && r.identity.originUid != q
    && r.identity !in st.delivered
    && (st.pendingEvent.Some? ==> r.identity != st.pendingEvent.value.identity)
  }

  ghost predicate FirstOwed<S, E>(journal: seq<Record<E>>, st: Sync<S, E>, q: Uid, i: nat) {
    i < |journal| && Owes(journal[i], st, q) && forall k :: 0 <= k < i ==> !Owes(journal[k], st, q)
  }

  lemma NextIsFirstOwed<S, E>(journal: seq<Record<E>>, st: Sync<S, E>, q: Uid)
    ensures NextUndelivered(journal, st, q).None? ==> forall i :: 0 <= i < |journal| ==> !Owes(journal[i], st, q)
    ensures forall i: nat :: FirstOwed(journal, st, q, i) ==> NextUndelivered(journal, st, q) == Some(journal[i])
  {
    forall i: nat | FirstOwed(journal, st, q, i) ensures NextUndelivered(journal, st, q) == Some(journal[i]) {
      assert !Skipped(journal[i], st, q);
      var next := NextUndelivered(journal, st, q).value;
      var j :| 0 <= j < |journal| && journal[j] == next && !Skipped(journal[j], st, q)
               && forall k :: 0 <= k < j ==> Skipped(journal[k], st, q);
      assert Owes(journal[j], st, q);
    }
  }

  /**
  While an event packet is outstanding, a send puts exactly the frozen bytes on their way again and changes
  nothing, in memory or in storage.
   */
  lemma OutstandingEventIsResent<S, L, E>(cfg: Config<S, L, E>, s: System<S, E>, p: Uid, q: Uid, pid: nat)
    requires Inv(cfg, s) && Enabled(cfg, s, SendNext(p, q, pid, Ran))
    requires s.replicas[p].live.value.sync[q].pendingEvent.Some?
    ensures OnlySent(s, Next(cfg, s, SendNext(p, q, pid, Ran)), p, q,
                     s.replicas[p].live.value.sync[q].pendingEvent.value.packet)
  {
    hide NextUndelivered, JournalOk, OriginsSaved, MessageOk, FrozenFrameOk;
    assert ReplicaOk(cfg, WorldOf(s), p, s.replicas[p]);
    assert SyncOk(WorldOf(s), p, q, s.replicas[p].saved.value.sync[q]);
    SameReplica(s.replicas, p);
  }

  /**
  With none outstanding, a send does nothing while the initial exchange is incomplete, when nothing is owed, or
  when the first event owed is of a class not allowed here or does not freeze alone: it is not passed over.
   */
  lemma NothingToSend<S, L, E>(cfg: Config<S, L, E>, s: System<S, E>, p: Uid, q: Uid, pid: nat)
    requires Enabled(cfg, s, SendNext(p, q, pid, Ran))
    requires var node := s.replicas[p].live.value;
             var st := node.sync[q];
             st.pendingEvent.None? &&
             (|| !st.phase.Complete?
              || (forall i :: 0 <= i < |node.journal| ==> !Owes(node.journal[i], st, q))
              || exists i: nat :: FirstOwed(node.journal, st, q, i)
                                  && (!cfg.allows(p, node.journal[i].event) || !cfg.freezable(node.journal[i].event)))
    ensures Next(cfg, s, SendNext(p, q, pid, Ran)) == s
  {
    hide NextUndelivered, FirstOwed;
    var node := s.replicas[p].live.value;
    NextIsFirstOwed(node.journal, node.sync[q], q);
    if NextUndelivered(node.journal, node.sync[q], q).Some? {
      SomeOwed(node.journal, node.sync[q], q);
    }
    SameReplica(s.replicas, p);
  }

  lemma SomeOwed<S, E>(journal: seq<Record<E>>, st: Sync<S, E>, q: Uid)
    requires NextUndelivered(journal, st, q).Some?
    ensures exists i: nat :: FirstOwed(journal, st, q, i)
  {
    var j: nat :| 0 <= j < |journal| && !Skipped(journal[j], st, q) && forall k :: 0 <= k < j ==>
        Skipped(journal[k], st, q);
    assert FirstOwed(journal, st, q, j);
  }

  /** Otherwise the first event owed is frozen under the packet id, recorded as outstanding, saved and sent. */
  lemma FirstOwedIsSent<S, L, E>(cfg: Config<S, L, E>, s: System<S, E>, p: Uid, q: Uid, pid: nat, i: nat)
    requires Enabled(cfg, s, SendNext(p, q, pid, Ran))
    requires var node := s.replicas[p].live.value;
             var st := node.sync[q];
             && st.phase.Complete? && st.pendingEvent.None? && FirstOwed(node.journal, st, q, i)
             && cfg.allows(p, node.journal[i].event) && cfg.freezable(node.journal[i].event)
    ensures var node := s.replicas[p].live.value;
            var r := node.journal[i];
            var frame := EventFrame(pid, q, Fact(r.event, r.identity, r.timestampUs));
            var st := node.sync[q].(pendingEvent := Some(PendingEvent(pid, r.identity, frame)));
            var node' := node.(sync := node.sync[q := st]);
            OnlySent(WithNode(s, p, node').(frozen := s.frozen[pid := Message(p, q, frame)]),
                     Next(cfg, s, SendNext(p, q, pid, Ran)), p, q, frame)
  {
    hide NextUndelivered, FirstOwed;
    NextIsFirstOwed(s.replicas[p].live.value.journal, s.replicas[p].live.value.sync[q], q);
  }

  // ----- sending the snapshot -----

  ghost predicate FrozenSnapshot<S, E>(s: System<S, E>, s': System<S, E>, p: Uid, q: Uid, pid: nat,
      covered: seq<SharedEventId>)
    requires HasLive(s, p) && q in s.replicas[p].live.value.sync
  {
    var node := s.replicas[p].live.value;
    var frame := NodeStateFrame(pid, q, node.base, node.journal);
    var st := node.sync[q].(phase := Pending, pendingInitial := Some(PendingInitial(pid, frame, covered)));
    var node' := node.(sync := node.sync[q := st]);
    OnlySent(WithNode(s, p, node').(frozen := s.frozen[pid := Message(p, q, frame)]), s', p, q, frame)
  }

  /** The snapshot is frozen with base and journal as they are then, covering what the journal holds, saved and sent. */
  lemma SnapshotIsFrozen<S, L, E>(cfg: Config<S, L, E>, s: System<S, E>, p: Uid, q: Uid, pid: nat)
    requires Enabled(cfg, s, SendInitial(p, q, pid, Ran)) && s.replicas[p].live.value.sync[q].phase.NotStarted?
    ensures exists covered: seq<SharedEventId> ::
              && (forall id :: id in covered <==> id in Identities(s.replicas[p].live.value.journal))
              && FrozenSnapshot(s, Next(cfg, s, SendInitial(p, q, pid, Ran)), p, q, pid, covered)
  {
    hide Identities, Accepts;
    var covered := IdentitySeq(s.replicas[p].live.value.journal);
    assert FrozenSnapshot(s, Next(cfg, s, SendInitial(p, q, pid, Ran)), p, q, pid, covered);
  }

  /** While it is outstanding a send puts the frozen bytes on their way again and changes nothing. */
  lemma OutstandingSnapshotIsResent<S, L, E>(cfg: Config<S, L, E>, s: System<S, E>, p: Uid, q: Uid, pid: nat)
    requires Inv(cfg, s) && Enabled(cfg, s, SendInitial(p, q, pid, Ran))
    requires s.replicas[p].live.value.sync[q].phase.Pending?
    ensures s.replicas[p].live.value.sync[q].pendingInitial.Some?
    ensures OnlySent(s, Next(cfg, s, SendInitial(p, q, pid, Ran)), p, q,
                     s.replicas[p].live.value.sync[q].pendingInitial.value.packet)
  {
    hide JournalOk, OriginsSaved, MessageOk, FrozenFrameOk, Identities;
    assert ReplicaOk(cfg, WorldOf(s), p, s.replicas[p]);
    assert SyncOk(WorldOf(s), p, q, s.replicas[p].saved.value.sync[q]);
    SameReplica(s.replicas, p);
  }

  /** Once it is acknowledged no snapshot is sent any more. */
  lemma CompleteSendsNoSnapshot<S, L, E>(cfg: Config<S, L, E>, s: System<S, E>, p: Uid, q: Uid, pid: nat)
    requires Enabled(cfg, s, SendInitial(p, q, pid, Ran)) && s.replicas[p].live.value.sync[q].phase.Complete?
    ensures Next(cfg, s, SendInitial(p, q, pid, Ran)) == s
  {
    SameReplica(s.replicas, p);
  }

  // ----- an acknowledgement arrives -----

  /** The acknowledgement comes from the endpoint of the relationship it names and names its outstanding snapshot. */
  ghost predicate AnswersSnapshot<S, E>(node: NodeState<S, E>, p: Uid, frame: Frame<S, E>) {
    && frame.AckFrame? && frame.share == p && p in node.sync
    && node.sync[p].phase.Pending? && node.sync[p].pendingInitial.Some?
    && node.sync[p].pendingInitial.value.packetId == frame.packetId
  }

  ghost predicate AnswersEvent<S, E>(node: NodeState<S, E>, p: Uid, frame: Frame<S, E>) {
    && frame.AckFrame? && frame.share == p && p in node.sync
    && node.sync[p].phase.Complete? && node.sync[p].pendingEvent.Some?
    && node.sync[p].pendingEvent.value.packetId == frame.packetId
  }

  /** An acknowledgement that answers nothing outstanding is dropped without a trace. */
  lemma OtherAckIsDropped<S, L, E>(cfg: Config<S, L, E>, s: System<S, E>, p: Uid, q: Uid, now: U64, bound: bool)
    requires Enabled(cfg, s, Deliver(p, q, now, bound, Ran)) && s.queues[(p, q)][0].AckFrame?
    requires HasLive(s, q) ==>
               && !AnswersSnapshot(s.replicas[q].live.value, p, s.queues[(p, q)][0])
               && !AnswersEvent(s.replicas[q].live.value, p, s.queues[(p, q)][0])
    ensures Next(cfg, s, Deliver(p, q, now, bound, Ran)) == Taken(s, p, q)
  {
    SameReplica(s.replicas, q);
  }

  /** One that answers the snapshot completes the initial exchange: the covered identities are delivered. */
  lemma SnapshotAckCompletes<S, L, E>(cfg: Config<S, L, E>, s: System<S, E>, p: Uid, q: Uid, now: U64, bound: bool)
    requires Enabled(cfg, s, Deliver(p, q, now, bound, Ran)) && HasLive(s, q)
    requires AnswersSnapshot(s.replicas[q].live.value, p, s.queues[(p, q)][0])
    ensures exists delivered: seq<SharedEventId> ::
              var node := s.replicas[q].live.value;
              var st := node.sync[p];
              && Appended(st.delivered, delivered, st.pendingInitial.value.covered, false)
              && Next(cfg, s, Deliver(p, q, now, bound, Ran)) ==
                   WithNode(Taken(s, p, q), q, node.(sync := node.sync[p := st.(
                     phase := Complete, pendingInitial := None, delivered := delivered)]))
  {
    var node := s.replicas[q].live.value;
    var st := node.sync[p];
    var delivered := AddDelivered(st.delivered, st.pendingInitial.value.covered, false);
    if NoDuplicates(st.delivered) {
      AddDeliveredKeepsUnique(st.delivered, st.pendingInitial.value.covered, false);
    }
    assert Appended(st.delivered, delivered, st.pendingInitial.value.covered, false);
  }

  /** One that answers the event packet marks its event delivered and frees the relationship for the next. */
  lemma EventAckCompletes<S, L, E>(cfg: Config<S, L, E>, s: System<S, E>, p: Uid, q: Uid, now: U64, bound: bool)
    requires Enabled(cfg, s, Deliver(p, q, now, bound, Ran)) && HasLive(s, q)
    requires AnswersEvent(s.replicas[q].live.value, p, s.queues[(p, q)][0])
    ensures exists delivered: seq<SharedEventId> ::
              var node := s.replicas[q].live.value;
              var st := node.sync[p];
              && Appended(st.delivered, delivered, [st.pendingEvent.value.identity], false)
              && Next(cfg, s, Deliver(p, q, now, bound, Ran)) ==
                   WithNode(Taken(s, p, q), q, node.(sync := node.sync[p := st.(
                     pendingEvent := None, delivered := delivered)]))
  {
    var node := s.replicas[q].live.value;
    var st := node.sync[p];
    var delivered := AddDelivered(st.delivered, [st.pendingEvent.value.identity], false);
    if NoDuplicates(st.delivered) {
      AddDeliveredKeepsUnique(st.delivered, [st.pendingEvent.value.identity], false);
    }
    assert Appended(st.delivered, delivered, [st.pendingEvent.value.identity], false);
  }

  // ----- an event arrives -----

  /** The relationship ends here, the sender is another participant with write access, and the class is allowed. */
  ghost predicate Welcome<S, L, E>(cfg: Config<S, L, E>, p: Uid, q: Uid, frame: Frame<S, E>)
    requires frame.EventFrame?
  {
    && p != q && frame.share == q && p in cfg.endpoints && q in cfg.endpoints
    && cfg.writable(q, p) && cfg.allows(q, frame.fact.event)
  }

  /** The record is well-formed and the whole journal replays with it in front of the first that is not earlier. */
  ghost predicate Fits<S, L, E>(cfg: Config<S, L, E>, node: NodeState<S, E>, r: Record<E>) {
    && r.identity.originUid != "" && cfg.model.matches(r.event, r.identity, r.timestampUs) && 0 < r.timestampUs
    && exists k: nat :: PlaceOf(node.journal, r, k)
                   && Admissible(cfg.model, node.base, node.journal[..k] + [r] + node.journal[k..])
  }

  ghost predicate PlaceOf<E>(journal: seq<Record<E>>, r: Record<E>, k: nat) {
    && k <= |journal|
    && (forall i :: 0 <= i < k ==> journal[i].timestampUs < r.timestampUs)
    && (k < |journal| ==> r.timestampUs <= journal[k].timestampUs)
  }

  lemma PlaceIsLowerBound<E>(journal: seq<Record<E>>, r: Record<E>, k: nat)
    requires PlaceOf(journal, r, k)
    ensures k == LowerBound(journal, r.timestampUs) && Insert(journal, r) == journal[..k] + [r] + journal[k..]
  {
    assert PlaceOf(journal, r, LowerBound(journal, r.timestampUs));
  }

  lemma FitsIsAccepted<S, L, E>(cfg: Config<S, L, E>, node: NodeState<S, E>, r: Record<E>)
    requires r.identity !in Identities(node.journal)
    ensures Fits(cfg, node, r) <==>
              r.identity.IsShared() && cfg.model.matches(r.event, r.identity, r.timestampUs)
              && Accepts(cfg.model, node.base, node.journal, r)
  {
    hide Admissible;
    var k := LowerBound(node.journal, r.timestampUs);
    assert PlaceOf(node.journal, r, k) && Insert(node.journal, r) == node.journal[..k] + [r] + node.journal[k..];
    forall j: nat | PlaceOf(node.journal, r, j)
      ensures Insert(node.journal, r) == node.journal[..j] + [r] + node.journal[j..]
    {
      PlaceIsLowerBound(node.journal, r, j);
    }
  }

  /**
  An event that is not addressed here, from a sender without write access, or of a class not allowed here is
  dropped without a trace, and so is one under a known identity with other content, or one that does not fit.
   */
  lemma UnwelcomeEventIsDropped<S, L, E>(cfg: Config<S, L, E>, s: System<S, E>, p: Uid, q: Uid, now: U64, bound: bool)
    requires Enabled(cfg, s, Deliver(p, q, now, bound, Ran)) && s.queues[(p, q)][0].EventFrame?
    requires HasLive(s, q) ==>
               var node, fact := s.replicas[q].live.value, s.queues[(p, q)][0].fact;
               || !Welcome(cfg, p, q, s.queues[(p, q)][0])
               || (fact.identity in Identities(node.journal) && forall i :: 0 <= i < |node.journal| ==>
                   FactOf(node.journal[i]) != fact)
               || (fact.identity !in Identities(node.journal)
                   && !Fits(cfg, node, Record(fact.event, fact.identity, fact.timestampUs, now)))
    ensures Next(cfg, s, Deliver(p, q, now, bound, Ran)) == Taken(s, p, q)
  {
    hide Accepts, Fits, Identities;
    SameReplica(s.replicas, q);
    if HasLive(s, q) {
      var node, fact := s.replicas[q].live.value, s.queues[(p, q)][0].fact;
      if fact.identity !in Identities(node.journal) {
        FitsIsAccepted(cfg, node, Record(fact.event, fact.identity, fact.timestampUs, now));
      }
      FactAmong(node.journal, fact);
    }
  }

  lemma FactAmong<E>(journal: seq<Record<E>>, f: Fact<E>)
    ensures f in Facts(journal) <==> exists i :: 0 <= i < |journal| && FactOf(journal[i]) == f
  {
    if i :| 0 <= i < |journal| && FactOf(journal[i]) == f {
      assert Facts(journal)[i] == f;
    }
  }

  /** A welcome event that is in the journal already is acknowledged again, and only that. */
  lemma KnownEventIsAcknowledged<S, L, E>(cfg: Config<S, L, E>, s: System<S, E>, p: Uid, q: Uid, now: U64, bound: bool)
    requires Enabled(cfg, s, Deliver(p, q, now, bound, Ran)) && HasLive(s, q)
    requires var node, frame := s.replicas[q].live.value, s.queues[(p, q)][0];
             && frame.EventFrame? && Welcome(cfg, p, q, frame) && frame.fact.identity.originUid != ""
             && exists i :: 0 <= i < |node.journal| && FactOf(node.journal[i]) == frame.fact
    ensures OnlySent(Taken(s, p, q), Next(cfg, s, Deliver(p, q, now, bound, Ran)), q, p,
                     AckFrame(s.queues[(p, q)][0].packetId, s.queues[(p, q)][0].share))
  {
    hide Accepts, Insert;
    SameReplica(s.replicas, q);
    FactAmong(s.replicas[q].live.value.journal, s.queues[(p, q)][0].fact);
  }

  /** A welcome new event that fits is inserted at its timestamp's place, saved, and acknowledged. */
  lemma NewEventIsTaken<S, L, E>(cfg: Config<S, L, E>, s: System<S, E>, p: Uid, q: Uid, now: U64, bound: bool, k: nat)
    requires Enabled(cfg, s, Deliver(p, q, now, bound, Ran)) && HasLive(s, q)
    requires var node, frame := s.replicas[q].live.value, s.queues[(p, q)][0];
             && frame.EventFrame? && Welcome(cfg, p, q, frame) && frame.fact.identity !in Identities(node.journal)
             && var r := Record(frame.fact.event, frame.fact.identity, frame.fact.timestampUs, now);
                Fits(cfg, node, r) && PlaceOf(node.journal, r, k)
    ensures var node, frame := s.replicas[q].live.value, s.queues[(p, q)][0];
            var r := Record(frame.fact.event, frame.fact.identity, frame.fact.timestampUs, now);
            OnlySent(WithNode(Taken(s, p, q), q, node.(journal := node.journal[..k] + [r] + node.journal[k..])),
                     Next(cfg, s, Deliver(p, q, now, bound, Ran)), q, p, AckFrame(frame.packetId, frame.share))
  {
    hide Accepts, Fits, Identities, Insert;
    var node, fact := s.replicas[q].live.value, s.queues[(p, q)][0].fact;
    var r := Record(fact.event, fact.identity, fact.timestampUs, now);
    FitsIsAccepted(cfg, node, r);
    PlaceIsLowerBound(node.journal, r, k);
  }

  // ----- a snapshot arrives -----

  /**
  The replica waits for this node, by its id or from this endpoint, and from this endpoint for a root of this
  class and, if an id was named, of this id.
   */
  ghost predicate Invited<S, L, E>(cfg: Config<S, L, E>, rep: Replica<S, E>, p: Uid) {
    if p in rep.expecting then
      rep.expecting[p].classId == cfg.nodeClass && rep.expecting[p].nodeId in {0, cfg.nodeId}
    else rep.expectNode
  }

  /** The snapshot is addressed here by another participant and replays from its base at positive times. */
  ghost predicate Sound<S, L, E>(cfg: Config<S, L, E>, p: Uid, q: Uid, frame: Frame<S, E>)
    requires frame.NodeStateFrame?
  {
    && p != q && frame.share == q && p in cfg.endpoints && q in cfg.endpoints
    && (forall i :: 0 <= i < |frame.journal| ==> frame.journal[i].timestampUs != 0)
    && Admissible(cfg.model, frame.base, frame.journal)
  }

  /** A snapshot that nobody expects, that collides with storage, or that is not sound is dropped without a trace. */
  lemma UnexpectedSnapshotIsDropped<S, L, E>(cfg: Config<S, L, E>, s: System<S, E>, p: Uid, q: Uid, now: U64,
        bound: bool)
    requires Enabled(cfg, s, Deliver(p, q, now, bound, Ran)) && !HasLive(s, q) && s.queues[(p, q)][0].NodeStateFrame?
    requires !Invited(cfg, s.replicas[q], p) || s.replicas[q].occupied || !Sound(cfg, p, q, s.queues[(p, q)][0])
    ensures Next(cfg, s, Deliver(p, q, now, bound, Ran)) == Taken(s, p, q)
  {
    hide Admissible, Imported;
    SameReplica(s.replicas, q);
  }

  /** The sync states of an imported node: the sender's snapshot is delivered both ways, all others are open. */
  ghost predicate ImportedStates<S, L, E>(cfg: Config<S, L, E>, p: Uid, q: Uid, frame: Frame<S, E>,
        sync: map<Uid, Sync<S, E>>)
    requires frame.NodeStateFrame?
  {
    && sync.Keys == cfg.endpoints && p in sync && q in sync
    && sync[q] == SyncState(Complete, None, Some(frame.packetId), [], None)
    && sync[p] == SyncState(Complete, None, None, sync[p].delivered, None)
    && (forall id :: id in sync[p].delivered <==> id in Identities(frame.journal))
    && (forall x :: x in sync && x != p && x != q ==> sync[x] == SyncState(NotStarted, None, None, [], None))
  }

  /**
  An expected, sound snapshot in empty storage becomes the node, registered and saved. It is acknowledged unless
  the source was expected by endpoint and the binding failed; a binding that succeeded is saved and ends the
  expectation.
   */
  lemma ExpectedSnapshotIsImported<S, L, E>(cfg: Config<S, L, E>, s: System<S, E>, p: Uid, q: Uid, now: U64,
        bound: bool)
    requires Enabled(cfg, s, Deliver(p, q, now, bound, Ran)) && !HasLive(s, q) && s.queues[(p, q)][0].NodeStateFrame?
    requires Invited(cfg, s.replicas[q], p) && !s.replicas[q].occupied && Sound(cfg, p, q, s.queues[(p, q)][0])
    ensures var frame, rep := s.queues[(p, q)][0], s.replicas[q];
            var s' := Next(cfg, s, Deliver(p, q, now, bound, Ran));
            && HasLive(s', q)
            && var node := s'.replicas[q].live.value;
               var rep' := rep.(live := Some(node), saved := Some(node), occupied := true,
                                referenced := rep.referenced || (p in rep.expecting && bound),
                                expecting := if bound then rep.expecting - {p} else rep.expecting);
               var t := Taken(s, p, q).(replicas := s.replicas[q := rep']);
               && node.base == frame.base && node.journal == frame.journal
               && ImportedStates(cfg, p, q, frame, node.sync)
               && (if p in rep.expecting && !bound then s' == t else OnlySent(t, s', q, p, AckFrame(frame.packetId, q)))
  {
    hide Admissible, Imported, ImportedStates, Invited, OnFrame;
    var frame, rep := s.queues[(p, q)][0], s.replicas[q];
    ImportedNode(cfg, p, q, frame);
    ImportOutcome(cfg, rep, p, q, frame, now, bound);
  }

  /** The same, of the replica alone. */
  lemma ImportOutcome<S, L, E>(cfg: Config<S, L, E>, rep: Replica<S, E>, p: Uid, q: Uid, frame: Frame<S, E>,
        now: U64, bound: bool)
    requires rep.live.None? && frame.NodeStateFrame? && Invited(cfg, rep, p) && !rep.occupied && Sound(cfg, p, q, frame)
    ensures var node := Imported(cfg, q, p, frame.packetId, frame.base, frame.journal);
            OnFrame(cfg, q, rep, p, frame, now, bound, Ran) ==
              Outcome(rep.(live := Some(node), saved := Some(node), occupied := true,
                           referenced := rep.referenced || (p in rep.expecting && bound),
                           expecting := if bound then rep.expecting - {p} else rep.expecting),
                      if p in rep.expecting && !bound then None else Some(AckFrame(frame.packetId, q)))
  {
    hide Admissible, Imported;
    assert p !in rep.expecting ==> rep.expecting - {p} == rep.expecting;
  }

  lemma ImportedNode<S, L, E>(cfg: Config<S, L, E>, p: Uid, q: Uid, frame: Frame<S, E>)
    requires frame.NodeStateFrame? && p != q && p in cfg.endpoints && q in cfg.endpoints
    ensures var node := Imported(cfg, q, p, frame.packetId, frame.base, frame.journal);
            node.base == frame.base && node.journal == frame.journal && ImportedStates(cfg, p, q, frame, node.sync)
  {
    AllShared(frame.journal);
  }

  lemma AllShared<E>(journal: seq<Record<E>>)
    ensures forall id :: id in Identities(journal) ==> id.IsShared()
  {
  }

  /**
  A snapshot of a node the replica has never changes the node. It is acknowledged exactly when it repeats the
  packet the node was made from, addressed here by another participant, and a binding that its source is still
  expected for succeeds; that binding then is saved and ends the expectation.
   */
  lemma RepeatedSnapshotIsAnswered<S, L, E>(cfg: Config<S, L, E>, s: System<S, E>, p: Uid, q: Uid, now: U64,
        bound: bool)
    requires Enabled(cfg, s, Deliver(p, q, now, bound, Ran)) && HasLive(s, q) && s.queues[(p, q)][0].NodeStateFrame?
    ensures var frame, rep := s.queues[(p, q)][0], s.replicas[q];
            var s' := Next(cfg, s, Deliver(p, q, now, bound, Ran));
            if && p != q && frame.share == q && p in cfg.endpoints && q in cfg.endpoints
               && q in rep.live.value.sync && rep.live.value.sync[q].receivedInitial == Some(frame.packetId)
               && (p in rep.expecting ==> bound)
            then
              var rep' := rep.(referenced := rep.referenced || p in rep.expecting, expecting := rep.expecting - {p});
              OnlySent(Taken(s, p, q).(replicas := s.replicas[q := rep']), s', q, p, AckFrame(frame.packetId, q))
            else s' == Taken(s, p, q)
  {
    SameReplica(s.replicas, q);
  }

  // ----- persist points -----

  /** The process is gone: nothing in memory, storage as given. */
  ghost predicate DiedLeaving<S, E>(rep: Replica<S, E>, saved: Option<NodeState<S, E>>) {
    && !rep.up && rep.live.None? && !rep.expectNode && rep.expecting == map[]
    && rep.saved == saved
  }

  /**
  Where a handler dies decides what storage has of the node it would have left: nothing, its journal with the sync
  states of before, or all of it. It never sends, and memory is gone.
   */
  lemma DeathLeaves<S, E>(rep: Replica<S, E>, eff: Effect<S, E>, stage: Stage)
    requires rep.saved.Some? && !stage.Ran?
    ensures var outcome := Settled(rep, eff, stage);
            && outcome.reply.None?
            && outcome.rep.occupied == rep.occupied && outcome.rep.referenced == rep.referenced
            && DiedLeaving(outcome.rep, Some(
                 if !eff.changed || stage.DiedBeforeSave? then rep.saved.value
                 else if stage.DiedAfterNodeSave? then NodeState(rep.saved.value.base, eff.node.journal,
                     rep.saved.value.sync)
                 else eff.node))
  {
  }

  /**
  Where an import dies decides how much of it storage has: objects of the node, the node with its states, or the
  binding as well, if it was asked for and succeeded. It never sends.
   */
  lemma ImportDeathLeaves<S, L, E>(cfg: Config<S, L, E>, rep: Replica<S, E>, p: Uid, q: Uid, frame: Frame<S, E>,
      now: U64, bound: bool, stage: Stage)
    requires rep.live.None? && rep.saved.None? && frame.NodeStateFrame? && !stage.Ran?
    requires Invited(cfg, rep, p) && !rep.occupied && Sound(cfg, p, q, frame)
    ensures var outcome := OnFrame(cfg, q, rep, p, frame, now, bound, stage);
            && outcome.reply.None? && outcome.rep.occupied
            && outcome.rep.referenced == (rep.referenced || (stage.DiedAfterBinding? && bound && p in rep.expecting))
            && DiedLeaving(outcome.rep,
                 if stage.DiedBeforeSave? || stage.DiedAfterNodeSave? then None
                 else Some(Imported(cfg, q, p, frame.packetId, frame.base, frame.journal)))
  {
    hide Admissible, Imported;
  }

  /** Whatever it was about, a handler that dies sends nothing. */
  lemma DeathSendsNothing<S, L, E>(cfg: Config<S, L, E>, s: System<S, E>, step: Step<E>)
    requires Enabled(cfg, s, step) && (step.SendInitial? || step.SendNext? || step.Deliver?) && !step.stage.Ran?
    ensures var s' := Next(cfg, s, step);
            && s'.sent == s.sent && s'.disconnected == s.disconnected
            && s'.queues == if step.Deliver? then Taken(s, step.p, step.q).queues else s.queues
  {
    hide Settle, Imported, SnapshotAdmissible, OnEvent, OnAck, SyncInitialState, SyncNextEvent;
  }

  /** And the process that ran it is gone. */
  lemma DeathEndsProcess<S, L, E>(cfg: Config<S, L, E>, rep: Replica<S, E>, p: Uid, q: Uid, frame: Frame<S, E>,
      now: U64, bound: bool, stage: Stage)
    requires rep.live.Some? && !stage.Ran?
    ensures var outcome := OnFrame(cfg, q, rep, p, frame, now, bound, stage);
            DiedLeaving(outcome.rep, outcome.rep.saved)
  {
    hide OnEvent, OnAck, RecordedHere;
  }

  // ----- what else happens -----

  /** The network may lose the head, queue it once more at the end, and go down and up in either direction. */
  lemma NetworkSteps<S, L, E>(cfg: Config<S, L, E>, s: System<S, E>, p: Uid, q: Uid)
    ensures Enabled(cfg, s, DropHead(p, q)) <==> (p, q) in s.queues && |s.queues[(p, q)]| > 0
    ensures Enabled(cfg, s, DuplicateHead(p, q)) <==> (p, q) in s.queues && |s.queues[(p, q)]| > 0
    ensures Enabled(cfg, s, DropHead(p, q)) ==> Next(cfg, s, DropHead(p, q)) == Taken(s, p, q)
    ensures Enabled(cfg, s, DuplicateHead(p, q)) ==>
              Next(cfg, s, DuplicateHead(p, q)) ==
              s.(queues := s.queues[(p, q) := s.queues[(p, q)] + [s.queues[(p, q)][0]]])
    ensures Enabled(cfg, s, Disconnect(p, q)) && Enabled(cfg, s, Reconnect(p, q))
    ensures Next(cfg, s, Disconnect(p, q)) == s.(disconnected := s.disconnected + {(p, q)})
    ensures Next(cfg, s, Reconnect(p, q)) == s.(disconnected := s.disconnected - {(p, q)})
  {
  }

  /** A frame is delivered exactly when it heads a direction that is up and its receiver runs. */
  lemma DeliversIff<S, L, E>(cfg: Config<S, L, E>, s: System<S, E>, p: Uid, q: Uid, now: U64, bound: bool, stage: Stage)
    ensures Enabled(cfg, s, Deliver(p, q, now, bound, stage)) <==>
            && (p, q) in s.queues && |s.queues[(p, q)]| > 0 && (p, q) !in s.disconnected
            && q in s.replicas && s.replicas[q].up
  {
  }

  /** A replica with the node sends, under a fresh packet id, on each relationship with another endpoint. */
  lemma SendsIff<S, L, E>(cfg: Config<S, L, E>, s: System<S, E>, p: Uid, q: Uid, pid: nat, stage: Stage)
    ensures var can := p in s.replicas && s.replicas[p].live.Some? && p != q
                       && q in s.replicas[p].live.value.sync && pid !in s.frozen;
            && (Enabled(cfg, s, SendInitial(p, q, pid, stage)) <==> can)
            && (Enabled(cfg, s, SendNext(p, q, pid, stage)) <==> can)
  {
  }

  /** `p`'s replica is now this, and nothing else has changed. */
  ghost function WithReplica<S, E>(s: System<S, E>, p: Uid, rep: Replica<S, E>): System<S, E> {
    s.(replicas := s.replicas[p := rep])
  }

  /**
  What a process does by itself. Only a crash clears memory, and only a registration, for which the application
  must refer to the node, brings a saved node back.
   */
  lemma OwnSteps<S, L, E>(cfg: Config<S, L, E>, s: System<S, E>, p: Uid)
    requires p in s.replicas
    ensures Enabled(cfg, s, Save(p)) <==> s.replicas[p].live.Some?
    ensures Enabled(cfg, s, Bind(p)) <==> s.replicas[p].live.Some?
    ensures Enabled(cfg, s, Crash(p))
    ensures Enabled(cfg, s, Restart(p)) <==> !s.replicas[p].up
    ensures Enabled(cfg, s, Register(p)) <==>
            s.replicas[p].up && s.replicas[p].live.None? && s.replicas[p].referenced
    ensures var rep := s.replicas[p];
            && (Enabled(cfg, s, Save(p)) ==> Next(cfg, s, Save(p)) == WithReplica(s, p, rep.(saved := rep.live)))
            && (Enabled(cfg, s, Bind(p)) ==> Next(cfg, s, Bind(p)) == WithReplica(s, p, rep.(referenced := true)))
            && Next(cfg, s, Crash(p)) ==
               WithReplica(s, p, Replica(false, None, rep.saved, rep.occupied, rep.referenced, false, map[]))
            && (Enabled(cfg, s, Restart(p)) ==>
                  Next(cfg, s, Restart(p)) == WithReplica(s, p, rep.(up := true, live := None)))
            && (Enabled(cfg, s, Register(p)) ==>
                  Next(cfg, s, Register(p)) == WithReplica(s, p, rep.(live := rep.saved)))
  {
  }

  /** What a running process is told to expect: a node by its id, or from an endpoint a root of a class and id. */
  lemma ExpectationSteps<S, L, E>(cfg: Config<S, L, E>, s: System<S, E>, p: Uid, q: Uid, classId: nat, nodeId: nat)
    requires p in s.replicas
    ensures Enabled(cfg, s, ExpectInitialNode(p)) <==> s.replicas[p].up
    ensures Enabled(cfg, s, ExpectFrom(p, q, classId, nodeId)) <==> s.replicas[p].up
    ensures Enabled(cfg, s, ForgetFrom(p, q)) <==> s.replicas[p].up
    ensures var rep := s.replicas[p];
            rep.up ==>
              && Next(cfg, s, ExpectInitialNode(p)) == WithReplica(s, p, rep.(expectNode := true))
              && Next(cfg, s, ExpectFrom(p, q, classId, nodeId)) ==
                 WithReplica(s, p, if q != "" && classId != 0
                   then rep.(expecting := rep.expecting[q := Expectation(classId, nodeId)]) else rep)
              && Next(cfg, s, ForgetFrom(p, q)) ==
                 WithReplica(s, p, if q != "" then rep.(expecting := rep.expecting - {q}) else rep)
  {
    assert s.replicas[p].expecting - {} == s.replicas[p].expecting;
  }

  /**
  A commit is at hand exactly when the event is of its class, its identity unused, its metadata its own, and it fits;
  then it is in the live journal at its timestamp's place, and its fact is issued if it is shared.
   */
  lemma Commits<S, L, E>(cfg: Config<S, L, E>, s: System<S, E>, p: Uid, event: E, sequence: nat, ts: U64, now: U64,
      k: nat)
    requires HasLive(s, p)
    ensures var node, id := s.replicas[p].live.value, SharedEventId(p, sequence);
            Enabled(cfg, s, CommitShared(p, event, sequence, ts, now)) <==>
              && cfg.shareable(event) && id !in s.issued && cfg.model.matches(event, id, ts)
              && Accepts(cfg.model, node.base, node.journal, Record(event, id, ts, now))
    ensures var node := s.replicas[p].live.value;
            Enabled(cfg, s, CommitLocal(p, event, ts, now)) <==>
              && !cfg.shareable(event)
              && Accepts(cfg.model, node.base, node.journal, Record(event, NO_IDENTITY, ts, now))
    ensures var node, id := s.replicas[p].live.value, SharedEventId(p, sequence);
            var r := Record(event, id, ts, now);
            Enabled(cfg, s, CommitShared(p, event, sequence, ts, now)) && PlaceOf(node.journal, r, k) ==>
              Next(cfg, s, CommitShared(p, event, sequence, ts, now)) ==
              WithReplica(s, p,
                  s.replicas[p].(live := Some(node.(journal := node.journal[..k] + [r] + node.journal[k..]))))
                .(issued := s.issued[id := Fact(event, id, ts)])
    ensures var node := s.replicas[p].live.value;
            var r := Record(event, NO_IDENTITY, ts, now);
            Enabled(cfg, s, CommitLocal(p, event, ts, now)) && PlaceOf(node.journal, r, k) ==>
              Next(cfg, s, CommitLocal(p, event, ts, now)) ==
              WithReplica(s, p,
                  s.replicas[p].(live := Some(node.(journal := node.journal[..k] + [r] + node.journal[k..]))))
  {
    hide Accepts, Insert;
    var journal := s.replicas[p].live.value.journal;
    var shared, local := Record(event, SharedEventId(p, sequence), ts, now), Record(event, NO_IDENTITY, ts, now);
    if PlaceOf(journal, shared, k) {
      PlaceIsLowerBound(journal, shared, k);
    }
    if PlaceOf(journal, local, k) {
      PlaceIsLowerBound(journal, local, k);
    }
  }
}
