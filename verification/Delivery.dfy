/** What an undisturbed exchange achieves: a node gets shared, and events are carried over one at a time. */
module Delivery {
  import opened Basics
  import opened EventJournal
  import opened LinkSync
  import opened Replication
  import opened ReplicationInvariant
  import opened ReplicationSteps
  import opened Convergence
  import opened HandlerLaws

  /** Both directions between the replicas are up and carry nothing. */
  ghost predicate Clear<S, E>(s: System<S, E>, p: Uid, q: Uid) {
    && (p, q) !in s.disconnected && (q, p) !in s.disconnected
    && !Queued(s, p, q) && !Queued(s, q, p)
  }

  /** `p` has something to send to `q` and may, and `q` would take it. */
  ghost predicate CanDeliver<S, L, E>(cfg: Config<S, L, E>, s: System<S, E>, p: Uid, q: Uid, r: Record<E>, now: U64) {
    && p != q && HasLive(s, p) && HasLive(s, q) && q in s.replicas[p].live.value.sync
    && var st := s.replicas[p].live.value.sync[q];
    && st.phase.Complete? && st.pendingEvent.None?
    && NextUndelivered(s.replicas[p].live.value.journal, st, q) == Some(r)
    && cfg.allows(p, r.event) && cfg.freezable(r.event) && cfg.allows(q, r.event) && cfg.writable(q, p)
    && (r.identity in Identities(s.replicas[q].live.value.journal) || Takes(cfg, s.replicas[q].live.value, r, now))
  }

  /** The receiver's own tests of an event it does not have. */
  ghost predicate Takes<S, L, E>(cfg: Config<S, L, E>, node: NodeState<S, E>, r: Record<E>, now: U64) {
    cfg.model.matches(r.event, r.identity, r.timestampUs) &&
        Accepts(cfg.model, node.base, node.journal, RecordOf(FactOf(r), now))
  }

  /** First leg: the packet is frozen, saved and on its way. */
  lemma Sent<S, L, E>(cfg: Config<S, L, E>, s: System<S, E>, p: Uid, q: Uid, r: Record<E>, pid: nat, now: U64)
    requires Inv(cfg, s) && Clear(s, p, q) && CanDeliver(cfg, s, p, q, r, now) && pid !in s.frozen
    ensures Enabled(cfg, s, SendNext(p, q, pid, Ran))
    ensures var s' := Next(cfg, s, SendNext(p, q, pid, Ran));
            var frame := EventFrame(pid, q, FactOf(r));
            && Inv(cfg, s') && s'.disconnected == s.disconnected
            && (p, q) in s'.queues && s'.queues[(p, q)] == [frame] && !Queued(s', q, p)
            && s'.replicas.Keys == s.replicas.Keys && s'.replicas[q] == s.replicas[q]
            && s'.replicas[p].up && s'.replicas[p].live == s'.replicas[p].saved
            && s'.replicas[p].live == Some(WithSync(s.replicas[p].live.value, q,
                BeginIncrementalEvent(pid, r.identity, frame)))
  {
    hide Inv, Accepts, Identities;
    StepKeepsInv(cfg, s, SendNext(p, q, pid, Ran));
    LiveIsUp(cfg, s, p);
  }

  lemma LiveIsUp<S, L, E>(cfg: Config<S, L, E>, s: System<S, E>, p: Uid)
    requires Inv(cfg, s) && HasLive(s, p)
    ensures s.replicas[p].up && p in cfg.endpoints
  {
    assert ReplicaOk(cfg, WorldOf(s), p, s.replicas[p]);
  }

  /** Second leg: the receiver has the event in storage and answers. */
  lemma Received<S, L, E>(cfg: Config<S, L, E>, s: System<S, E>, p: Uid, q: Uid, r: Record<E>, pid: nat, now: U64)
    requires Inv(cfg, s) && p != q && p in cfg.endpoints && HasLive(s, q) && r.identity.IsShared()
    requires (p, q) !in s.disconnected && (q, p) !in s.disconnected && !Queued(s, q, p)
    requires (p, q) in s.queues && s.queues[(p, q)] == [EventFrame(pid, q, FactOf(r))]
    requires cfg.allows(q, r.event) && cfg.writable(q, p)
    requires r.identity in Identities(s.replicas[q].live.value.journal) || Takes(cfg, s.replicas[q].live.value, r, now)
    ensures Enabled(cfg, s, Deliver(p, q, now, true, Ran))
    ensures var s' := Next(cfg, s, Deliver(p, q, now, true, Ran));
            && Inv(cfg, s') && s'.disconnected == s.disconnected
            && (q, p) in s'.queues && s'.queues[(q, p)] == [AckFrame(pid, q)]
            && s'.replicas.Keys == s.replicas.Keys && s'.replicas[p] == s.replicas[p]
            && HasLive(s', q)
            && s'.replicas[q].live.value.journal == WithEvent(s.replicas[q].live.value.journal, r, now)
  {
    hide Inv, Accepts, JournalOk;
    var frame := EventFrame(pid, q, FactOf(r));
    StepKeepsInv(cfg, s, Deliver(p, q, now, true, Ran)) by { LiveIsUp(cfg, s, q); }
    LiveIsUp(cfg, s, q);
    Underway(cfg, s, p, q, frame);
    RepeatedEventIsHarmless(cfg, s, p, q, frame, now);
  }

  lemma Underway<S, L, E>(cfg: Config<S, L, E>, s: System<S, E>, p: Uid, q: Uid, frame: Frame<S, E>)
    requires Inv(cfg, s) && (p, q) in s.queues && s.queues[(p, q)] == [frame]
    ensures Message(p, q, frame) in s.sent
  {
    assert s.queues[(p, q)][0] == frame;
  }

  function WithEvent<E>(journal: seq<Record<E>>, r: Record<E>, now: U64): seq<Record<E>> {
    if r.identity in Identities(journal) then journal else Insert(journal, RecordOf(FactOf(r), now))
  }

  /** Third leg: the acknowledgement completes the packet. */
  lemma Acknowledged<S, L, E>(cfg: Config<S, L, E>, s: System<S, E>, p: Uid, q: Uid, node: NodeState<S, E>, now: U64)
    requires p != q && q in node.sync && node.sync[q].phase.Complete? && node.sync[q].pendingEvent.Some?
    requires (q, p) !in s.disconnected && (q, p) in s.queues
    requires s.queues[(q, p)] == [AckFrame(node.sync[q].pendingEvent.value.packetId, q)]
    requires p in s.replicas && s.replicas[p].up && s.replicas[p].live == Some(node)
    ensures Enabled(cfg, s, Deliver(q, p, now, true, Ran))
    ensures var s' := Next(cfg, s, Deliver(q, p, now, true, Ran));
            && s'.replicas.Keys == s.replicas.Keys
            && (forall x :: x in s.replicas && x != p ==> s'.replicas[x] == s.replicas[x])
            && HasLive(s', p) && s'.replicas[p].live == s'.replicas[p].saved
            && s'.replicas[p].live.value.journal == node.journal
            && q in s'.replicas[p].live.value.sync
            && var st, x := s'.replicas[p].live.value.sync[q], node.sync[q].pendingEvent.value;
               && st.phase.Complete? && st.pendingEvent.None?
               && st.delivered == AddDelivered(node.sync[q].delivered, [x.identity], false)
  {
  }

  /**
  Delivery. If nothing disturbs the exchange, three steps carry the next undelivered event over: the
  sender counts it as delivered and is free for the next one, and the receiver has it in its journal, inserted
  at its timestamp's place unless it was there already.
   */
  lemma UndisturbedExchangeDelivers<S, L, E>(cfg: Config<S, L, E>, s: System<S, E>, p: Uid, q: Uid, r: Record<E>,
        pid: nat, now: U64)
      returns (states: seq<System<S, E>>, steps: seq<Step<E>>)
    requires Inv(cfg, s) && Clear(s, p, q) && CanDeliver(cfg, s, p, q, r, now) && pid !in s.frozen
    ensures Run(cfg, states, steps) && |steps| == 3 && states[0] == s
    ensures HasLive(states[3], p) && HasLive(states[3], q)
    ensures states[3].replicas[p].live.value.journal == s.replicas[p].live.value.journal
    ensures states[3].replicas[q].live.value.journal == WithEvent(s.replicas[q].live.value.journal, r, now)
    ensures q in states[3].replicas[p].live.value.sync
    ensures var st := states[3].replicas[p].live.value.sync[q];
            st.phase.Complete? && st.pendingEvent.None?
            && st.delivered == AddDelivered(s.replicas[p].live.value.sync[q].delivered, [r.identity], false)
  {
    hide Inv, Next, Enabled, Takes, Accepts, NextUndelivered;
    var one, two, three := SendNext(p, q, pid, Ran), Deliver(p, q, now, true, Ran), Deliver(q, p, now, true, Ran);
    NextIsShared(s.replicas[p].live.value.journal, s.replicas[p].live.value.sync[q], q, r);
    LiveIsUp(cfg, s, p);
    Sent(cfg, s, p, q, r, pid, now);
    var s1 := Next(cfg, s, one);
    Received(cfg, s1, p, q, r, pid, now);
    var s2 := Next(cfg, s1, two);
    Acknowledged(cfg, s2, p, q, s1.replicas[p].live.value, now);
    var s3 := Next(cfg, s2, three);
    states, steps := [s, s1, s2, s3], [one, two, three];
  }

  lemma NextIsShared<S, E>(journal: seq<Record<E>>, st: Sync<S, E>, destination: Uid, r: Record<E>)
    requires NextUndelivered(journal, st, destination) == Some(r)
    ensures r.identity.IsShared()
  {
  }

  // ----- recovery -----

  /** The outstanding event packet, in the record the receiver would make of it. */
  ghost function Outstanding<S, E>(s: System<S, E>, p: Uid, q: Uid, now: U64): Record<E>
    requires HasLive(s, p) && q in s.replicas[p].live.value.sync
    requires s.replicas[p].live.value.sync[q].pendingEvent.Some?
    requires s.replicas[p].live.value.sync[q].pendingEvent.value.packet.EventFrame?
  {
    RecordOf(s.replicas[p].live.value.sync[q].pendingEvent.value.packet.fact, now)
  }

  /** An outstanding packet is what it should be. */
  lemma OutstandingIs<S, L, E>(cfg: Config<S, L, E>, s: System<S, E>, p: Uid, q: Uid, now: U64)
    requires Inv(cfg, s) && HasLive(s, p) && q in s.replicas[p].live.value.sync
    requires s.replicas[p].live.value.sync[q].pendingEvent.Some?
    ensures var st := s.replicas[p].live.value.sync[q];
            var x := st.pendingEvent.value;
            && st.phase.Complete? && x.packet.EventFrame? && x.identity.IsShared()
            && x.packet == EventFrame(x.packetId, q, FactOf(Outstanding(s, p, q, now)))
            && x.identity == Outstanding(s, p, q, now).identity
  {
    hide JournalOk, OriginsSaved, MessageOk, Genuine, Kinds;
    var w := WorldOf(s);
    assert ReplicaOk(cfg, w, p, s.replicas[p]);
    assert SyncOk(w, p, q, s.replicas[p].saved.value.sync[q]);
    var x := s.replicas[p].live.value.sync[q].pendingEvent.value;
    assert FrozenFrameOk(cfg, w, x.packetId, w.frozen[x.packetId]);
  }

  /**
  Recovery. Whatever became of an outstanding event packet, its acknowledgement or the processes, once the
  directions are up and clear and the receiver would take the event, a send and two deliveries finish it: the
  event is delivered for the sender and in the receiver's journal, inserted unless it was there already.
   */
  lemma OutstandingEventRecovers<S, L, E>(cfg: Config<S, L, E>, s: System<S, E>, p: Uid, q: Uid, pid: nat, now: U64)
      returns (states: seq<System<S, E>>, steps: seq<Step<E>>)
    requires Inv(cfg, s) && Clear(s, p, q) && p != q && HasLive(s, p) && HasLive(s, q) && pid !in s.frozen
    requires q in s.replicas[p].live.value.sync
    requires s.replicas[p].live.value.sync[q].pendingEvent.Some?
    requires s.replicas[p].live.value.sync[q].pendingEvent.value.packet.EventFrame?
    requires var r := Outstanding(s, p, q, now);
             && cfg.allows(q, r.event) && cfg.writable(q, p)
             && (r.identity in Identities(s.replicas[q].live.value.journal) ||
                 Takes(cfg, s.replicas[q].live.value, r, now))
    ensures Run(cfg, states, steps) && |steps| == 3 && states[0] == s
    ensures steps[0] == SendNext(p, q, pid, Ran)
    ensures HasLive(states[3], p) && HasLive(states[3], q)
    ensures states[3].replicas[p].live.value.journal == s.replicas[p].live.value.journal
    ensures states[3].replicas[q].live.value.journal
         == WithEvent(s.replicas[q].live.value.journal, Outstanding(s, p, q, now), now)
    ensures q in states[3].replicas[p].live.value.sync
    ensures var st := states[3].replicas[p].live.value.sync[q];
            && st.phase.Complete? && st.pendingEvent.None?
            && st.delivered == AddDelivered(s.replicas[p].live.value.sync[q].delivered,
                                            [Outstanding(s, p, q, now).identity], false)
  {
    hide Inv, Next, Enabled, Takes, Accepts;
    var node := s.replicas[p].live.value;
    var r := Outstanding(s, p, q, now);
    var one, two, three := SendNext(p, q, pid, Ran), Deliver(p, q, now, true, Ran), Deliver(q, p, now, true, Ran);
    OutstandingIs(cfg, s, p, q, now);
    LiveIsUp(cfg, s, p);
    CanSend(cfg, s, p, q, pid);
    OutstandingEventIsResent(cfg, s, p, q, pid);
    StepKeepsInv(cfg, s, one);
    var s1 := Next(cfg, s, one);
    Received(cfg, s1, p, q, r, node.sync[q].pendingEvent.value.packetId, now);
    var s2 := Next(cfg, s1, two);
    Acknowledged(cfg, s2, p, q, node, now);
    states, steps := [s, s1, s2, Next(cfg, s2, three)], [one, two, three];
  }

  lemma CanSend<S, L, E>(cfg: Config<S, L, E>, s: System<S, E>, p: Uid, q: Uid, pid: nat)
    requires p != q && HasLive(s, p) && q in s.replicas[p].live.value.sync && pid !in s.frozen
    ensures Enabled(cfg, s, SendNext(p, q, pid, Ran)) && Enabled(cfg, s, SendInitial(p, q, pid, Ran))
  {
  }

  // ----- bootstrap -----

  /** `p` has not shared the node with `q` yet, and `q` waits for it with empty storage. */
  ghost predicate CanBootstrap<S, L, E>(cfg: Config<S, L, E>, s: System<S, E>, p: Uid, q: Uid) {
    && p != q && HasLive(s, p) && q in s.replicas[p].live.value.sync
    && s.replicas[p].live.value.sync[q].phase.NotStarted?
    && q in s.replicas && s.replicas[q].up && s.replicas[q].live.None? && !s.replicas[q].occupied
    && Awaits(cfg, s.replicas[q], p)
  }

  lemma SnapshotSent<S, L, E>(cfg: Config<S, L, E>, s: System<S, E>, p: Uid, q: Uid, pid: nat)
    requires Inv(cfg, s) && Clear(s, p, q) && CanBootstrap(cfg, s, p, q) && pid !in s.frozen
    ensures Enabled(cfg, s, SendInitial(p, q, pid, Ran))
    ensures var s' := Next(cfg, s, SendInitial(p, q, pid, Ran));
            var node := s.replicas[p].live.value;
            var frame := NodeStateFrame(pid, q, node.base, node.journal);
            && Inv(cfg, s') && s'.disconnected == s.disconnected
            && (p, q) in s'.queues && s'.queues[(p, q)] == [frame] && !Queued(s', q, p)
            && s'.replicas.Keys == s.replicas.Keys && s'.replicas[q] == s.replicas[q]
            && s'.replicas[p].up
            && s'.replicas[p].live == Some(WithSync(node, q, BeginInitialSync(pid, frame, IdentitySeq(node.journal))))
  {
    hide Inv;
    StepKeepsInv(cfg, s, SendInitial(p, q, pid, Ran));
    LiveIsUp(cfg, s, p);
  }

  lemma SnapshotFits<S, L, E>(cfg: Config<S, L, E>, s: System<S, E>, p: Uid, q: Uid, frame: Frame<S, E>)
    requires Inv(cfg, s) && frame.NodeStateFrame? && Message(p, q, frame) in s.sent
    requires p != q && p in cfg.endpoints && q in s.replicas
    ensures frame.share == q && SnapshotAdmissible(cfg, q, p, frame.share, frame.base, frame.journal)
  {
    hide Admissible;
    var w := WorldOf(s);
    assert MessageOk(w, Message(p, q, frame));
    assert FrozenFrameOk(cfg, w, frame.packetId, w.frozen[frame.packetId]);
  }

  /** An admissible snapshot that is awaited in empty storage is imported and acknowledged. */
  lemma FirstSnapshot<S, L, E>(cfg: Config<S, L, E>, self: Uid, rep: Replica<S, E>, source: Uid, frame: Frame<S, E>,
        now: U64)
    requires rep.live.None? && !rep.occupied && Awaits(cfg, rep, source)
    requires frame.NodeStateFrame? && SnapshotAdmissible(cfg, self, source, frame.share, frame.base, frame.journal)
    ensures var outcome := OnFrame(cfg, self, rep, source, frame, now, true, Ran);
            && outcome.rep.live == Some(Imported(cfg, self, source, frame.packetId, frame.base, frame.journal))
            && outcome.reply == Some(AckFrame(frame.packetId, frame.share))
            && outcome.rep.referenced == (rep.referenced || source in rep.expecting)
  {
    hide Imported, Awaits, SnapshotAdmissible;
  }

  lemma SnapshotReceived<S, L, E>(cfg: Config<S, L, E>, s: System<S, E>, p: Uid, q: Uid, frame: Frame<S, E>, now: U64)
    requires Inv(cfg, s) && p != q && p in cfg.endpoints && q in s.replicas && frame.NodeStateFrame?
    requires (p, q) !in s.disconnected && (q, p) !in s.disconnected && !Queued(s, q, p)
    requires (p, q) in s.queues && s.queues[(p, q)] == [frame]
    requires s.replicas[q].up && s.replicas[q].live.None? && !s.replicas[q].occupied
    requires Awaits(cfg, s.replicas[q], p)
    ensures Enabled(cfg, s, Deliver(p, q, now, true, Ran))
    ensures var s' := Next(cfg, s, Deliver(p, q, now, true, Ran));
            && s'.disconnected == s.disconnected
            && (q, p) in s'.queues && s'.queues[(q, p)] == [AckFrame(frame.packetId, q)]
            && s'.replicas.Keys == s.replicas.Keys && s'.replicas[p] == s.replicas[p]
            && s'.replicas[q].live == Some(Imported(cfg, q, p, frame.packetId, frame.base, frame.journal))
  {
    hide Inv, SnapshotAdmissible, Imported, Awaits, OnFrame;
    Underway(cfg, s, p, q, frame);
    SnapshotFits(cfg, s, p, q, frame);
    FirstSnapshot(cfg, q, s.replicas[q], p, frame, now);
  }

  lemma SnapshotAcknowledged<S, L, E>(cfg: Config<S, L, E>, s: System<S, E>, p: Uid, q: Uid, node: NodeState<S, E>,
        now: U64)
    requires p != q && q in node.sync && node.sync[q].pendingEvent.None?
    requires node.sync[q].phase.Pending? && node.sync[q].pendingInitial.Some?
    requires (q, p) !in s.disconnected && (q, p) in s.queues
    requires s.queues[(q, p)] == [AckFrame(node.sync[q].pendingInitial.value.packetId, q)]
    requires p in s.replicas && s.replicas[p].up && s.replicas[p].live == Some(node)
    ensures Enabled(cfg, s, Deliver(q, p, now, true, Ran))
    ensures var s' := Next(cfg, s, Deliver(q, p, now, true, Ran));
            && s'.replicas.Keys == s.replicas.Keys
            && (forall x :: x in s.replicas && x != p ==> s'.replicas[x] == s.replicas[x])
            && HasLive(s', p) && s'.replicas[p].live.value.journal == node.journal
            && s'.replicas[p].live.value.base == node.base
            && q in s'.replicas[p].live.value.sync
            && var st := s'.replicas[p].live.value.sync[q];
               && st.phase.Complete? && st.pendingEvent.None?
               && st.delivered == AddDelivered(node.sync[q].delivered, node.sync[q].pendingInitial.value.covered, false)
  {
  }

  lemma AllSkipped<S, E>(journal: seq<Record<E>>, st: Sync<S, E>, destination: Uid)
    requires forall id :: id in Identities(journal) ==> id in st.delivered
    ensures NextUndelivered(journal, st, destination).None?
  {
    forall i | 0 <= i < |journal| ensures Skipped(journal[i], st, destination) {
      if journal[i].identity.IsShared() {
        IdentityAt(journal, i);
      }
    }
  }

  /** A repeat of the snapshot a replica was made from, and of no other, is acknowledged again. */
  lemma ImportedSnapshotIsRecorded<S, L, E>(cfg: Config<S, L, E>, self: Uid, source: Uid, packetId: nat, base: S,
        journal: seq<Record<E>>, again: nat)
    requires self != source && self in cfg.endpoints && source in cfg.endpoints
    ensures var node := Imported(cfg, self, source, packetId, base, journal);
            && (RecordedHere(cfg, self, node, source, again, self) <==> again == packetId)
            && (forall q :: q in cfg.endpoints && q != self && q != source ==>
                q in node.sync && node.sync[q] == Fresh())
  {
  }

  /** What the receiver of a snapshot starts with owes its source nothing. */
  lemma ImportedIsQuiet<S, L, E>(cfg: Config<S, L, E>, self: Uid, source: Uid, packetId: nat, base: S,
        journal: seq<Record<E>>)
    requires self != source && source in cfg.endpoints
    ensures var node := Imported(cfg, self, source, packetId, base, journal);
            && source in node.sync && node.base == base && node.journal == journal
            && node.sync[source].phase.Complete? && node.sync[source].pendingEvent.None?
            && NextUndelivered(journal, node.sync[source], source).None?
  {
    var st := Imported(cfg, self, source, packetId, base, journal).sync[source];
    forall id | id in Identities(journal) ensures id in st.delivered {
      assert id in IdentitySeq(journal) && id.IsShared();
    }
    AllSkipped(journal, st, source);
  }

  /**
  Bootstrap. If nothing disturbs it, three steps share the node: both replicas hold the same base and
  journal and are quiet towards each other.
   */
  lemma UndisturbedBootstrap<S, L, E>(cfg: Config<S, L, E>, s: System<S, E>, p: Uid, q: Uid, pid: nat, now: U64)
      returns (states: seq<System<S, E>>, steps: seq<Step<E>>)
    requires Inv(cfg, s) && Clear(s, p, q) && CanBootstrap(cfg, s, p, q) && pid !in s.frozen
    ensures Run(cfg, states, steps) && |steps| == 3 && states[0] == s
    ensures Quiet(states[3], p, q) && Quiet(states[3], q, p)
    ensures states[3].replicas[p].live.value.journal == s.replicas[p].live.value.journal
    ensures states[3].replicas[q].live.value.journal == s.replicas[p].live.value.journal
    ensures states[3].replicas[p].live.value.base == states[3].replicas[q].live.value.base
  {
    hide Inv, Next, Enabled, NextUndelivered, Imported;
    var node := s.replicas[p].live.value;
    var frame := NodeStateFrame(pid, q, node.base, node.journal);
    var one, two, three := SendInitial(p, q, pid, Ran), Deliver(p, q, now, true, Ran), Deliver(q, p, now, true, Ran);
    LiveIsUp(cfg, s, p);
    NothingPending(cfg, s, p, q);
    SnapshotSent(cfg, s, p, q, pid);
    var s1 := Next(cfg, s, one);
    SnapshotReceived(cfg, s1, p, q, frame, now);
    var s2 := Next(cfg, s1, two);
    SnapshotAcknowledged(cfg, s2, p, q, s1.replicas[p].live.value, now);
    var s3 := Next(cfg, s2, three);
    ImportedIsQuiet(cfg, q, p, pid, node.base, node.journal);
    AllSkipped(node.journal, s3.replicas[p].live.value.sync[q], q);
    states, steps := [s, s1, s2, s3], [one, two, three];
  }

  lemma NothingPending<S, L, E>(cfg: Config<S, L, E>, s: System<S, E>, p: Uid, q: Uid)
    requires Inv(cfg, s) && HasLive(s, p) && q in s.replicas[p].live.value.sync
    ensures !s.replicas[p].live.value.sync[q].phase.Complete? ==> s.replicas[p].live.value.sync[q].pendingEvent.None?
  {
    assert ReplicaOk(cfg, WorldOf(s), p, s.replicas[p]);
    assert SyncOk(WorldOf(s), p, q, s.replicas[p].saved.value.sync[q]);
  }

  // ----- recovery of a snapshot -----

  /** `q` has made the node from exactly this snapshot, or waits for it with empty storage. */
  ghost predicate TakesSnapshot<S, L, E>(cfg: Config<S, L, E>, s: System<S, E>, p: Uid, q: Uid, packetId: nat) {
    && q in s.replicas && s.replicas[q].up
    && if s.replicas[q].live.Some? then
         && q in s.replicas[q].live.value.sync
         && s.replicas[q].live.value.sync[q].receivedInitial == Some(packetId)
       else
         && !s.replicas[q].occupied && Invited(cfg, s.replicas[q], p)
  }

  lemma OutstandingSnapshotIs<S, L, E>(cfg: Config<S, L, E>, s: System<S, E>, p: Uid, q: Uid)
    requires Inv(cfg, s) && HasLive(s, p) && q in s.replicas[p].live.value.sync
    requires s.replicas[p].live.value.sync[q].phase.Pending?
    ensures var st := s.replicas[p].live.value.sync[q];
            && st.pendingEvent.None? && st.pendingInitial.Some? && st.pendingInitial.value.packet.NodeStateFrame?
            && st.pendingInitial.value.packet.packetId == st.pendingInitial.value.packetId
            && st.pendingInitial.value.packet.share == q
  {
    hide JournalOk, OriginsSaved, MessageOk, Genuine, Kinds;
    var w := WorldOf(s);
    assert ReplicaOk(cfg, w, p, s.replicas[p]);
    assert SyncOk(w, p, q, s.replicas[p].saved.value.sync[q]);
    var x := s.replicas[p].live.value.sync[q].pendingInitial.value;
    assert FrozenFrameOk(cfg, w, x.packetId, w.frozen[x.packetId]);
  }

  /** The receiver of a snapshot it waits for, or has, has its journal and answers. */
  lemma SnapshotAnswered<S, L, E>(cfg: Config<S, L, E>, s: System<S, E>, p: Uid, q: Uid, frame: Frame<S, E>, now: U64)
    requires Inv(cfg, s) && p != q && p in cfg.endpoints && q in s.replicas && frame.NodeStateFrame? && frame.share == q
    requires (p, q) !in s.disconnected && (q, p) !in s.disconnected && !Queued(s, q, p)
    requires (p, q) in s.queues && s.queues[(p, q)] == [frame]
    requires TakesSnapshot(cfg, s, p, q, frame.packetId)
    ensures Enabled(cfg, s, Deliver(p, q, now, true, Ran))
    ensures var s' := Next(cfg, s, Deliver(p, q, now, true, Ran));
            && s'.disconnected == s.disconnected
            && (q, p) in s'.queues && s'.queues[(q, p)] == [AckFrame(frame.packetId, q)]
            && s'.replicas.Keys == s.replicas.Keys && s'.replicas[p] == s.replicas[p]
            && HasLive(s', q)
            && s'.replicas[q].live == (if s.replicas[q].live.Some? then s.replicas[q].live
                                       else Some(Imported(cfg, q, p, frame.packetId, frame.base, frame.journal)))
  {
    hide Inv, SnapshotAdmissible, Imported, Invited, OnFrame;
    if s.replicas[q].live.None? {
      InvitedIsAwaited(cfg, s.replicas[q], p);
      SnapshotReceived(cfg, s, p, q, frame, now);
    } else {
      LiveIsUp(cfg, s, q);
      DeliversIff(cfg, s, p, q, now, true, Ran);
      RepeatedSnapshotIsAnswered(cfg, s, p, q, now, true);
    }
  }

  lemma InvitedIsAwaited<S, L, E>(cfg: Config<S, L, E>, rep: Replica<S, E>, p: Uid)
    requires Invited(cfg, rep, p)
    ensures Awaits(cfg, rep, p)
  {
  }

  /**
  Recovery of the initial exchange. Whatever became of the snapshot, of its acknowledgement or of the processes,
  once the directions are up and clear and the receiver has the snapshot or still waits for it, a send and two
  deliveries complete the exchange, with what the snapshot covers delivered.
   */
  lemma OutstandingSnapshotRecovers<S, L, E>(cfg: Config<S, L, E>, s: System<S, E>, p: Uid, q: Uid, pid: nat, now: U64)
      returns (states: seq<System<S, E>>, steps: seq<Step<E>>)
    requires Inv(cfg, s) && Clear(s, p, q) && p != q && HasLive(s, p) && pid !in s.frozen
    requires q in s.replicas[p].live.value.sync && s.replicas[p].live.value.sync[q].phase.Pending?
    requires s.replicas[p].live.value.sync[q].pendingInitial.Some?
    requires TakesSnapshot(cfg, s, p, q, s.replicas[p].live.value.sync[q].pendingInitial.value.packetId)
    ensures Run(cfg, states, steps) && |steps| == 3 && states[0] == s && steps[0] == SendInitial(p, q, pid, Ran)
    ensures HasLive(states[3], p) && HasLive(states[3], q)
    ensures states[3].replicas[p].live.value.journal == s.replicas[p].live.value.journal
    ensures var x := s.replicas[p].live.value.sync[q].pendingInitial.value;
            && x.packet.NodeStateFrame?
            && (states[3].replicas[q].live.value.journal ==
                if s.replicas[q].live.Some? then s.replicas[q].live.value.journal else x.packet.journal)
            && q in states[3].replicas[p].live.value.sync
            && (var st := states[3].replicas[p].live.value.sync[q];
                && st.phase.Complete? && st.pendingEvent.None?
                && st.delivered == AddDelivered(s.replicas[p].live.value.sync[q].delivered, x.covered, false))
  {
    hide Inv, Next, Enabled, Invited, Imported;
    var node := s.replicas[p].live.value;
    var x := node.sync[q].pendingInitial.value;
    var one, two, three := SendInitial(p, q, pid, Ran), Deliver(p, q, now, true, Ran), Deliver(q, p, now, true, Ran);
    OutstandingSnapshotIs(cfg, s, p, q);
    LiveIsUp(cfg, s, p);
    CanSend(cfg, s, p, q, pid);
    OutstandingSnapshotIsResent(cfg, s, p, q, pid);
    StepKeepsInv(cfg, s, one);
    var s1 := Next(cfg, s, one);
    SnapshotAnswered(cfg, s1, p, q, x.packet, now);
    var s2 := Next(cfg, s1, two);
    SnapshotAcknowledged(cfg, s2, p, q, node, now);
    ImportedJournal(cfg, q, p, x.packetId, x.packet);
    states, steps := [s, s1, s2, Next(cfg, s2, three)], [one, two, three];
  }

  lemma ImportedJournal<S, L, E>(cfg: Config<S, L, E>, self: Uid, source: Uid, packetId: nat, frame: Frame<S, E>)
    requires frame.NodeStateFrame?
    ensures Imported(cfg, self, source, packetId, frame.base, frame.journal).journal == frame.journal
  {
  }
}
