/** What every run of the replication protocol keeps. */
module ReplicationInvariant {
  import opened Basics
  import opened EventJournal
  import opened LinkSync
  import opened Replication

  /**
  The parts of a system that only ever grow: which shared identities each replica has in storage, the
  packets frozen so far and the events issued so far.
   */
  datatype World<!S(==), !E(==)> = World(
    saved: map<Uid, set<SharedEventId>>,
    frozen: map<nat, Message<S, E>>,
    issued: map<SharedEventId, Fact<E>>)

  ghost function SavedIdentities<S, E>(rep: Replica<S, E>): set<SharedEventId> {
    if rep.saved.Some? then Identities(rep.saved.value.journal) else {}
  }

  ghost function WorldOf<S, E>(s: System<S, E>): World<S, E> {
    World(map p | p in s.replicas :: SavedIdentities(s.replicas[p]), s.frozen, s.issued)
  }

  /** `id` is in the storage of replica `p`. */
  ghost predicate Has<S, E>(w: World<S, E>, p: Uid, id: SharedEventId) {
    p in w.saved && id in w.saved[p]
  }

  ghost predicate HasAll<S, E>(w: World<S, E>, p: Uid, ids: set<SharedEventId>) {
    forall id :: id in ids ==> Has(w, p, id)
  }

  ghost predicate Grew<S, E>(w: World<S, E>, w': World<S, E>) {
    && w.saved.Keys == w'.saved.Keys
    && (forall p, id :: Has(w, p, id) ==> Has(w', p, id))
    && (forall pid :: pid in w.frozen ==> pid in w'.frozen && w'.frozen[pid] == w.frozen[pid])
    && (forall id :: id in w.issued ==> id in w'.issued && w'.issued[id] == w.issued[id])
  }

  /** Shared records are the events that were issued under their identities. */
  ghost predicate Genuine<S, E>(w: World<S, E>, journal: seq<Record<E>>) {
    forall i :: 0 <= i < |journal| && journal[i].identity.IsShared() ==>
      journal[i].identity in w.issued && w.issued[journal[i].identity] == FactOf(journal[i])
  }

  /** Every identity of another origin is in that origin's storage. */
  ghost predicate OriginsSaved<S, E>(w: World<S, E>, p: Uid, ids: set<SharedEventId>) {
    forall id :: id in ids && id.originUid != p ==> Has(w, id.originUid, id)
  }

  ghost predicate NodeOk<S, L, E>(cfg: Config<S, L, E>, w: World<S, E>, node: NodeState<S, E>) {
    && node.base == cfg.base
    && JournalOk(cfg.model, cfg.base, node.journal)
    && Kinds(cfg, node.journal)
    && Genuine(w, node.journal)
    && node.sync.Keys == cfg.endpoints
  }

  /** Shared identities a frame carries. */
  ghost function Content<S, E>(frame: Frame<S, E>): set<SharedEventId> {
    match frame
    case NodeStateFrame(_, _, _, journal) => Identities(journal)
    case EventFrame(_, _, fact) => {fact.identity}
    case AckFrame(_, _) => {}
  }

  ghost predicate FrozenFrameOk<S, L, E>(cfg: Config<S, L, E>, w: World<S, E>, pid: nat, msg: Message<S, E>) {
    && !msg.frame.AckFrame? && msg.frame.packetId == pid && msg.frame.share == msg.to
    && (msg.frame.NodeStateFrame? ==>
          msg.frame.base == cfg.base && JournalOk(cfg.model, cfg.base, msg.frame.journal)
          && Kinds(cfg, msg.frame.journal) && Genuine(w, msg.frame.journal))
    && (msg.frame.EventFrame? ==>
          var fact := msg.frame.fact;
          fact.identity.IsShared() && fact.identity in w.issued && w.issued[fact.identity] == fact
          && cfg.shareable(fact.event) && fact.identity.originUid != msg.to)
  }

  ghost predicate FrozenOk<S, L, E>(cfg: Config<S, L, E>, w: World<S, E>) {
    forall pid :: pid in w.frozen ==> FrozenFrameOk(cfg, w, pid, w.frozen[pid])
  }

  /**
  A sent packet is the frozen one and its content is in the sender's storage; an acknowledgement
  answers a frozen packet whose content is in the storage of whoever acknowledges.
   */
  ghost predicate MessageOk<S, E>(w: World<S, E>, msg: Message<S, E>) {
    var pid := msg.frame.packetId;
    pid in w.frozen && HasAll(w, msg.from, Content(w.frozen[pid].frame)) &&
    if msg.frame.AckFrame? then
      msg.frame.share == msg.from && w.frozen[pid].from == msg.to && w.frozen[pid].to == msg.from
    else w.frozen[pid] == msg
  }

  ghost predicate SyncOk<S, E>(w: World<S, E>, p: Uid, q: Uid, st: Sync<S, E>) {
    && (st.pendingInitial.Some? ==>
          var x := st.pendingInitial.value;
          x.packetId in w.frozen && w.frozen[x.packetId] == Message(p, q, x.packet) && x.packet.NodeStateFrame?
          && (forall id :: id in x.covered ==> id in Content(x.packet)) && HasAll(w, p, Content(x.packet)))
    && (st.pendingEvent.Some? ==>
          var x := st.pendingEvent.value;
          x.packetId in w.frozen && w.frozen[x.packetId] == Message(p, q, x.packet) && x.packet.EventFrame?
          && x.packet.fact.identity == x.identity && Has(w, p, x.identity) && st.phase.Complete?)
    && (st.phase.Pending? ==> st.pendingInitial.Some?)
    && (st.phase.NotStarted? ==> st.pendingInitial.None?)
    && (forall id :: id in st.delivered ==> Has(w, q, id))
    && (st.receivedInitial.Some? ==>
          var pid := st.receivedInitial.value;
          pid in w.frozen && w.frozen[pid].to == p && HasAll(w, p, Content(w.frozen[pid].frame)))
  }

  ghost predicate AllSyncOk<S, E>(w: World<S, E>, p: Uid, sync: map<Uid, Sync<S, E>>) {
    forall q :: q in sync ==> SyncOk(w, p, q, sync[q])
  }

  ghost predicate SavedOk<S, L, E>(cfg: Config<S, L, E>, w: World<S, E>, p: Uid, node: NodeState<S, E>) {
    NodeOk(cfg, w, node) && AllSyncOk(w, p, node.sync) && OriginsSaved(w, p, Identities(node.journal))
  }

  /** The live node is ahead of the saved one only by the replica's own unsaved commits. */
  ghost predicate LiveOk<S, L, E>(cfg: Config<S, L, E>, w: World<S, E>, p: Uid, live: NodeState<S, E>,
        saved: NodeState<S, E>) {
    && NodeOk(cfg, w, live)
    && live.sync == saved.sync
    && Identities(saved.journal) <= Identities(live.journal)
    && (forall id :: id in Identities(live.journal) && id !in Identities(saved.journal) ==> id.originUid == p)
  }

  ghost predicate ReplicaOk<S, L, E>(cfg: Config<S, L, E>, w: World<S, E>, p: Uid, rep: Replica<S, E>) {
    && (rep.saved.Some? ==> rep.occupied && SavedOk(cfg, w, p, rep.saved.value))
    && (rep.referenced ==> rep.saved.Some?)
    && (rep.live.Some? ==> rep.up && rep.saved.Some? && LiveOk(cfg, w, p, rep.live.value, rep.saved.value))
  }

  ghost predicate Inv<S, L, E>(cfg: Config<S, L, E>, s: System<S, E>) {
    && s.replicas.Keys == cfg.endpoints && "" !in cfg.endpoints
    && (forall p :: p in s.replicas ==> ReplicaOk(cfg, WorldOf(s), p, s.replicas[p]))
    && FrozenOk(cfg, WorldOf(s))
    && (forall msg :: msg in s.sent ==> MessageOk(WorldOf(s), msg))
    && (forall p, q, i :: (p, q) in s.queues && 0 <= i < |s.queues[(p, q)]| ==>
        Message(p, q, s.queues[(p, q)][i]) in s.sent)
  }

  // ----- growth keeps everything that is not touched -----

  lemma GenuineGrew<S, E>(w: World<S, E>, w': World<S, E>, journal: seq<Record<E>>)
    requires Grew(w, w') && Genuine(w, journal)
    ensures Genuine(w', journal)
  {
  }

  lemma SyncGrew<S, E>(w: World<S, E>, w': World<S, E>, p: Uid, q: Uid, st: Sync<S, E>)
    requires Grew(w, w') && SyncOk(w, p, q, st)
    ensures SyncOk(w', p, q, st)
  {
  }

  lemma SavedGrew<S, L, E>(cfg: Config<S, L, E>, w: World<S, E>, w': World<S, E>, p: Uid, node: NodeState<S, E>)
    requires Grew(w, w') && SavedOk(cfg, w, p, node)
    ensures SavedOk(cfg, w', p, node)
  {
    GenuineGrew(w, w', node.journal);
    forall q | q in node.sync ensures SyncOk(w', p, q, node.sync[q]) {
      SyncGrew(w, w', p, q, node.sync[q]);
    }
  }

  lemma LiveGrew<S, L, E>(cfg: Config<S, L, E>, w: World<S, E>, w': World<S, E>, p: Uid, live: NodeState<S, E>,
        saved: NodeState<S, E>)
    requires Grew(w, w') && LiveOk(cfg, w, p, live, saved)
    ensures LiveOk(cfg, w', p, live, saved)
  {
    GenuineGrew(w, w', live.journal);
  }

  lemma ReplicaGrew<S, L, E>(cfg: Config<S, L, E>, w: World<S, E>, w': World<S, E>, p: Uid, rep: Replica<S, E>)
    requires Grew(w, w') && ReplicaOk(cfg, w, p, rep)
    ensures ReplicaOk(cfg, w', p, rep)
  {
    if rep.saved.Some? {
      SavedGrew(cfg, w, w', p, rep.saved.value);
    }
    if rep.live.Some? {
      LiveGrew(cfg, w, w', p, rep.live.value, rep.saved.value);
    }
  }

  lemma MessageGrew<S, E>(w: World<S, E>, w': World<S, E>, msg: Message<S, E>)
    requires Grew(w, w') && MessageOk(w, msg)
    ensures MessageOk(w', msg)
  {
  }

  lemma FrozenFrameGrew<S, L, E>(cfg: Config<S, L, E>, w: World<S, E>, w': World<S, E>, pid: nat, msg: Message<S, E>)
    requires Grew(w, w') && FrozenFrameOk(cfg, w, pid, msg)
    ensures FrozenFrameOk(cfg, w', pid, msg)
  {
    if msg.frame.NodeStateFrame? {
      GenuineGrew(w, w', msg.frame.journal);
    }
  }

  /**
  The step rule: a step changes one replica, grows the world and freezes well-formed packets.
   */
  lemma StepRule<S, L, E>(cfg: Config<S, L, E>, s: System<S, E>, s': System<S, E>, p: Uid)
    requires Inv(cfg, s) && p in s.replicas
    requires s'.replicas.Keys == s.replicas.Keys
    requires forall r :: r in s.replicas && r != p ==> s'.replicas[r] == s.replicas[r]
    requires Grew(WorldOf(s), WorldOf(s'))
    requires ReplicaOk(cfg, WorldOf(s'), p, s'.replicas[p])
    requires forall pid :: pid in s'.frozen && pid !in s.frozen ==> FrozenFrameOk(cfg, WorldOf(s'), pid, s'.frozen[pid])
    requires s'.sent == s.sent && s'.queues == s.queues
    ensures Inv(cfg, s')
  {
    var w, w' := WorldOf(s), WorldOf(s');
    forall r | r in s'.replicas ensures ReplicaOk(cfg, w', r, s'.replicas[r]) {
      if r != p {
        ReplicaGrew(cfg, w, w', r, s.replicas[r]);
      }
    }
    forall pid | pid in w'.frozen ensures FrozenFrameOk(cfg, w', pid, w'.frozen[pid]) {
      if pid in w.frozen {
        FrozenFrameGrew(cfg, w, w', pid, w.frozen[pid]);
      }
    }
    forall msg | msg in s'.sent ensures MessageOk(w', msg) {
      MessageGrew(w, w', msg);
    }
  }
}
