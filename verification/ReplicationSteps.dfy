/** Every step of the replication system keeps its invariant. */
module ReplicationSteps {
  import opened Basics
  import opened EventJournal
  import opened LinkSync
  import opened Replication
  import opened ReplicationInvariant

  // ----- steps of the network and of the replica's life -----

  lemma NetworkRule<S, L, E>(cfg: Config<S, L, E>, s: System<S, E>, s': System<S, E>)
    requires Inv(cfg, s)
    requires s'.replicas == s.replicas && s'.frozen == s.frozen && s'.issued == s.issued && s'.sent == s.sent
    requires forall p, q, i :: (p, q) in s'.queues && 0 <= i < |s'.queues[(p, q)]| ==>
              Message(p, q, s'.queues[(p, q)][i]) in s.sent
    ensures Inv(cfg, s')
  {
    assert WorldOf(s') == WorldOf(s);
  }

  lemma PopRule<S, L, E>(cfg: Config<S, L, E>, s: System<S, E>, p: Uid, q: Uid)
    requires Inv(cfg, s) && Queued(s, p, q)
    ensures Inv(cfg, s.(queues := s.queues[(p, q) := s.queues[(p, q)][1..]]))
    ensures MessageOk(WorldOf(s), Message(p, q, s.queues[(p, q)][0]))
  {
    var s' := s.(queues := s.queues[(p, q) := s.queues[(p, q)][1..]]);
    assert Message(p, q, s.queues[(p, q)][0]) in s.sent;
    forall a, b, i | (a, b) in s'.queues && 0 <= i < |s'.queues[(a, b)]|
      ensures Message(a, b, s'.queues[(a, b)][i]) in s.sent
    {
      if (a, b) == (p, q) {
        assert s'.queues[(a, b)][i] == s.queues[(a, b)][i + 1];
      } else {
        assert s'.queues[(a, b)] == s.queues[(a, b)];
      }
    }
    NetworkRule(cfg, s, s');
  }

  lemma DuplicateRule<S, L, E>(cfg: Config<S, L, E>, s: System<S, E>, p: Uid, q: Uid)
    requires Inv(cfg, s) && Queued(s, p, q)
    ensures Inv(cfg, s.(queues := s.queues[(p, q) := s.queues[(p, q)] + [s.queues[(p, q)][0]]]))
  {
    var queue := s.queues[(p, q)];
    var s' := s.(queues := s.queues[(p, q) := queue + [queue[0]]]);
    assert Message(p, q, queue[0]) in s.sent;
    forall a, b, i | (a, b) in s'.queues && 0 <= i < |s'.queues[(a, b)]|
      ensures Message(a, b, s'.queues[(a, b)][i]) in s.sent
    {
      if (a, b) == (p, q) {
        assert s'.queues[(a, b)][i] == if i < |queue| then queue[i] else queue[0];
        assert i < |queue| ==> Message(p, q, queue[i]) in s.sent;
      } else {
        assert s'.queues[(a, b)] == s.queues[(a, b)];
      }
    }
    NetworkRule(cfg, s, s');
  }

  /** Replacing one replica by a well-formed one that has lost nothing from storage. */
  lemma ReplaceRule<S, L, E>(cfg: Config<S, L, E>, s: System<S, E>, p: Uid, rep: Replica<S, E>)
    requires Inv(cfg, s) && p in s.replicas
    requires SavedIdentities(s.replicas[p]) <= SavedIdentities(rep)
    requires ReplicaOk(cfg, WorldOf(s).(saved := WorldOf(s).saved[p := SavedIdentities(rep)]), p, rep)
    ensures Inv(cfg, s.(replicas := s.replicas[p := rep]))
    ensures var w := WorldOf(s);
            WorldOf(s.(replicas := s.replicas[p := rep])) == w.(saved := w.saved[p := SavedIdentities(rep)])
  {
    WorldAfter(s, p, rep);
    SavedMore(WorldOf(s), p, SavedIdentities(rep));
    StepRule(cfg, s, s.(replicas := s.replicas[p := rep]), p);
  }

  lemma WorldAfter<S, E>(s: System<S, E>, p: Uid, rep: Replica<S, E>)
    requires p in s.replicas
    ensures var w := WorldOf(s);
            WorldOf(s.(replicas := s.replicas[p := rep])) == w.(saved := w.saved[p := SavedIdentities(rep)])
    ensures WorldOf(s).saved[p] == SavedIdentities(s.replicas[p])
  {
  }

  lemma SavedMore<S, E>(w: World<S, E>, p: Uid, ids: set<SharedEventId>)
    requires p in w.saved && w.saved[p] <= ids
    ensures Grew(w, w.(saved := w.saved[p := ids]))
  {
  }

  /** A step that leaves storage alone and keeps the replica well-formed. */
  lemma MemoryRule<S, L, E>(cfg: Config<S, L, E>, s: System<S, E>, p: Uid, rep: Replica<S, E>)
    requires Inv(cfg, s) && p in s.replicas
    requires rep.saved == s.replicas[p].saved && ReplicaOk(cfg, WorldOf(s), p, rep)
    ensures Inv(cfg, s.(replicas := s.replicas[p := rep]))
  {
    assert WorldOf(s).saved[p := SavedIdentities(rep)] == WorldOf(s).saved;
    ReplaceRule(cfg, s, p, rep);
  }

  lemma RegisterOk<S, L, E>(cfg: Config<S, L, E>, w: World<S, E>, p: Uid, rep: Replica<S, E>)
    requires ReplicaOk(cfg, w, p, rep) && rep.up
    ensures ReplicaOk(cfg, w, p, rep.(live := rep.saved))
  {
  }

  // ----- committing and saving -----

  lemma SaveOk<S, L, E>(cfg: Config<S, L, E>, s: System<S, E>, p: Uid)
    requires Inv(cfg, s) && HasLive(s, p)
    ensures Inv(cfg, s.(replicas := s.replicas[p := s.replicas[p].(saved := s.replicas[p].live)]))
  {
    var w, rep := WorldOf(s), s.replicas[p];
    StoredGrew(w, p, rep.live.value);
    LiveGrew(cfg, w, Stored(w, p, rep.live.value), p, rep.live.value, rep.saved.value);
    SavedGrew(cfg, w, Stored(w, p, rep.live.value), p, rep.saved.value);
    ReplaceRule(cfg, s, p, rep.(saved := rep.live));
  }

  lemma CommitOk<S, L, E>(cfg: Config<S, L, E>, s: System<S, E>, p: Uid, r: Record<E>,
        issued: map<SharedEventId, Fact<E>>)
    requires Inv(cfg, s) && HasLive(s, p)
    requires Accepts(cfg.model, s.replicas[p].live.value.base, s.replicas[p].live.value.journal, r)
    requires r.identity.IsShared() <==> cfg.shareable(r.event)
    requires r.identity.IsShared() ==> r.identity.originUid == p && r.identity !in s.issued
    requires issued == if r.identity.IsShared() then s.issued[r.identity := FactOf(r)] else s.issued
    ensures Inv(cfg, CommitAt(s, p, r).(issued := issued))
  {
    hide JournalOk, Insert, Accepts, NodeOk, LiveOk, SavedOk, MessageOk, FrozenFrameOk, FrozenOk;
    var s' := CommitAt(s, p, r).(issued := issued);
    var w, w' := WorldOf(s), WorldOf(s');
    assert w'.saved == w.saved;
    assert Grew(w, w');
    var rep := s.replicas[p];
    SavedGrew(cfg, w, w', p, rep.saved.value);
    LiveGrew(cfg, w, w', p, rep.live.value, rep.saved.value);
    LiveAfterCommit(cfg, w', p, rep.live.value, rep.saved.value, r);
    StepRule(cfg, s, s', p);
  }

  /** The live node with one more record of the replica's own. */
  lemma LiveAfterCommit<S, L, E>(cfg: Config<S, L, E>, w: World<S, E>, p: Uid, live: NodeState<S, E>,
        saved: NodeState<S, E>, r: Record<E>)
    requires LiveOk(cfg, w, p, live, saved) && Accepts(cfg.model, live.base, live.journal, r)
    requires r.identity.IsShared() <==> cfg.shareable(r.event)
    requires r.identity.IsShared() ==>
              r.identity.originUid == p && r.identity in w.issued && w.issued[r.identity] == FactOf(r)
    ensures LiveOk(cfg, w, p, live.(journal := Insert(live.journal, r)), saved)
  {
    hide JournalOk, Insert, Accepts, Kinds, Genuine;
    AcceptedKeepsOk(cfg.model, cfg.base, live.journal, r);
    InsertIdentities(live.journal, r);
    GenuineInsert(w, live.journal, r);
    KindsInsert(cfg, live.journal, r);
  }

  lemma GenuineInsert<S, E>(w: World<S, E>, journal: seq<Record<E>>, r: Record<E>)
    requires Genuine(w, journal)
    requires r.identity.IsShared() ==> r.identity in w.issued && w.issued[r.identity] == FactOf(r)
    ensures Genuine(w, Insert(journal, r))
  {
    InsertAt(journal, r);
    var k, out := LowerBound(journal, r.timestampUs), Insert(journal, r);
    forall i | 0 <= i < |out| && out[i].identity.IsShared()
      ensures out[i].identity in w.issued && w.issued[out[i].identity] == FactOf(out[i])
    {
      assert out[i] == if i < k then journal[i] else if i == k then r else journal[i - 1];
    }
  }

  lemma KindsInsert<S, L, E>(cfg: Config<S, L, E>, journal: seq<Record<E>>, r: Record<E>)
    requires Kinds(cfg, journal) && (r.identity.IsShared() <==> cfg.shareable(r.event))
    ensures Kinds(cfg, Insert(journal, r))
  {
    InsertAt(journal, r);
    var k, out := LowerBound(journal, r.timestampUs), Insert(journal, r);
    forall i | 0 <= i < |out| ensures out[i].identity.IsShared() <==> cfg.shareable(out[i].event) {
      assert out[i] == if i < k then journal[i] else if i == k then r else journal[i - 1];
    }
  }

  // ----- handlers -----

  /** The world once the replica has saved `node`. */
  ghost function Stored<S, E>(w: World<S, E>, p: Uid, node: NodeState<S, E>): World<S, E> {
    w.(saved := w.saved[p := Identities(node.journal)])
  }

  /** What a handler must establish: a node fit to be saved, and a reply that is true once it is. */
  ghost predicate EffectOk<S, L, E>(cfg: Config<S, L, E>, w: World<S, E>, p: Uid, q: Uid, rep: Replica<S, E>,
        eff: Effect<S, E>) {
    && rep.live.Some?
    && (eff.changed ==>
          NodeOk(cfg, w, eff.node) && OriginsSaved(w, p, Identities(eff.node.journal))
          && AllSyncOk(Stored(w, p, eff.node), p, eff.node.sync)
          && SavedIdentities(rep) <= Identities(eff.node.journal))
    && (eff.reply.Some? ==>
        MessageOk(if eff.changed then Stored(w, p, eff.node) else w, Message(p, q, eff.reply.value)))
  }

  lemma StoredGrew<S, E>(w: World<S, E>, p: Uid, node: NodeState<S, E>)
    requires p in w.saved && w.saved[p] <= Identities(node.journal)
    ensures Grew(w, Stored(w, p, node))
  {
  }

  lemma SettleOk<S, L, E>(cfg: Config<S, L, E>, w: World<S, E>, p: Uid, q: Uid, rep: Replica<S, E>,
        eff: Effect<S, E>, stage: Stage)
    requires p in w.saved && w.saved[p] == SavedIdentities(rep)
    requires ReplicaOk(cfg, w, p, rep) && EffectOk(cfg, w, p, q, rep, eff)
    ensures var rep' := Settle(rep, eff, stage);
            var w' := w.(saved := w.saved[p := SavedIdentities(rep')]);
            && SavedIdentities(rep) <= SavedIdentities(rep')
            && ReplicaOk(cfg, w', p, rep')
            && (stage.Ran? && eff.reply.Some? ==> MessageOk(w', Message(p, q, eff.reply.value)))
  {
    var rep' := Settle(rep, eff, stage);
    var w' := w.(saved := w.saved[p := SavedIdentities(rep')]);
    if !eff.changed || stage.DiedBeforeSave? {
      assert w' == w;
    } else {
      assert w' == Stored(w, p, eff.node);
      StoredGrew(w, p, eff.node);
      SavedGrew(cfg, w, w', p, rep.saved.value);
      GenuineGrew(w, w', eff.node.journal);
      assert SavedOk(cfg, w', p, eff.node);
      assert stage.DiedAfterNodeSave? ==> SavedOk(cfg, w', p, rep.saved.value.(journal := eff.node.journal));
    }
  }

  /** A true message may be sent. */
  lemma SendRule<S, L, E>(cfg: Config<S, L, E>, s: System<S, E>, p: Uid, q: Uid, frame: Frame<S, E>)
    requires Inv(cfg, s) && MessageOk(WorldOf(s), Message(p, q, frame))
    ensures Inv(cfg, Enqueue(s, p, q, frame))
  {
    hide ReplicaOk, FrozenOk, MessageOk;
    var s' := Enqueue(s, p, q, frame);
    assert WorldOf(s') == WorldOf(s);
    forall a, b, i | (a, b) in s'.queues && 0 <= i < |s'.queues[(a, b)]|
      ensures Message(a, b, s'.queues[(a, b)][i]) in s'.sent
    {
      var queued := if (p, q) in s.queues then s.queues[(p, q)] else [];
      if (a, b) == (p, q) && (p, q) !in s.disconnected {
        if i < |queued| {
          assert Message(p, q, queued[i]) in s.sent;
        }
      } else {
        assert (a, b) in s.queues && s'.queues[(a, b)] == s.queues[(a, b)];
      }
    }
  }

  /** A replica may take any outcome that is sound with what it then has in storage, and send a true reply. */
  lemma PostRule<S, L, E>(cfg: Config<S, L, E>, s: System<S, E>, p: Uid, q: Uid, outcome: Outcome<S, E>)
    requires Inv(cfg, s) && p in s.replicas
    requires SavedIdentities(s.replicas[p]) <= SavedIdentities(outcome.rep)
    requires var w := WorldOf(s).(saved := WorldOf(s).saved[p := SavedIdentities(outcome.rep)]);
             && ReplicaOk(cfg, w, p, outcome.rep)
             && (outcome.reply.Some? ==> MessageOk(w, Message(p, q, outcome.reply.value)))
    ensures Inv(cfg, Post(s, p, q, outcome))
  {
    hide Inv, ReplicaOk, MessageOk, Enqueue;
    ReplaceRule(cfg, s, p, outcome.rep);
    if outcome.reply.Some? {
      SendRule(cfg, s.(replicas := s.replicas[p := outcome.rep]), p, q, outcome.reply.value);
    }
  }

  /** A handler whose effect is well-formed keeps the invariant, wherever it dies. */
  lemma HandleRule<S, L, E>(cfg: Config<S, L, E>, s: System<S, E>, p: Uid, q: Uid, eff: Effect<S, E>, stage: Stage)
    requires Inv(cfg, s) && p in s.replicas
    requires EffectOk(cfg, WorldOf(s), p, q, s.replicas[p], eff)
    ensures Inv(cfg, Handle(s, p, q, eff, stage))
  {
    SettleOk(cfg, WorldOf(s), p, q, s.replicas[p], eff, stage);
    PostRule(cfg, s, p, q, Settled(s.replicas[p], eff, stage));
  }

  lemma FreezeRule<S, L, E>(cfg: Config<S, L, E>, s: System<S, E>, p: Uid, pid: nat, msg: Message<S, E>)
    requires Inv(cfg, s) && p in s.replicas && pid !in s.frozen
    requires FrozenFrameOk(cfg, WorldOf(s), pid, msg)
    ensures Inv(cfg, s.(frozen := s.frozen[pid := msg]))
  {
    var s' := s.(frozen := s.frozen[pid := msg]);
    var w, w' := WorldOf(s), WorldOf(s');
    assert w'.saved == w.saved;
    assert Grew(w, w');
    ReplicaGrew(cfg, w, w', p, s.replicas[p]);
    FrozenFrameGrew(cfg, w, w', pid, msg);
    StepRule(cfg, s, s', p);
  }

  // ----- the effects of the handlers -----

  /** A handler that only advances one relationship's sync state. */
  lemma SyncEffectOk<S, L, E>(cfg: Config<S, L, E>, w: World<S, E>, p: Uid, q: Uid, rep: Replica<S, E>,
        e: SyncEvent<Frame<S, E>>)
    requires p in w.saved && w.saved[p] == SavedIdentities(rep)
    requires ReplicaOk(cfg, w, p, rep) && rep.live.Some? && q in rep.live.value.sync
    requires SyncOk(Stored(w, p, rep.live.value), p, q, ApplySync(rep.live.value.sync[q], e))
    ensures EffectOk(cfg, w, p, q, rep, Effect(WithSync(rep.live.value, q, e), true, None))
  {
    var live := rep.live.value;
    var node := WithSync(live, q, e);
    var full := Stored(w, p, live);
    assert Stored(w, p, node) == full;
    StoredGrew(w, p, live);
    forall r | r in node.sync ensures SyncOk(full, p, r, node.sync[r]) {
      if r != q {
        SyncGrew(w, full, p, r, rep.saved.value.sync[r]);
      }
    }
  }

  /** Live content is saved content plus the replica's own commits, so it is all accounted for. */
  lemma LiveOrigins<S, L, E>(cfg: Config<S, L, E>, w: World<S, E>, p: Uid, rep: Replica<S, E>)
    requires ReplicaOk(cfg, w, p, rep) && rep.live.Some?
    ensures OriginsSaved(w, p, Identities(rep.live.value.journal))
  {
  }

  /** The packet a snapshot send freezes, and the effect of the send. */
  lemma InitialOk<S, L, E>(cfg: Config<S, L, E>, w: World<S, E>, p: Uid, q: Uid, rep: Replica<S, E>, pid: nat)
    requires p in w.saved && w.saved[p] == SavedIdentities(rep) && FrozenOk(cfg, w)
    requires ReplicaOk(cfg, w, p, rep) && rep.live.Some? && q in rep.live.value.sync
    ensures var eff := SyncInitialState(rep.live.value, q, pid);
            && (eff.changed ==> eff.reply.Some? && FrozenFrameOk(cfg, w, pid, Message(p, q, eff.reply.value)))
            && ((eff.changed ==> pid in w.frozen && w.frozen[pid] == Message(p, q, eff.reply.value)) ==>
                EffectOk(cfg, w, p, q, rep, eff))
  {
    var live := rep.live.value;
    var eff := SyncInitialState(live, q, pid);
    var st := live.sync[q];
    assert SyncOk(w, p, q, rep.saved.value.sync[q]);
    if eff.changed && pid in w.frozen && w.frozen[pid] == Message(p, q, eff.reply.value) {
      var full := Stored(w, p, live);
      StoredGrew(w, p, live);
      SyncGrew(w, full, p, q, st);
      assert HasAll(full, p, Identities(live.journal));
      SyncEffectOk(cfg, w, p, q, rep, BeginInitialSync(pid, eff.reply.value, IdentitySeq(live.journal)));
    }
  }

  lemma NextOk<S, L, E>(cfg: Config<S, L, E>, w: World<S, E>, p: Uid, q: Uid, rep: Replica<S, E>, pid: nat)
    requires p in w.saved && w.saved[p] == SavedIdentities(rep) && FrozenOk(cfg, w)
    requires ReplicaOk(cfg, w, p, rep) && rep.live.Some? && q in rep.live.value.sync
    ensures var eff := SyncNextEvent(cfg, p, rep.live.value, q, pid);
            && (eff.changed ==> eff.reply.Some? && FrozenFrameOk(cfg, w, pid, Message(p, q, eff.reply.value)))
            && ((eff.changed ==> pid in w.frozen && w.frozen[pid] == Message(p, q, eff.reply.value)) ==>
                EffectOk(cfg, w, p, q, rep, eff))
  {
    hide JournalOk, Accepts, Insert, OriginsSaved;
    var live := rep.live.value;
    var eff := SyncNextEvent(cfg, p, live, q, pid);
    var st := live.sync[q];
    assert SyncOk(w, p, q, rep.saved.value.sync[q]);
    if eff.changed {
      var next := NextUndelivered(live.journal, st, q).value;
      var i :| 0 <= i < |live.journal| && live.journal[i] == next && !Skipped(live.journal[i], st, q);
      IdentityAt(live.journal, i);
      if pid in w.frozen && w.frozen[pid] == Message(p, q, eff.reply.value) {
        var full := Stored(w, p, live);
        StoredGrew(w, p, live);
        SyncGrew(w, full, p, q, st);
        assert Has(full, p, next.identity);
        SyncEffectOk(cfg, w, p, q, rep, BeginIncrementalEvent(pid, next.identity, eff.reply.value));
      }
    }
  }

  /** A sending handler: the packet it freezes is recorded, then its effect settles. */
  lemma DriveRule<S, L, E>(cfg: Config<S, L, E>, s: System<S, E>, p: Uid, q: Uid, eff: Effect<S, E>, pid: nat,
        stage: Stage)
    requires Inv(cfg, s) && p in s.replicas && pid !in s.frozen
    requires eff.changed ==> eff.reply.Some? && FrozenFrameOk(cfg, WorldOf(s), pid, Message(p, q, eff.reply.value))
    requires var s1 := if eff.changed then s.(frozen := s.frozen[pid := Message(p, q, eff.reply.value)]) else s;
             Inv(cfg, s1) ==> EffectOk(cfg, WorldOf(s1), p, q, s.replicas[p], eff)
    ensures Inv(cfg, Drive(s, p, q, eff, pid, stage))
  {
    if eff.changed {
      FreezeRule(cfg, s, p, pid, Message(p, q, eff.reply.value));
      HandleRule(cfg, s.(frozen := s.frozen[pid := Message(p, q, eff.reply.value)]), p, q, eff, stage);
    } else {
      HandleRule(cfg, s, p, q, eff, stage);
    }
  }

  lemma AckOk<S, L, E>(cfg: Config<S, L, E>, w: World<S, E>, p: Uid, q: Uid, rep: Replica<S, E>, pid: nat, share: Uid)
    requires p in w.saved && w.saved[p] == SavedIdentities(rep)
    requires ReplicaOk(cfg, w, p, rep) && rep.live.Some?
    requires MessageOk(w, Message(q, p, AckFrame(pid, share)))
    ensures EffectOk(cfg, w, p, q, rep, OnAck(rep.live.value, q, pid, share))
  {
    var live := rep.live.value;
    var eff := OnAck(live, q, pid, share);
    if eff.changed {
      var st := live.sync[q];
      var full := Stored(w, p, live);
      assert SyncOk(w, p, q, rep.saved.value.sync[q]);
      StoredGrew(w, p, live);
      SyncGrew(w, full, p, q, st);
      if st.phase.Pending? {
        SyncEffectOk(cfg, w, p, q, rep, CompleteInitialSync);
      } else {
        SyncEffectOk(cfg, w, p, q, rep, CompleteIncrementalEvent);
      }
    }
  }

  /** Storage of any replica holds another origin's event only if that origin's storage does. */
  ghost predicate OriginsEverywhere<S, E>(w: World<S, E>) {
    forall r, id {:trigger Has(w, r, id)} :: Has(w, r, id) && id.originUid != r ==> Has(w, id.originUid, id)
  }

  lemma InvOrigins<S, L, E>(cfg: Config<S, L, E>, s: System<S, E>)
    requires Inv(cfg, s)
    ensures OriginsEverywhere(WorldOf(s))
  {
    var w := WorldOf(s);
    forall r, id {:trigger Has(w, r, id)} | Has(w, r, id) && id.originUid != r ensures Has(w, id.originUid, id) {
      assert ReplicaOk(cfg, w, r, s.replicas[r]);
    }
  }

  lemma EventOk<S, L, E>(cfg: Config<S, L, E>, w: World<S, E>, p: Uid, q: Uid, rep: Replica<S, E>,
      pid: nat, share: Uid, fact: Fact<E>, now: U64)
    requires p in w.saved && w.saved[p] == SavedIdentities(rep) && FrozenOk(cfg, w) && OriginsEverywhere(w)
    requires ReplicaOk(cfg, w, p, rep) && rep.live.Some?
    requires MessageOk(w, Message(q, p, EventFrame(pid, share, fact)))
    ensures EffectOk(cfg, w, p, q, rep, OnEvent(cfg, p, rep.live.value, q, pid, share, fact, now))
  {
    var live := rep.live.value;
    var eff := OnEvent(cfg, p, live, q, pid, share, fact, now);
    assert FrozenFrameOk(cfg, w, pid, w.frozen[pid]);
    assert fact.identity in Content(w.frozen[pid].frame);
    if eff.changed {
      var r := RecordOf(fact, now);
      AcceptedKeepsOk(cfg.model, cfg.base, live.journal, r);
      GenuineInsert(w, live.journal, r);
      KindsInsert(cfg, live.journal, r);
      InsertIdentities(live.journal, r);
      LiveOrigins(cfg, w, p, rep);
      var full := Stored(w, p, eff.node);
      StoredGrew(w, p, eff.node);
      forall x | x in eff.node.sync ensures SyncOk(full, p, x, eff.node.sync[x]) {
        SyncGrew(w, full, p, x, rep.saved.value.sync[x]);
      }
    }
  }

  /** A repeated snapshot may be acknowledged: the recorded one's content is in storage. */
  lemma RepeatOk<S, L, E>(cfg: Config<S, L, E>, w: World<S, E>, p: Uid, q: Uid, rep: Replica<S, E>, frame: Frame<S, E>)
    requires ReplicaOk(cfg, w, p, rep) && rep.live.Some? && frame.NodeStateFrame?
    requires MessageOk(w, Message(q, p, frame))
    ensures RecordedHere(cfg, p, rep.live.value, q, frame.packetId, frame.share) ==>
              MessageOk(w, Message(p, q, AckFrame(frame.packetId, frame.share)))
  {
    if RecordedHere(cfg, p, rep.live.value, q, frame.packetId, frame.share) {
      assert SyncOk(w, p, p, rep.saved.value.sync[p]);
    }
  }

  /** Introducing a registered node changes neither it nor storage beyond the reference. */
  lemma IntroduceOk<S, L, E>(cfg: Config<S, L, E>, w: World<S, E>, p: Uid, q: Uid, rep: Replica<S, E>,
      ack: Frame<S, E>, bound: bool, stage: Stage)
    requires ReplicaOk(cfg, w, p, rep) && rep.live.Some?
    ensures var outcome := Introduce(rep, q, ack, bound, stage);
            && ReplicaOk(cfg, w, p, outcome.rep) && outcome.rep.saved == rep.saved
            && (outcome.reply.Some? ==> outcome.reply.value == ack)
  {
    hide SavedOk, LiveOk;
  }

  /** The node an import saves. */
  lemma ImportedOk<S, L, E>(cfg: Config<S, L, E>, w: World<S, E>, p: Uid, q: Uid, frame: Frame<S, E>)
    requires frame.NodeStateFrame? && p != q && p in cfg.endpoints && q in cfg.endpoints
    requires p in w.saved && w.saved[p] == {} && FrozenOk(cfg, w) && OriginsEverywhere(w)
    requires MessageOk(w, Message(q, p, frame))
    ensures var node := Imported(cfg, p, q, frame.packetId, frame.base, frame.journal);
            var full := Stored(w, p, node);
            && Grew(w, full)
            && SavedOk(cfg, full, p, node) && LiveOk(cfg, full, p, node, node)
            && MessageOk(full, Message(p, q, AckFrame(frame.packetId, p)))
  {
    hide JournalOk;
    var pid := frame.packetId;
    var node := Imported(cfg, p, q, pid, frame.base, frame.journal);
    var full := Stored(w, p, node);
    StoredGrew(w, p, node);
    assert FrozenFrameOk(cfg, w, pid, w.frozen[pid]);
    GenuineGrew(w, full, frame.journal);
    assert HasAll(full, p, Identities(frame.journal));
    forall x | x in node.sync ensures SyncOk(full, p, x, node.sync[x]) {
      if x == p {
      } else if x == q {
        assert HasAll(full, q, Identities(frame.journal));
      } else {
        assert node.sync[x] == Fresh();
      }
    }
  }

  lemma ImportRule<S, L, E>(cfg: Config<S, L, E>, s: System<S, E>, p: Uid, q: Uid, frame: Frame<S, E>, bound: bool,
        stage: Stage)
    requires Inv(cfg, s) && p in s.replicas && s.replicas[p].up && s.replicas[p].live.None?
    requires frame.NodeStateFrame? && MessageOk(WorldOf(s), Message(q, p, frame))
    ensures Inv(cfg, Import(cfg, s, p, q, frame, bound, stage))
  {
    hide JournalOk, SavedOk, LiveOk, MessageOk, FrozenFrameOk, Imported, Admissible, Post, Introduce;
    var w, rep := WorldOf(s), s.replicas[p];
    assert ReplicaOk(cfg, w, p, rep);
    var outcome := OnNodeStateNew(cfg, p, rep, q, frame, bound, stage);
    assert w.saved[p := SavedIdentities(rep)] == w.saved;
    if Awaits(cfg, rep, q) && !rep.occupied && SnapshotAdmissible(cfg, p, q, frame.share, frame.base, frame.journal) {
      InvOrigins(cfg, s);
      ImportedOk(cfg, w, p, q, frame);
      var node := Imported(cfg, p, q, frame.packetId, frame.base, frame.journal);
      var registered := rep.(occupied := true, saved := Some(node), live := Some(node));
      IntroduceOk(cfg, Stored(w, p, node), p, q, registered, AckFrame(frame.packetId, frame.share), bound, stage);
    }
    PostRule(cfg, s, p, q, outcome);
  }

  lemma ReceiveRule<S, L, E>(cfg: Config<S, L, E>, s: System<S, E>, p: Uid, q: Uid, frame: Frame<S, E>, now: U64,
        bound: bool, stage: Stage)
    requires Inv(cfg, s) && p in s.replicas && s.replicas[p].up
    requires MessageOk(WorldOf(s), Message(q, p, frame))
    ensures Inv(cfg, Receive(cfg, s, p, q, frame, now, bound, stage))
  {
    hide MessageOk, Settle, OnAck, OnEvent, OnNodeStateNew, OnNodeStateAgain, SavedOk, LiveOk;
    var w, rep := WorldOf(s), s.replicas[p];
    assert ReplicaOk(cfg, w, p, rep);
    if rep.live.None? {
      if frame.NodeStateFrame? {
        ImportRule(cfg, s, p, q, frame, bound, stage);
      } else {
        assert w.saved[p := SavedIdentities(rep)] == w.saved;
        PostRule(cfg, s, p, q, Outcome(rep, None));
      }
    } else {
      match frame {
        case AckFrame(pid, share) =>
          AckOk(cfg, w, p, q, rep, pid, share);
          HandleRule(cfg, s, p, q, OnAck(rep.live.value, q, pid, share), stage);
        case EventFrame(pid, share, fact) =>
          InvOrigins(cfg, s);
          EventOk(cfg, w, p, q, rep, pid, share, fact, now);
          HandleRule(cfg, s, p, q, OnEvent(cfg, p, rep.live.value, q, pid, share, fact, now), stage);
        case NodeStateFrame(_, _, _, _) => RepeatRule(cfg, s, p, q, frame, bound, stage);
      }
    }
  }

  lemma RepeatRule<S, L, E>(cfg: Config<S, L, E>, s: System<S, E>, p: Uid, q: Uid, frame: Frame<S, E>, bound: bool,
        stage: Stage)
    requires Inv(cfg, s) && HasLive(s, p) && frame.NodeStateFrame?
    requires MessageOk(WorldOf(s), Message(q, p, frame))
    ensures Inv(cfg, Post(s, p, q,
              OnNodeStateAgain(cfg, p, s.replicas[p], q, frame.packetId, frame.share, bound, stage)))
  {
    hide MessageOk, SavedOk, LiveOk, Post, RecordedHere, Introduce;
    var w, rep := WorldOf(s), s.replicas[p];
    assert ReplicaOk(cfg, w, p, rep);
    var outcome := OnNodeStateAgain(cfg, p, rep, q, frame.packetId, frame.share, bound, stage);
    RepeatOk(cfg, w, p, q, rep, frame);
    IntroduceOk(cfg, w, p, q, rep, AckFrame(frame.packetId, frame.share), bound, stage);
    assert SavedIdentities(outcome.rep) == SavedIdentities(rep);
    assert w.saved[p := SavedIdentities(rep)] == w.saved;
    PostRule(cfg, s, p, q, outcome);
  }

  lemma SendInitialRule<S, L, E>(cfg: Config<S, L, E>, s: System<S, E>, p: Uid, q: Uid, pid: nat, stage: Stage)
    requires Inv(cfg, s) && HasLive(s, p) && q in s.replicas[p].live.value.sync && pid !in s.frozen
    ensures Inv(cfg, Drive(s, p, q, SyncInitialState(s.replicas[p].live.value, q, pid), pid, stage))
  {
    var rep := s.replicas[p];
    var eff := SyncInitialState(rep.live.value, q, pid);
    InitialOk(cfg, WorldOf(s), p, q, rep, pid);
    var s1 := if eff.changed then s.(frozen := s.frozen[pid := Message(p, q, eff.reply.value)]) else s;
    if Inv(cfg, s1) {
      InitialOk(cfg, WorldOf(s1), p, q, rep, pid);
    }
    DriveRule(cfg, s, p, q, eff, pid, stage);
  }

  lemma SendNextRule<S, L, E>(cfg: Config<S, L, E>, s: System<S, E>, p: Uid, q: Uid, pid: nat, stage: Stage)
    requires Inv(cfg, s) && HasLive(s, p) && q in s.replicas[p].live.value.sync && pid !in s.frozen
    ensures Inv(cfg, Drive(s, p, q, SyncNextEvent(cfg, p, s.replicas[p].live.value, q, pid), pid, stage))
  {
    var rep := s.replicas[p];
    var eff := SyncNextEvent(cfg, p, rep.live.value, q, pid);
    NextOk(cfg, WorldOf(s), p, q, rep, pid);
    var s1 := if eff.changed then s.(frozen := s.frozen[pid := Message(p, q, eff.reply.value)]) else s;
    if Inv(cfg, s1) {
      NextOk(cfg, WorldOf(s1), p, q, rep, pid);
    }
    DriveRule(cfg, s, p, q, eff, pid, stage);
  }

  /** A replica's own steps other than saving touch memory and the application's references only. */
  lemma OwnStepOk<S, L, E>(cfg: Config<S, L, E>, w: World<S, E>, p: Uid, rep: Replica<S, E>, step: Step<E>)
    requires ReplicaOk(cfg, w, p, rep) && OwnEnabled(rep, step) && !step.Save?
    ensures OwnStep(rep, step).saved == rep.saved && ReplicaOk(cfg, w, p, OwnStep(rep, step))
  {
    hide SavedOk, LiveOk, Expecting;
    if step.Register? {
      RegisterOk(cfg, w, p, rep);
    }
  }

  /** The invariant is inductive: commits, saves, sends, deliveries, outages, crashes and restarts keep it. */
  lemma StepKeepsInv<S, L, E>(cfg: Config<S, L, E>, s: System<S, E>, step: Step<E>)
    requires Inv(cfg, s) && Enabled(cfg, s, step)
    ensures Inv(cfg, Next(cfg, s, step))
  {
    hide JournalOk, Accepts, Insert, NodeOk, SyncOk, AllSyncOk, OriginsSaved, MessageOk, FrozenFrameOk, FrozenOk;
    hide Receive, SyncInitialState, SyncNextEvent, Drive, Settle, Enqueue;
    match step {
      case CommitShared(p, event, sequence, ts, now) =>
        var r := Record(event, SharedEventId(p, sequence), ts, now);
        CommitOk(cfg, s, p, r, s.issued[r.identity := FactOf(r)]);
      case CommitLocal(p, event, ts, now) => CommitOk(cfg, s, p, Record(event, NO_IDENTITY, ts, now), s.issued);
      case Save(p) => SaveOk(cfg, s, p);
      case SendInitial(p, q, pid, stage) => SendInitialRule(cfg, s, p, q, pid, stage);
      case SendNext(p, q, pid, stage) => SendNextRule(cfg, s, p, q, pid, stage);
      case Deliver(p, q, now, bound, stage) =>
        var s1 := s.(queues := s.queues[(p, q) := s.queues[(p, q)][1..]]);
        PopRule(cfg, s, p, q);
        assert WorldOf(s1) == WorldOf(s);
        ReceiveRule(cfg, s1, q, p, s.queues[(p, q)][0], now, bound, stage);
      case DropHead(p, q) => PopRule(cfg, s, p, q);
      case DuplicateHead(p, q) => DuplicateRule(cfg, s, p, q);
      case Disconnect(p, q) => NetworkRule(cfg, s, Next(cfg, s, step));
      case Reconnect(p, q) => NetworkRule(cfg, s, Next(cfg, s, step));
      case _ =>
        OwnStepOk(cfg, WorldOf(s), step.p, s.replicas[step.p], step);
        MemoryRule(cfg, s, step.p, OwnStep(s.replicas[step.p], step));
    }
  }

  lemma NoIdentities<E>(journal: seq<Record<E>>)
    ensures Identities(journal) == {} ==> forall i :: 0 <= i < |journal| ==> !journal[i].identity.IsShared()
  {
    forall i | 0 <= i < |journal|
      ensures journal[i].identity.IsShared() ==> journal[i].identity in Identities(journal)
    {
    }
  }

  lemma InitKeepsInv<S, L, E>(cfg: Config<S, L, E>, creator: Uid, journal: seq<Record<E>>, s: System<S, E>)
    requires Init(cfg, creator, journal, s)
    ensures Inv(cfg, s)
  {
    var w := WorldOf(s);
    forall p | p in s.replicas ensures ReplicaOk(cfg, w, p, s.replicas[p]) {
      if p == creator {
        NoIdentities(journal);
        assert Genuine(w, journal);
      }
    }
  }

  /** Every state of every run satisfies the invariant. */
  lemma {:induction false} RunKeepsInv<S, L, E>(cfg: Config<S, L, E>, creator: Uid, journal: seq<Record<E>>,
      states: seq<System<S, E>>, steps: seq<Step<E>>, k: nat)
    requires Run(cfg, states, steps) && Init(cfg, creator, journal, states[0])
    requires k < |states|
    ensures Inv(cfg, states[k])
  {
    if k == 0 {
      InitKeepsInv(cfg, creator, journal, states[0]);
    } else {
      RunKeepsInv(cfg, creator, journal, states, steps, k - 1);
      StepKeepsInv(cfg, states[k - 1], steps[k - 1]);
    }
  }
}
