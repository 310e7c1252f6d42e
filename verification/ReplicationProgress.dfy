/** How one step of the replication protocol may change a replica: only forwards. */
module ReplicationProgress {
  import opened Basics
  import opened EventJournal
  import opened LinkSync
  import opened Replication
  import opened ReplicationInvariant
  import opened ReplicationSteps

  /**
  Progress of one relationship: the phase does not go back, delivered identities stay, a recorded
  snapshot stays recorded, and an outstanding packet is given up only once its content is delivered.
   */
  ghost predicate Advanced<S, E>(st: Sync<S, E>, st': Sync<S, E>) {
    && Rank(st.phase) <= Rank(st'.phase)
    && st.delivered <= st'.delivered
    && (st.receivedInitial.Some? ==> st'.receivedInitial == st.receivedInitial)
    && (st.pendingEvent.Some? ==>
        st'.pendingEvent == st.pendingEvent || st.pendingEvent.value.identity in st'.delivered)
    && (st.pendingInitial.Some? ==>
          || st'.pendingInitial == st.pendingInitial
          || (st'.phase.Complete? && forall id :: id in st.pendingInitial.value.covered ==> id in st'.delivered))
  }

  ghost predicate AllAdvanced<S, E>(sync: map<Uid, Sync<S, E>>, sync': map<Uid, Sync<S, E>>) {
    forall q :: q in sync ==> q in sync' && Advanced(sync[q], sync'[q])
  }

  /** Storage never loses an event nor any progress. */
  ghost predicate SavedAdvanced<S, E>(rep: Replica<S, E>, rep': Replica<S, E>) {
    rep.saved.Some? ==>
      && rep'.saved.Some?
      && Identities(rep.saved.value.journal) <= Identities(rep'.saved.value.journal)
      && AllAdvanced(rep.saved.value.sync, rep'.saved.value.sync)
  }

  lemma ReflexiveAdvance<S, E>(sync: map<Uid, Sync<S, E>>)
    ensures AllAdvanced(sync, sync)
  {
  }

  /** A handler's node: journal grown, every relationship advanced. */
  ghost predicate EffectAdvances<S, E>(node: NodeState<S, E>, eff: Effect<S, E>) {
    eff.changed ==> Identities(node.journal) <= Identities(eff.node.journal) && AllAdvanced(node.sync, eff.node.sync)
  }

  lemma SettleAdvances<S, L, E>(cfg: Config<S, L, E>, w: World<S, E>, p: Uid, rep: Replica<S, E>, eff: Effect<S, E>,
        stage: Stage)
    requires ReplicaOk(cfg, w, p, rep) && rep.live.Some? && EffectAdvances(rep.live.value, eff)
    ensures SavedAdvanced(rep, Settle(rep, eff, stage))
  {
    ReflexiveAdvance(rep.saved.value.sync);
  }

  lemma InitialAdvances<S, L, E>(cfg: Config<S, L, E>, w: World<S, E>, p: Uid, q: Uid, rep: Replica<S, E>, pid: nat)
    requires ReplicaOk(cfg, w, p, rep) && rep.live.Some? && q in rep.live.value.sync
    ensures EffectAdvances(rep.live.value, SyncInitialState(rep.live.value, q, pid))
  {
    assert SyncOk(w, p, q, rep.saved.value.sync[q]);
  }

  lemma NextAdvances<S, L, E>(cfg: Config<S, L, E>, p: Uid, q: Uid, node: NodeState<S, E>, pid: nat)
    requires q in node.sync
    ensures EffectAdvances(node, SyncNextEvent(cfg, p, node, q, pid))
  {
  }

  lemma AckAdvances<S, E>(node: NodeState<S, E>, q: Uid, pid: nat, share: Uid)
    ensures EffectAdvances(node, OnAck(node, q, pid, share))
  {
    var eff := OnAck(node, q, pid, share);
    if eff.changed {
      forall r | r in node.sync ensures Advanced(node.sync[r], eff.node.sync[r]) {
      }
    }
  }

  lemma EventAdvances<S, L, E>(cfg: Config<S, L, E>, p: Uid, q: Uid, node: NodeState<S, E>, pid: nat, share: Uid,
        fact: Fact<E>, now: U64)
    ensures EffectAdvances(node, OnEvent(cfg, p, node, q, pid, share, fact, now))
  {
    InsertIdentities(node.journal, RecordOf(fact, now));
  }

  lemma Unchanged<S, E>(rep: Replica<S, E>)
    ensures SavedAdvanced(rep, rep)
  {
    if rep.saved.Some? {
      ReflexiveAdvance(rep.saved.value.sync);
    }
  }

  /** A handler run by `p` advances `p` and touches no other replica. */
  lemma HandleAdvances<S, L, E>(cfg: Config<S, L, E>, s: System<S, E>, p: Uid, q: Uid, eff: Effect<S, E>, stage: Stage)
    requires Inv(cfg, s) && HasLive(s, p) && EffectAdvances(s.replicas[p].live.value, eff)
    ensures var s' := Handle(s, p, q, eff, stage);
            && s'.replicas == s.replicas[p := Settle(s.replicas[p], eff, stage)]
            && SavedAdvanced(s.replicas[p], s'.replicas[p])
  {
    assert ReplicaOk(cfg, WorldOf(s), p, s.replicas[p]);
    SettleAdvances(cfg, WorldOf(s), p, s.replicas[p], eff, stage);
  }

  lemma ImportAdvances<S, L, E>(cfg: Config<S, L, E>, s: System<S, E>, p: Uid, q: Uid, frame: Frame<S, E>,
        bound: bool, stage: Stage)
    requires Inv(cfg, s) && p in s.replicas && frame.NodeStateFrame?
    ensures var s' := Import(cfg, s, p, q, frame, bound, stage);
            && p in s'.replicas
            && s'.replicas == s.replicas[p := s'.replicas[p]]
            && SavedAdvanced(s.replicas[p], s'.replicas[p])
  {
    assert ReplicaOk(cfg, WorldOf(s), p, s.replicas[p]);
    Unchanged(s.replicas[p]);
  }

  /** What a step may do to the replicas: change one of them, forwards. */
  ghost predicate Forward<S, E>(replicas: map<Uid, Replica<S, E>>, replicas': map<Uid, Replica<S, E>>, p: Uid) {
    p in replicas && p in replicas' && replicas' == replicas[p := replicas'[p]] &&
        SavedAdvanced(replicas[p], replicas'[p])
  }

  lemma RepeatAdvances<S, L, E>(cfg: Config<S, L, E>, s: System<S, E>, p: Uid, q: Uid, frame: Frame<S, E>, now: U64,
        bound: bool, stage: Stage)
    requires Inv(cfg, s) && HasLive(s, p) && frame.NodeStateFrame?
    ensures Forward(s.replicas, Receive(cfg, s, p, q, frame, now, bound, stage).replicas, p)
  {
    hide Inv, AllAdvanced, Identities, RecordedHere;
    Unchanged(s.replicas[p]);
  }

  lemma ReceiveAdvances<S, L, E>(cfg: Config<S, L, E>, s: System<S, E>, p: Uid, q: Uid, frame: Frame<S, E>, now: U64,
        bound: bool, stage: Stage)
    requires Inv(cfg, s) && p in s.replicas
    ensures Forward(s.replicas, Receive(cfg, s, p, q, frame, now, bound, stage).replicas, p)
  {
    hide OnAck, OnEvent, OnNodeStateNew, OnNodeStateAgain, Settle;
    var rep := s.replicas[p];
    Unchanged(rep);
    if rep.live.Some? {
      var live := rep.live.value;
      match frame {
        case AckFrame(pid, share) =>
          AckAdvances(live, q, pid, share);
          HandleAdvances(cfg, s, p, q, OnAck(live, q, pid, share), stage);
        case EventFrame(pid, share, fact) =>
          EventAdvances(cfg, p, q, live, pid, share, fact, now);
          HandleAdvances(cfg, s, p, q, OnEvent(cfg, p, live, q, pid, share, fact, now), stage);
        case NodeStateFrame(_, _, _, _) => RepeatAdvances(cfg, s, p, q, frame, now, bound, stage);
      }
    } else if frame.NodeStateFrame? {
      ImportAdvances(cfg, s, p, q, frame, bound, stage);
    }
  }

  lemma DriveAdvances<S, L, E>(cfg: Config<S, L, E>, s: System<S, E>, p: Uid, q: Uid, eff: Effect<S, E>, pid: nat,
        stage: Stage)
    requires Inv(cfg, s) && HasLive(s, p) && EffectAdvances(s.replicas[p].live.value, eff)
    ensures Forward(s.replicas, Drive(s, p, q, eff, pid, stage).replicas, p)
  {
    HandleAdvances(cfg, s, p, q, eff, stage);
  }

  /** The replica a step belongs to. */
  function Actor<E>(step: Step<E>): Option<Uid> {
    match step
    case Deliver(_, q, _, _, _) => Some(q)
    case DropHead(_, _) => None
    case DuplicateHead(_, _) => None
    case Disconnect(_, _) => None
    case Reconnect(_, _) => None
    case _ => Some(step.p)
  }

  lemma QuietSteps<S, L, E>(cfg: Config<S, L, E>, s: System<S, E>, step: Step<E>)
    requires Inv(cfg, s) && Enabled(cfg, s, step)
    requires !step.SendInitial? && !step.SendNext? && !step.Deliver?
    ensures match Actor(step)
            case None => Next(cfg, s, step).replicas == s.replicas
            case Some(p) => Forward(s.replicas, Next(cfg, s, step).replicas, p)
  {
    if Actor(step).Some? {
      var p := Actor(step).value;
      assert ReplicaOk(cfg, WorldOf(s), p, s.replicas[p]);
      Unchanged(s.replicas[p]);
    }
  }

  lemma StepForward<S, L, E>(cfg: Config<S, L, E>, s: System<S, E>, step: Step<E>)
    requires Inv(cfg, s) && Enabled(cfg, s, step)
    ensures match Actor(step)
            case None => Next(cfg, s, step).replicas == s.replicas
            case Some(p) => Forward(s.replicas, Next(cfg, s, step).replicas, p)
  {
    hide JournalOk, Accepts, Insert, SavedOk, LiveOk, MessageOk, FrozenFrameOk, FrozenOk;
    hide Receive, Drive, SyncInitialState, SyncNextEvent, Settle, Forward, OwnStep, OwnEnabled;
    match step {
      case SendInitial(p, q, pid, stage) =>
        assert ReplicaOk(cfg, WorldOf(s), p, s.replicas[p]);
        InitialAdvances(cfg, WorldOf(s), p, q, s.replicas[p], pid);
        DriveAdvances(cfg, s, p, q, SyncInitialState(s.replicas[p].live.value, q, pid), pid, stage);
      case SendNext(p, q, pid, stage) =>
        NextAdvances(cfg, p, q, s.replicas[p].live.value, pid);
        DriveAdvances(cfg, s, p, q, SyncNextEvent(cfg, p, s.replicas[p].live.value, q, pid), pid, stage);
      case Deliver(p, q, now, bound, stage) =>
        PopRule(cfg, s, p, q);
        ReceiveAdvances(cfg, s.(queues := s.queues[(p, q) := s.queues[(p, q)][1..]]), q, p, s.queues[(p, q)][0], now,
            bound, stage);
      case _ => QuietSteps(cfg, s, step);
    }
  }

  /**
  One step moves every replica's storage forwards: no stored event is lost, no phase goes back, no
  delivered identity is forgotten, and an outstanding packet is replaced only after its content is delivered.
   */
  lemma StepAdvances<S, L, E>(cfg: Config<S, L, E>, s: System<S, E>, step: Step<E>, p: Uid)
    requires Inv(cfg, s) && Enabled(cfg, s, step) && p in s.replicas
    ensures p in Next(cfg, s, step).replicas && SavedAdvanced(s.replicas[p], Next(cfg, s, step).replicas[p])
  {
    hide Inv, Next, Enabled, SavedAdvanced;
    StepForward(cfg, s, step);
    Unchanged(s.replicas[p]);
  }

  // ----- at most one outstanding packet -----

  /** A sent packet is either settled on the sender's side or the one it still holds. */
  ghost predicate Accounted<S, E>(st: Sync<S, E>, frame: Frame<S, E>) {
    match frame
    case EventFrame(pid, _, fact) =>
      fact.identity in st.delivered || st.pendingEvent == Some(PendingEvent(pid, fact.identity, frame))
    case NodeStateFrame(pid, _, _, _) =>
      st.phase.Complete? || (st.pendingInitial.Some? && st.pendingInitial.value.packetId == pid)
    case AckFrame(_, _) => true
  }

  ghost predicate AllAccounted<S, E>(s: System<S, E>) {
    forall msg :: msg in s.sent && !msg.frame.AckFrame? && msg.from in s.replicas ==>
      var rep := s.replicas[msg.from];
      rep.saved.Some? && msg.to in rep.saved.value.sync && Accounted(rep.saved.value.sync[msg.to], msg.frame)
  }

  lemma AccountedAdvances<S, E>(st: Sync<S, E>, st': Sync<S, E>, frame: Frame<S, E>)
    requires Accounted(st, frame) && Advanced(st, st')
    ensures Accounted(st', frame)
  {
  }

  /** A sending handler sends its reply, and has saved the node it comes from. */
  lemma DriveSends<S, E>(s: System<S, E>, p: Uid, q: Uid, eff: Effect<S, E>, pid: nat, stage: Stage, msg: Message<S, E>)
    requires p in s.replicas && msg !in s.sent && msg in Drive(s, p, q, eff, pid, stage).sent
    ensures eff.reply.Some? && msg == Message(p, q, eff.reply.value)
    ensures p in Drive(s, p, q, eff, pid, stage).replicas
    ensures Drive(s, p, q, eff, pid, stage).replicas[p].saved == if eff.changed then Some(eff.node)
              else s.replicas[p].saved
  {
  }

  /** What a step sends beyond acknowledgements is accounted for by the sender. */
  lemma SentAccounted<S, L, E>(cfg: Config<S, L, E>, s: System<S, E>, step: Step<E>, s': System<S, E>,
        msg: Message<S, E>)
    requires Inv(cfg, s) && Enabled(cfg, s, step) && s' == Next(cfg, s, step)
    requires msg in s'.sent && msg !in s.sent && !msg.frame.AckFrame?
    ensures msg.from in s'.replicas ==>
            var rep := s'.replicas[msg.from];
            rep.saved.Some? && msg.to in rep.saved.value.sync && Accounted(rep.saved.value.sync[msg.to], msg.frame)
  {
    hide ReplicaOk, FrozenFrameOk, MessageOk, Accounted, Accepts, Insert, Receive, Drive, SyncInitialState;
    hide SyncNextEvent, OwnStep;
    hide OwnEnabled;
    var w := WorldOf(s);
    match step {
      case SendInitial(p, q, pid, stage) =>
        InitialAccounted(cfg, w, p, q, s.replicas[p], pid);
        DriveSends(s, p, q, SyncInitialState(s.replicas[p].live.value, q, pid), pid, stage, msg);
      case SendNext(p, q, pid, stage) =>
        NextAccounted(cfg, w, p, q, s.replicas[p], pid);
        DriveSends(s, p, q, SyncNextEvent(cfg, p, s.replicas[p].live.value, q, pid), pid, stage, msg);
      case Deliver(p, q, now, bound, stage) =>
        OnlyAcksAnswer(cfg, s, p, q, now, bound, stage);
      case _ =>
    }
  }

  lemma InitialAccounted<S, L, E>(cfg: Config<S, L, E>, w: World<S, E>, p: Uid, q: Uid, rep: Replica<S, E>, pid: nat)
    requires ReplicaOk(cfg, w, p, rep) && rep.live.Some? && q in rep.live.value.sync && FrozenOk(cfg, w)
    ensures rep.saved.Some? && rep.saved.value.sync == rep.live.value.sync
    ensures var eff := SyncInitialState(rep.live.value, q, pid);
            && (!eff.changed ==> eff.node == rep.live.value)
            && (eff.reply.Some? ==> q in eff.node.sync && Accounted(eff.node.sync[q], eff.reply.value))
  {
    var st := rep.live.value.sync[q];
    assert SyncOk(w, p, q, rep.saved.value.sync[q]);
    if st.pendingInitial.Some? {
      assert FrozenFrameOk(cfg, w, st.pendingInitial.value.packetId, Message(p, q, st.pendingInitial.value.packet));
    }
  }

  lemma NextAccounted<S, L, E>(cfg: Config<S, L, E>, w: World<S, E>, p: Uid, q: Uid, rep: Replica<S, E>, pid: nat)
    requires ReplicaOk(cfg, w, p, rep) && rep.live.Some? && q in rep.live.value.sync && FrozenOk(cfg, w)
    ensures rep.saved.Some? && rep.saved.value.sync == rep.live.value.sync
    ensures var eff := SyncNextEvent(cfg, p, rep.live.value, q, pid);
            && (!eff.changed ==> eff.node == rep.live.value)
            && (eff.reply.Some? ==> q in eff.node.sync && Accounted(eff.node.sync[q], eff.reply.value))
  {
    var st := rep.live.value.sync[q];
    assert SyncOk(w, p, q, rep.saved.value.sync[q]);
    if st.pendingEvent.Some? {
      assert FrozenFrameOk(cfg, w, st.pendingEvent.value.packetId, Message(p, q, st.pendingEvent.value.packet));
    }
  }

  lemma OnlyAcksAnswer<S, L, E>(cfg: Config<S, L, E>, s: System<S, E>, p: Uid, q: Uid, now: U64, bound: bool,
        stage: Stage)
    requires Enabled(cfg, s, Deliver(p, q, now, bound, stage))
    ensures forall msg :: msg in Next(cfg, s, Deliver(p, q, now, bound, stage)).sent && msg !in s.sent ==>
              msg.frame.AckFrame?
  {
  }

  lemma StepKeepsAccounts<S, L, E>(cfg: Config<S, L, E>, s: System<S, E>, step: Step<E>)
    requires Inv(cfg, s) && Enabled(cfg, s, step) && AllAccounted(s)
    ensures AllAccounted(Next(cfg, s, step))
  {
    var s' := Next(cfg, s, step);
    forall msg | msg in s'.sent && !msg.frame.AckFrame? && msg.from in s'.replicas
      ensures var rep := s'.replicas[msg.from];
              rep.saved.Some? && msg.to in rep.saved.value.sync && Accounted(rep.saved.value.sync[msg.to], msg.frame)
    {
      if msg in s.sent {
        StepKeepsInv(cfg, s, step);
        StepAdvances(cfg, s, step, msg.from);
        AccountedAdvances(s.replicas[msg.from].saved.value.sync[msg.to],
            s'.replicas[msg.from].saved.value.sync[msg.to], msg.frame);
      } else {
        SentAccounted(cfg, s, step, s', msg);
      }
    }
  }

  lemma {:induction false} RunKeepsAccounts<S, L, E>(cfg: Config<S, L, E>, creator: Uid, journal: seq<Record<E>>,
      states: seq<System<S, E>>, steps: seq<Step<E>>, k: nat)
    requires Run(cfg, states, steps) && Init(cfg, creator, journal, states[0]) && k < |states|
    ensures AllAccounted(states[k])
  {
    if k == 0 {
      assert states[0].sent == {};
    } else {
      RunKeepsAccounts(cfg, creator, journal, states, steps, k - 1);
      RunKeepsInv(cfg, creator, journal, states, steps, k - 1);
      var s, step := states[k - 1], steps[k - 1];
      assert Enabled(cfg, s, step) && states[k] == Next(cfg, s, step);
      StepKeepsAccounts(cfg, s, step);
    }
  }

  /** Stop-and-wait: two event packets sent for one relationship and not delivered are the same packet. */
  lemma OneOutstandingEvent<S, L, E>(cfg: Config<S, L, E>, creator: Uid, journal: seq<Record<E>>,
      states: seq<System<S, E>>, steps: seq<Step<E>>, k: nat, a: Message<S, E>, b: Message<S, E>)
    requires Run(cfg, states, steps) && Init(cfg, creator, journal, states[0]) && k < |states|
    requires a in states[k].sent && b in states[k].sent && a.from == b.from && a.to == b.to
    requires a.frame.EventFrame? && b.frame.EventFrame? && a.from in states[k].replicas
    requires forall saved :: states[k].replicas[a.from].saved == Some(saved) && a.to in saved.sync ==>
               a.frame.fact.identity !in saved.sync[a.to].delivered &&
                   b.frame.fact.identity !in saved.sync[a.to].delivered
    ensures a == b
  {
    RunKeepsAccounts(cfg, creator, journal, states, steps, k);
    var saved := states[k].replicas[a.from].saved.value;
    assert Accounted(saved.sync[a.to], a.frame) && Accounted(saved.sync[a.to], b.frame);
  }
}
