/** Where the shared events in a replica's journal come from. */
module Provenance {
  import opened Basics
  import opened EventJournal
  import opened LinkSync
  import opened Replication
  import opened ReplicationInvariant
  import opened HandlerLaws

  /** The replica has the event in memory or in storage. */
  ghost predicate Holds<S, E>(rep: Replica<S, E>, id: SharedEventId) {
    || (rep.live.Some? && id in Identities(rep.live.value.journal))
    || (rep.saved.Some? && id in Identities(rep.saved.value.journal))
  }

  /**
  The step gives `q` the event: its own commit, an event frame of an allowed class from a participant with write
  access, or a snapshot that is expected.
   */
  ghost predicate Brings<S, L, E>(cfg: Config<S, L, E>, s: System<S, E>, step: Step<E>, q: Uid, id: SharedEventId) {
    match step
    case CommitShared(p, event, sequence, _, _) => p == q && id == SharedEventId(p, sequence) && cfg.shareable(event)
    case Deliver(p, r, _, _, _) =>
      && r == q && q in s.replicas && Queued(s, p, q)
      && var frame := s.queues[(p, q)][0];
         || (frame.EventFrame? && frame.fact.identity == id && Welcome(cfg, p, q, frame))
         || (frame.NodeStateFrame? && id in Identities(frame.journal) && p != q && frame.share == q
             && Invited(cfg, s.replicas[q], p) && !s.replicas[q].occupied)
    case _ => false
  }

  /** No other step does. */
  lemma StepBrings<S, L, E>(cfg: Config<S, L, E>, s: System<S, E>, step: Step<E>, q: Uid, id: SharedEventId)
    requires Enabled(cfg, s, step) && q in s.replicas && !Holds(s.replicas[q], id)
    requires q in Next(cfg, s, step).replicas && Holds(Next(cfg, s, step).replicas[q], id)
    ensures Brings(cfg, s, step, q, id)
  {
    hide Accepts, Insert, Identities, Drive, Settled, OnFrame, CommitAt, Welcome, Invited, OwnEnabled;
    match step {
      case CommitShared(p, event, sequence, ts, now) =>
        CommitBrings(s, p, Record(event, SharedEventId(p, sequence), ts, now), q, id);
      case CommitLocal(p, event, ts, now) => CommitBrings(s, p, Record(event, NO_IDENTITY, ts, now), q, id);
      case Deliver(p, r, now, bound, stage) =>
        if r == q {
          DeliveryBrings(cfg, s, p, q, now, bound, stage, id);
        }
      case SendInitial(p, r, pid, stage) =>
        SendingKeepsJournal(cfg, p, s.replicas[p].live.value, r, pid);
        DriveBringsNothing(s, p, r, SyncInitialState(s.replicas[p].live.value, r, pid), pid, stage, q, id);
      case SendNext(p, r, pid, stage) =>
        SendingKeepsJournal(cfg, p, s.replicas[p].live.value, r, pid);
        DriveBringsNothing(s, p, r, SyncNextEvent(cfg, p, s.replicas[p].live.value, r, pid), pid, stage, q, id);
      case _ =>
    }
  }

  lemma DeliveryBrings<S, L, E>(cfg: Config<S, L, E>, s: System<S, E>, p: Uid, q: Uid, now: U64, bound: bool,
      stage: Stage, id: SharedEventId)
    requires Enabled(cfg, s, Deliver(p, q, now, bound, stage)) && !Holds(s.replicas[q], id)
    requires var s' := Next(cfg, s, Deliver(p, q, now, bound, stage)); q in s'.replicas && Holds(s'.replicas[q], id)
    ensures Brings(cfg, s, Deliver(p, q, now, bound, stage), q, id)
  {
    hide Accepts, Insert, Identities, OnFrame, Welcome, Invited;
    FrameBrings(cfg, s.replicas[q], p, q, s.queues[(p, q)][0], now, bound, stage, id);
  }

  lemma CommitBrings<S, E>(s: System<S, E>, p: Uid, r: Record<E>, q: Uid, id: SharedEventId)
    requires HasLive(s, p) && q in s.replicas && !Holds(s.replicas[q], id) && Holds(CommitAt(s, p, r).replicas[q], id)
    ensures p == q && id == r.identity && id.IsShared()
  {
    hide Insert, Identities;
    if p == q {
      InsertIdentities(s.replicas[p].live.value.journal, r);
      SharedOnly(Insert(s.replicas[p].live.value.journal, r));
    }
  }

  lemma DriveBringsNothing<S, E>(s: System<S, E>, p: Uid, r: Uid, eff: Effect<S, E>, pid: nat, stage: Stage, q: Uid,
      id: SharedEventId)
    requires HasLive(s, p) && eff.node.journal == s.replicas[p].live.value.journal
    requires q in s.replicas
    ensures Holds(Drive(s, p, r, eff, pid, stage).replicas[q], id) ==> Holds(s.replicas[q], id)
  {
    hide Identities, Settled;
    if Holds(Settled(s.replicas[p], eff, stage).rep, id) && !Holds(s.replicas[p], id) {
      SettledBrings(s.replicas[p], eff, stage, id);
    }
  }

  lemma SendingKeepsJournal<S, L, E>(cfg: Config<S, L, E>, p: Uid, node: NodeState<S, E>, q: Uid, pid: nat)
    requires q in node.sync
    ensures SyncInitialState(node, q, pid).node.journal == node.journal
    ensures SyncNextEvent(cfg, p, node, q, pid).node.journal == node.journal
  {
  }

  /** A handler brings only what is in the journal it leaves. */
  lemma SettledBrings<S, E>(rep: Replica<S, E>, eff: Effect<S, E>, stage: Stage, id: SharedEventId)
    requires rep.live.Some? && !Holds(rep, id) && Holds(Settled(rep, eff, stage).rep, id)
    ensures id in Identities(eff.node.journal)
  {
    hide Identities;
  }

  lemma SharedOnly<E>(journal: seq<Record<E>>)
    ensures forall id :: id in Identities(journal) ==> id.originUid != ""
  {
  }

  lemma FrameBrings<S, L, E>(cfg: Config<S, L, E>, rep: Replica<S, E>, p: Uid, q: Uid, frame: Frame<S, E>,
      now: U64, bound: bool, stage: Stage, id: SharedEventId)
    requires !Holds(rep, id) && Holds(OnFrame(cfg, q, rep, p, frame, now, bound, stage).rep, id)
    ensures || (frame.EventFrame? && frame.fact.identity == id && Welcome(cfg, p, q, frame))
            || (frame.NodeStateFrame? && id in Identities(frame.journal) && p != q && frame.share == q
                && Invited(cfg, rep, p) && !rep.occupied)
  {
    hide Accepts, Insert, Identities, Admissible, Settled, OnAck, OnEvent;
    if rep.live.Some? && frame.EventFrame? {
      var eff := OnEvent(cfg, q, rep.live.value, p, frame.packetId, frame.share, frame.fact, now);
      SettledBrings(rep, eff, stage, id);
      EventBrings(cfg, rep.live.value, p, q, frame, now, id);
    } else if rep.live.Some? && frame.AckFrame? {
      SettledBrings(rep, OnAck(rep.live.value, p, frame.packetId, frame.share), stage, id);
      AckKeepsJournal(rep.live.value, p, frame.packetId, frame.share);
    }
  }

  lemma EventBrings<S, L, E>(cfg: Config<S, L, E>, node: NodeState<S, E>, p: Uid, q: Uid, frame: Frame<S, E>, now: U64,
      id: SharedEventId)
    requires frame.EventFrame? && id !in Identities(node.journal)
    requires id in Identities(OnEvent(cfg, q, node, p, frame.packetId, frame.share, frame.fact, now).node.journal)
    ensures frame.fact.identity == id && Welcome(cfg, p, q, frame)
  {
    hide Accepts, Insert, Identities, Facts;
    InsertIdentities(node.journal, RecordOf(frame.fact, now));
  }

  lemma AckKeepsJournal<S, E>(node: NodeState<S, E>, p: Uid, pid: nat, share: Uid)
    ensures OnAck(node, p, pid, share).node.journal == node.journal
  {
  }

  /**
  In every run, a shared event of another origin is in a replica's journal only because an event frame of an
  allowed class came from a participant with write access, or a snapshot that had it was expected.
   */
  lemma {:induction false} EventsWereBrought<S, L, E>(cfg: Config<S, L, E>, creator: Uid, journal: seq<Record<E>>,
      states: seq<System<S, E>>, steps: seq<Step<E>>, k: nat, q: Uid, id: SharedEventId)
    requires Run(cfg, states, steps) && Init(cfg, creator, journal, states[0]) && k < |states|
    requires q in cfg.endpoints && q in states[k].replicas && Holds(states[k].replicas[q], id)
    ensures exists j :: 0 <= j < k && Brings(cfg, states[j], steps[j], q, id)
    ensures id.originUid != q ==> exists j :: 0 <= j < k && steps[j].Deliver? && Brings(cfg, states[j], steps[j], q, id)
  {
    hide Next, Enabled, Brings, Holds;
    if k == 0 {
      NothingAtFirst(cfg, creator, journal, states[0], q, id);
      assert false;
    } else {
      ReplicasStay(cfg, states[k - 1], steps[k - 1]);
      if Holds(states[k - 1].replicas[q], id) {
        EventsWereBrought(cfg, creator, journal, states, steps, k - 1, q, id);
      } else {
        StepBrings(cfg, states[k - 1], steps[k - 1], q, id);
        BroughtByDelivery(cfg, states[k - 1], steps[k - 1], q, id);
      }
    }
  }

  lemma BroughtByDelivery<S, L, E>(cfg: Config<S, L, E>, s: System<S, E>, step: Step<E>, q: Uid, id: SharedEventId)
    requires Brings(cfg, s, step, q, id)
    ensures id.originUid != q ==> step.Deliver?
  {
  }

  lemma NothingAtFirst<S, L, E>(cfg: Config<S, L, E>, creator: Uid, journal: seq<Record<E>>, s: System<S, E>, q: Uid,
        id: SharedEventId)
    requires Init(cfg, creator, journal, s) && q in s.replicas
    ensures !Holds(s.replicas[q], id)
  {
  }

  lemma ReplicasStay<S, L, E>(cfg: Config<S, L, E>, s: System<S, E>, step: Step<E>)
    requires Enabled(cfg, s, step)
    ensures Next(cfg, s, step).replicas.Keys == s.replicas.Keys
  {
    hide Accepts, Insert, SyncInitialState, SyncNextEvent, OnFrame, OwnStep;
  }
}
