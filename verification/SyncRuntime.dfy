/**
The runtime object of one replica and the packet network, as code that changes state step by step. A
handler takes the stage at which the process dies, if it does: between any two of its durable writes,
or after them and before it sends.
 */
module SyncRuntime {
  import opened Basics
  import opened EventJournal
  import opened LinkSync
  import R = Replication

  /** Packets queue per directed endpoint pair and move only when asked to. `sent` is history. */
  class MemoryNetwork<S(==), E(==)> {
    var queues: map<(Uid, Uid), seq<R.Frame<S, E>>>
    var disconnected: set<(Uid, Uid)>
    var endpoints: set<Uid>
    ghost var sent: set<R.Message<S, E>>

    constructor ()
      ensures queues == map[] && disconnected == {} && endpoints == {} && sent == {}
    {
      queues, disconnected, endpoints, sent := map[], {}, {}, {};
    }

    function Pending(from: Uid, to: Uid): seq<R.Frame<S, E>>
      reads this
    {
      if (from, to) in queues then queues[(from, to)] else []
    }

    /** What taking a packet, or none, does: a direction that is down loses it. */
    twostate predicate Took(from: Uid, to: Uid, packet: Option<R.Frame<S, E>>)
      reads this
    {
      && sent == old(sent) + (if packet.Some? then {R.Message(from, to, packet.value)} else {})
      && queues == if packet.Some? && (from, to) !in old(disconnected)
                   then old(queues)[(from, to) := old(Pending(from, to)) + [packet.value]] else old(queues)
    }

    method Enqueue(from: Uid, to: Uid, packet: R.Frame<S, E>)
      modifies this`queues, this`sent
      ensures Took(from, to, Some(packet))
    {
      sent := sent + {R.Message(from, to, packet)};
      if (from, to) in disconnected {
        return;
      }
      queues := queues[(from, to) := Pending(from, to) + [packet]];
    }

    /** Hands over the head, unless the direction is down, the queue empty, or nothing is attached there. */
    method DeliverNext(from: Uid, to: Uid) returns (delivered: Option<R.Frame<S, E>>)
      modifies this`queues
      ensures delivered.Some? <==> (from, to) !in disconnected && to in endpoints && old(Pending(from, to)) != []
      ensures delivered.Some? ==>
                delivered.value == old(Pending(from, to))[0] &&
                    queues == old(queues)[(from, to) := old(Pending(from, to))[1..]]
      ensures delivered.None? ==> queues == old(queues)
    {
      if (from, to) in disconnected || (from, to) !in queues || queues[(from, to)] == [] || to !in endpoints {
        return None;
      }
      var queue := queues[(from, to)];
      queues := queues[(from, to) := queue[1..]];
      delivered := Some(queue[0]);
    }

    method DropNext(from: Uid, to: Uid) returns (dropped: bool)
      modifies this`queues
      ensures dropped <==> old(Pending(from, to)) != []
      ensures queues == if dropped then old(queues)[(from, to) := old(Pending(from, to))[1..]] else old(queues)
    {
      if (from, to) !in queues || queues[(from, to)] == [] {
        return false;
      }
      queues := queues[(from, to) := queues[(from, to)][1..]];
      dropped := true;
    }

    method DuplicateNext(from: Uid, to: Uid) returns (duplicated: bool)
      modifies this`queues
      ensures duplicated <==> old(Pending(from, to)) != []
      ensures queues == if duplicated
                        then old(queues)[(from, to) := old(Pending(from, to)) + [old(Pending(from, to))[0]]]
                            else old(queues)
    {
      if (from, to) !in queues || queues[(from, to)] == [] {
        return false;
      }
      queues := queues[(from, to) := queues[(from, to)] + [queues[(from, to)][0]]];
      duplicated := true;
    }

    method Disconnect(from: Uid, to: Uid)
      modifies this`disconnected
      ensures disconnected == old(disconnected) + {(from, to)}
    {
      disconnected := disconnected + {(from, to)};
    }

    method Reconnect(from: Uid, to: Uid)
      modifies this`disconnected
      ensures disconnected == old(disconnected) - {(from, to)}
    {
      disconnected := disconnected - {(from, to)};
    }

    method Attach(endpoint: Uid)
      requires endpoint !in endpoints
      modifies this`endpoints
      ensures endpoints == old(endpoints) + {endpoint}
    {
      endpoints := endpoints + {endpoint};
    }

    method Detach(endpoint: Uid)
      modifies this`endpoints
      ensures endpoints == old(endpoints) - {endpoint}
    {
      endpoints := endpoints - {endpoint};
    }
  }

  class SharedSyncRuntime<S(==), L, E(==)> {
    const cfg: R.Config<S, L, E>
    const self: Uid
    const network: MemoryNetwork<S, E>
    var up: bool
    var live: Option<R.NodeState<S, E>>
    var saved: Option<R.NodeState<S, E>>
    var occupied: bool
    var referenced: bool
    var expectNode: bool
    var expecting: map<Uid, R.Expectation>

    function State(): R.Replica<S, E>
      reads this
    {
      R.Replica(up, live, saved, occupied, referenced, expectNode, expecting)
    }

    /** Between handlers the registered node differs from the saved one by unsaved commits at most. */
    ghost predicate Valid()
      reads this
    {
      && (live.Some? ==>
          up && saved.Some? && live.value.sync == saved.value.sync && live.value.base == saved.value.base)
      && (referenced ==> saved.Some?)
    }

    /** A replica without the node. */
    constructor (cfg: R.Config<S, L, E>, self: Uid, network: MemoryNetwork<S, E>)
      requires self !in network.endpoints
      modifies network`endpoints
      ensures this.cfg == cfg && this.self == self && this.network == network
      ensures Valid() && State() == R.Replica(true, None, None, false, false, false, map[])
      ensures network.endpoints == old(network.endpoints) + {self}
    {
      this.cfg, this.self, this.network := cfg, self, network;
      up, live, saved, occupied, referenced, expectNode, expecting := true, None, None, false, false, false, map[];
      new;
      network.Attach(self);
    }

    /** What a handler leaves behind: the given replica, with its reply sent. */
    twostate predicate Left(outcome: R.Outcome<S, E>, to: Uid)
      reads this, network
    {
      && State() == outcome.rep
      && network.Took(self, to, outcome.reply)
      && network.disconnected == old(network.disconnected)
      && network.endpoints == if up then old(network.endpoints) else old(network.endpoints) - {self}
    }

    // ----- process life and storage -----

    /** The process ends: what is in memory is gone, and nothing is delivered here any more. */
    method Die()
      modifies this`up, this`live, this`expectNode, this`expecting, network`endpoints
      ensures old(Valid()) ==> Valid()
      ensures State() == R.Dead(old(State())) && network.endpoints == old(network.endpoints) - {self}
    {
      up, live, expectNode, expecting := false, None, false, map[];
      network.Detach(self);
    }

    method Restart()
      requires Valid() && self !in network.endpoints
      modifies this`up, this`live, network`endpoints
      ensures Valid() && State() == old(State()).(up := true, live := None)
      ensures network.endpoints == old(network.endpoints) + {self}
    {
      up, live := true, None;
      network.Attach(self);
    }

    /** Register the node that the saved objects of the application refer to. */
    method RegisterNode()
      requires Valid() && up && live.None? && referenced
      modifies this`live
      ensures Valid() && State() == old(State()).(live := old(saved))
    {
      live := saved;
    }

    /** The application saves a reference to the node. */
    method Bind()
      requires Valid() && live.Some?
      modifies this`referenced
      ensures Valid() && State() == old(State()).(referenced := true)
    {
      referenced := true;
    }

    /** The application creates the node here and saves a reference to it. */
    method HostNode(journal: seq<Record<E>>)
      requires Valid() && up && live.None?
      modifies this`live, this`saved, this`occupied, this`referenced
      ensures Valid()
      ensures var node := Some(R.NodeState(cfg.base, journal, map q | q in cfg.endpoints :: Fresh()));
              State() == old(State()).(live := node, saved := node, occupied := true, referenced := true)
    {
      live := Some(R.NodeState(cfg.base, journal, map q | q in cfg.endpoints :: Fresh()));
      saved := live;
      occupied, referenced := true, true;
    }

    /** A record of the application's own goes into the journal; nothing is saved yet. */
    method Commit(r: Record<E>)
      requires Valid() && live.Some?
      modifies this`live
      ensures Valid()
      ensures State() == old(State()).(live := Some(old(live).value.(journal := Insert(old(live).value.journal, r))))
    {
      live := Some(live.value.(journal := Insert(live.value.journal, r)));
    }

    method Save()
      requires Valid() && live.Some?
      modifies this`saved
      ensures Valid() && State() == old(State()).(saved := old(live))
    {
      saved := live;
    }

    /** node.Save(): base and journal. */
    method SaveNode()
      requires live.Some? && saved.Some? && live.value.base == saved.value.base
      modifies this`saved
      ensures saved == Some(old(saved).value.(journal := live.value.journal))
    {
      saved := Some(saved.value.(journal := live.value.journal));
    }

    /** state.Save(): one relationship. */
    method SaveState(q: Uid)
      requires live.Some? && saved.Some? && q in live.value.sync
      modifies this`saved
      ensures saved == Some(old(saved).value.(sync := old(saved).value.sync[q := live.value.sync[q]]))
    {
      saved := Some(saved.value.(sync := saved.value.sync[q := live.value.sync[q]]));
    }

    method Send(to: Uid, frame: R.Frame<S, E>)
      modifies network`queues, network`sent
      ensures network.Took(self, to, Some(frame))
    {
      network.Enqueue(self, to, frame);
    }

    /** Nothing to save is left: send, unless the process dies first. */
    method Answer(to: Uid, reply: Option<R.Frame<S, E>>, stage: R.Stage)
      requires Valid() && up
      modifies this`up, this`live, this`expectNode, this`expecting
      modifies network`endpoints, network`queues, network`sent
      ensures Valid()
      ensures Left(if stage.Ran? then R.Outcome(old(State()), reply) else R.Outcome(R.Dead(old(State())), None), to)
    {
      if !stage.Ran? {
        Die();
        return;
      }
      if reply.Some? {
        Send(to, reply.value);
      }
    }

    /** The handler has nothing to change. */
    method Keep(to: Uid, reply: Option<R.Frame<S, E>>, stage: R.Stage)
      requires Valid() && live.Some?
      modifies this`up, this`live, this`expectNode, this`expecting
      modifies network`endpoints, network`queues, network`sent
      ensures Valid()
      ensures Left(R.Settled(old(State()), R.Effect(old(live).value, false, reply), stage), to)
    {
      Answer(to, reply, stage);
    }

    /** One relationship moves on: save node and state in turn, then send. */
    method Advance(q: Uid, e: SyncEvent<R.Frame<S, E>>, to: Uid, reply: Option<R.Frame<S, E>>, stage: R.Stage)
      requires Valid() && live.Some? && q in live.value.sync
      modifies this`up, this`live, this`saved, this`expectNode, this`expecting
      modifies network`endpoints, network`queues, network`sent
      ensures Valid()
      ensures Left(R.Settled(old(State()), R.Effect(R.WithSync(old(live).value, q, e), true, reply), stage), to)
    {
      live := Some(live.value.(sync := live.value.sync[q := ApplySync(live.value.sync[q], e)]));
      if stage.DiedBeforeSave? {
        Die();
        return;
      }
      SaveNode();
      if stage.DiedAfterNodeSave? {
        Die();
        return;
      }
      SaveState(q);
      Answer(to, reply, stage);
    }

    /** The journal grows: save the node, then send. */
    method Grow(journal: seq<Record<E>>, to: Uid, reply: Option<R.Frame<S, E>>, stage: R.Stage)
      requires Valid() && live.Some?
      modifies this`up, this`live, this`saved, this`expectNode, this`expecting
      modifies network`endpoints, network`queues, network`sent
      ensures Valid()
      ensures Left(R.Settled(old(State()), R.Effect(old(live).value.(journal := journal), true, reply), stage), to)
    {
      live := Some(live.value.(journal := journal));
      if stage.DiedBeforeSave? {
        Die();
        return;
      }
      SaveNode();
      Answer(to, reply, stage);
    }

    // ----- expectations -----

    method ExpectInitialNode()
      modifies this`expectNode
      ensures old(Valid()) ==> Valid()
      ensures State() == old(State()).(expectNode := true)
    {
      expectNode := true;
    }

    method ExpectInitialNodeFromEndpoint(source: Uid, classId: nat, nodeId: nat)
      modifies this`expecting
      ensures old(Valid()) ==> Valid()
      ensures State() == old(State()).(expecting := R.Expecting(old(expecting), source, classId, nodeId))
      ensures source == "" || classId == 0 ==> expecting == old(expecting)
      ensures source != "" && classId != 0 ==>
                source in expecting && expecting[source] == R.Expectation(classId, nodeId)
                && forall q :: q != source ==>
                    (q in expecting <==> q in old(expecting)) && (q in expecting ==> expecting[q] == old(expecting)[q])
    {
      if source == "" || classId == 0 {
        return;
      }
      expecting := expecting[source := R.Expectation(classId, nodeId)];
    }

    method ForgetInitialNodeFromEndpoint(source: Uid)
      modifies this`expecting
      ensures old(Valid()) ==> Valid()
      ensures State() == old(State()).(expecting := old(expecting) - if source == "" then {} else {source})
    {
      if source == "" {
        return;
      }
      expecting := expecting - {source};
    }

    /** A step of the process itself. */
    method Act(step: R.Step<E>)
      requires Valid() && R.OwnEnabled(State(), step)
      requires step.Restart? ==> self !in network.endpoints
      modifies this, network`endpoints
      ensures Valid() && State() == R.OwnStep(old(State()), step)
      ensures up == (step.Restart? || (old(up) && !step.Crash?))
      ensures network.endpoints == if step.Restart? then old(network.endpoints) + {self}
                                   else if step.Crash? then old(network.endpoints) - {self} else old(network.endpoints)
    {
      hide R.Expecting;
      match step {
        case Save(_) => Save();
        case Crash(_) => Die();
        case Restart(_) => Restart();
        case Register(_) => RegisterNode();
        case Bind(_) => Bind();
        case ExpectInitialNode(_) => ExpectInitialNode();
        case ExpectFrom(_, q, classId, nodeId) => ExpectInitialNodeFromEndpoint(q, classId, nodeId);
        case ForgetFrom(_, q) => ForgetInitialNodeFromEndpoint(q);
        case _ =>
      }
    }

    // ----- scans -----

    /** Scan of the journal for the first record still owed to the destination. */
    method NextUndeliveredSharedEvent(journal: seq<Record<E>>, st: R.Sync<S, E>, destination: Uid)
          returns (next: Option<Record<E>>)
      ensures next == R.NextUndelivered(journal, st, destination)
    {
      var i := 0;
      assert journal[0..] == journal;
      while i < |journal|
        invariant 0 <= i <= |journal|
        invariant R.NextUndelivered(journal, st, destination) == R.NextUndelivered(journal[i..], st, destination)
      {
        assert journal[i..][1..] == journal[i + 1..];
        if R.Skipped(journal[i], st, destination) {
          i := i + 1;
          continue;
        }
        return Some(journal[i]);
      }
      next := None;
    }

    /** Identities inside the snapshot that is being frozen or was received. */
    method CoveredEventIds(journal: seq<Record<E>>) returns (ids: seq<SharedEventId>)
      ensures ids == R.IdentitySeq(journal)
    {
      ids := [];
      assert journal[..0] == [];
      for i := 0 to |journal|
        invariant ids == R.IdentitySeq(journal[..i])
      {
        assert journal[..i + 1][..i] == journal[..i];
        if journal[i].identity.IsShared() {
          ids := ids + [journal[i].identity];
        }
      }
      assert journal[..|journal|] == journal;
    }

    // ----- handlers -----

    method SyncInitialState(q: Uid, packetId: nat, stage: R.Stage)
      requires Valid() && live.Some? && q in live.value.sync
      modifies this`up, this`live, this`saved, this`expectNode, this`expecting
      modifies network`endpoints, network`queues, network`sent
      ensures Valid()
      ensures Left(R.Settled(old(State()), R.SyncInitialState(old(live).value, q, packetId), stage), q)
    {
      var node := live.value;
      var st := node.sync[q];
      match st.phase {
        case Complete =>
          Keep(q, None, stage);
          return;
        case Pending =>
          // The frozen packet, never one rebuilt from the node as it is now.
          Keep(q, if st.pendingInitial.Some? then Some(st.pendingInitial.value.packet) else None, stage);
          return;
        case NotStarted =>
      }
      var frame := R.NodeStateFrame(packetId, q, node.base, node.journal);
      var covered := CoveredEventIds(node.journal);
      Advance(q, BeginInitialSync(packetId, frame, covered), q, Some(frame), stage);
    }

    method SyncNextEvent(q: Uid, packetId: nat, stage: R.Stage)
      requires Valid() && live.Some? && q in live.value.sync
      modifies this`up, this`live, this`saved, this`expectNode, this`expecting
      modifies network`endpoints, network`queues, network`sent
      ensures Valid()
      ensures Left(R.Settled(old(State()), R.SyncNextEvent(cfg, self, old(live).value, q, packetId), stage), q)
    {
      var node := live.value;
      var st := node.sync[q];
      if !st.phase.Complete? {
        Keep(q, None, stage);
        return;
      }
      if st.pendingEvent.Some? {
        Keep(q, Some(st.pendingEvent.value.packet), stage);
        return;
      }
      var next := NextUndeliveredSharedEvent(node.journal, st, q);
      if next.None? || !cfg.allows(self, next.value.event) || !cfg.freezable(next.value.event) {
        Keep(q, None, stage);
        return;
      }
      var frame := R.EventFrame(packetId, q, FactOf(next.value));
      Advance(q, BeginIncrementalEvent(packetId, next.value.identity, frame), q, Some(frame), stage);
    }

    method OnAck(source: Uid, packetId: nat, share: Uid, stage: R.Stage)
      requires Valid() && live.Some?
      modifies this`up, this`live, this`saved, this`expectNode, this`expecting
      modifies network`endpoints, network`queues, network`sent
      ensures Valid()
      ensures Left(R.Settled(old(State()), R.OnAck(old(live).value, source, packetId, share), stage), source)
    {
      hide Left;
      var node := live.value;
      if share !in node.sync || share != source {
        Keep(source, None, stage);
        return;
      }
      var st := node.sync[share];
      if st.phase.Pending? && st.pendingInitial.Some? && st.pendingInitial.value.packetId == packetId {
        Advance(share, CompleteInitialSync, source, None, stage);
        return;
      }
      if st.phase.Complete? && st.pendingEvent.Some? && st.pendingEvent.value.packetId == packetId {
        Advance(share, CompleteIncrementalEvent, source, None, stage);
        return;
      }
      Keep(source, None, stage);
    }

    method OnEvent(source: Uid, packetId: nat, share: Uid, fact: Fact<E>, now: U64, stage: R.Stage)
      requires Valid() && live.Some?
      modifies this`up, this`live, this`saved, this`expectNode, this`expecting
      modifies network`endpoints, network`queues, network`sent
      ensures Valid()
      ensures Left(R.Settled(old(State()), R.OnEvent(cfg, self, old(live).value, source, packetId, share, fact, now),
                stage), source)
    {
      hide Left;
      var node := live.value;
      var ack := R.AckFrame(packetId, share);
      if !R.Addressed(cfg, self, source, share) || !cfg.writable(self, source) || !cfg.allows(self, fact.event) {
        Keep(source, None, stage);
        return;
      }
      if fact.identity in Identities(node.journal) {
        Keep(source, if fact in Facts(node.journal) then Some(ack) else None, stage);
        return;
      }
      // Preflight in a scratch copy: the whole journal must replay with the event in place.
      var record := R.RecordOf(fact, now);
      if !fact.identity.IsShared() || !cfg.model.matches(fact.event, fact.identity, fact.timestampUs)
         || !Accepts(cfg.model, node.base, node.journal, record) {
        Keep(source, None, stage);
        return;
      }
      Grow(Insert(node.journal, record), source, Some(ack), stage);
    }

    /** The node an admitted snapshot becomes: own sync states, the source's marked complete. */
    method ImportedNode(source: Uid, frame: R.Frame<S, E>) returns (node: R.NodeState<S, E>)
      requires frame.NodeStateFrame?
      ensures node == R.Imported(cfg, self, source, frame.packetId, frame.base, frame.journal)
    {
      var covered := CoveredEventIds(frame.journal);
      var sync: map<Uid, R.Sync<S, E>> := map q | q in cfg.endpoints :: Fresh();
      sync := sync[source := ApplySync(Fresh(), CompleteFromReceivedSnapshot(covered))];
      sync := sync[self := ApplySync(Fresh(), NoteInitialSyncReceived(frame.packetId))];
      node := R.NodeState(frame.base, frame.journal, sync);
    }

    /** `bound` is the answer of the application's binding callback, asked only while an expectation is open. */
    method IntroduceNode(source: Uid, ack: R.Frame<S, E>, bound: bool, stage: R.Stage)
      requires Valid() && live.Some?
      modifies this`up, this`live, this`referenced, this`expectNode, this`expecting
      modifies network`endpoints, network`queues, network`sent
      ensures Valid()
      ensures Left(R.Introduce(old(State()), source, ack, bound, stage), source)
    {
      if source in expecting && !bound {
        Answer(source, None, stage);
        return;
      }
      if stage.DiedBeforeSave? || stage.DiedAfterNodeSave? || stage.DiedAfterStateSave? {
        Die();
        return;
      }
      if source in expecting {
        referenced := true;
        expecting := expecting - {source};
      }
      Answer(source, Some(ack), stage);
    }

    /** The stored objects come first; then the replica's own sync states; then registration and binding. */
    method StoreNode(node: R.NodeState<S, E>, source: Uid, ack: R.Frame<S, E>, bound: bool, stage: R.Stage)
      requires Valid() && up && live.None?
      modifies this, network`endpoints, network`queues, network`sent
      ensures Valid()
      ensures Left(R.StoreImported(old(State()), node, source, ack, bound, stage), source)
    {
      occupied := true;
      if stage.DiedBeforeSave? || stage.DiedAfterNodeSave? {
        Die();
        return;
      }
      saved := Some(node);
      if stage.DiedAfterStateSave? {
        Die();
        return;
      }
      live := saved;
      IntroduceNode(source, ack, bound, stage);
    }

    /** A snapshot of a node this replica does not have. */
    method ImportNode(source: Uid, frame: R.Frame<S, E>, bound: bool, stage: R.Stage)
      requires Valid() && up && live.None? && frame.NodeStateFrame?
      modifies this, network`endpoints, network`queues, network`sent
      ensures Valid()
      ensures Left(R.OnNodeStateNew(cfg, self, old(State()), source, frame, bound, stage), source)
    {
      hide R.StoreImported, R.Imported, R.Awaits, R.SnapshotAdmissible;
      if !R.Awaits(cfg, State(), source) || occupied
         || !R.SnapshotAdmissible(cfg, self, source, frame.share, frame.base, frame.journal) {
        return;
      }
      var node := ImportedNode(source, frame);
      StoreNode(node, source, R.AckFrame(frame.packetId, frame.share), bound, stage);
    }

    /** A snapshot of the node this replica has: only a repeat of the recorded one is acknowledged. */
    method OnRepeat(source: Uid, packetId: nat, share: Uid, bound: bool, stage: R.Stage)
      requires Valid() && live.Some?
      modifies this, network`endpoints, network`queues, network`sent
      ensures Valid()
      ensures Left(R.OnNodeStateAgain(cfg, self, old(State()), source, packetId, share, bound, stage), source)
    {
      hide Left;
      if !R.RecordedHere(cfg, self, live.value, source, packetId, share) {
        Keep(source, None, stage);
        return;
      }
      IntroduceNode(source, R.AckFrame(packetId, share), bound, stage);
    }

    method OnBytes(source: Uid, frame: R.Frame<S, E>, now: U64, bound: bool, stage: R.Stage)
      requires Valid() && up
      modifies this, network`endpoints, network`queues, network`sent
      ensures Valid()
      ensures Left(R.OnFrame(cfg, self, old(State()), source, frame, now, bound, stage), source)
    {
      hide R.OnNodeStateNew, R.OnNodeStateAgain, R.OnAck, R.OnEvent, R.Settled;
      match frame {
        case AckFrame(packetId, share) =>
          if live.Some? {
            OnAck(source, packetId, share, stage);
          }
        case EventFrame(packetId, share, fact) =>
          if live.Some? {
            OnEvent(source, packetId, share, fact, now, stage);
          }
        case NodeStateFrame(packetId, share, _, _) =>
          if live.None? {
            ImportNode(source, frame, bound, stage);
          } else {
            OnRepeat(source, packetId, share, bound, stage);
          }
      }
    }
  }
}
