/**
Replication of one shared node among any number of replicas. Each replica runs a SharedSyncRuntime,
the network loses, duplicates and delays packets, directions go down, and a replica can die between
any two durable writes of a handler. A relationship (Share) is named by the endpoint it leads to.
 */
module Replication {
  import opened Basics
  import opened EventJournal
  import opened LinkSync

  datatype Frame<+S, +E> =
    | NodeStateFrame(packetId: nat, share: Uid, base: S, journal: seq<Record<E>>)
    | AckFrame(packetId: nat, share: Uid)
    | EventFrame(packetId: nat, share: Uid, fact: Fact<E>)

  type Sync<+S, +E> = SyncState<Frame<S, E>>

  /** One replica's copy of the node: base snapshot, journal, and sync state per relationship. */
  datatype NodeState<+S, +E> = NodeState(base: S, journal: seq<Record<E>>, sync: map<Uid, Sync<S, E>>)

  /**
  What a run does not change. `shareable` is the class of events that are committed with an identity;
  `allows` is a replica's list of event classes permitted for standalone sync, `freezable` says an event
  reaches no other network object, `writable(p, q)` that q's Share has ReadWrite access in p's topology.
   */
  datatype Config<!S, !L, !E> = Config(
    model: Model<S, L, E>,
    base: S,
    nodeId: nat,
    nodeClass: nat,
    endpoints: set<Uid>,
    shareable: E -> bool,
    allows: (Uid, E) -> bool,
    freezable: E -> bool,
    writable: (Uid, Uid) -> bool)

  /** What a handler did: the node it leaves, whether it saves it, and the frame it then sends. */
  datatype Effect<+S, +E> = Effect(node: NodeState<S, E>, changed: bool, reply: Option<Frame<S, E>>)

  // ----- sending side -----

  predicate Skipped<S, E>(r: Record<E>, st: Sync<S, E>, destination: Uid) {
    || !r.identity.IsShared()
    || r.identity in st.delivered
    || (st.pendingEvent.Some? && st.pendingEvent.value.identity == r.identity)
    || r.identity.originUid == destination
  }

  /** First journal record the relationship still owes its destination. */
  function NextUndelivered<S, E>(journal: seq<Record<E>>, st: Sync<S, E>, destination: Uid): (r: Option<Record<E>>)
    ensures r.None? <==> forall i :: 0 <= i < |journal| ==> Skipped(journal[i], st, destination)
    ensures r.Some? ==> exists i :: 0 <= i < |journal| && journal[i] == r.value && !Skipped(journal[i], st, destination)
                                    && forall k :: 0 <= k < i ==> Skipped(journal[k], st, destination)
  {
    if journal == [] then None
    else if Skipped(journal[0], st, destination) then
      var rest := NextUndelivered(journal[1..], st, destination);
      assert forall i :: 1 <= i < |journal| ==> journal[i] == journal[1..][i - 1];
      rest
    else Some(journal[0])
  }

  function IdentitySeq<E>(journal: seq<Record<E>>): (ids: seq<SharedEventId>)
    ensures forall id :: id in ids <==> id in Identities(journal)
  {
    if journal == [] then []
    else
      var n := |journal| - 1;
      var ids := IdentitySeq(journal[..n]);
      assert forall i :: 0 <= i < n ==> journal[i] == journal[..n][i];
      if journal[n].identity.IsShared() then ids + [journal[n].identity] else ids
  }

  function WithSync<S, E>(node: NodeState<S, E>, q: Uid, e: SyncEvent<Frame<S, E>>): NodeState<S, E>
    requires q in node.sync
  {
    node.(sync := node.sync[q := ApplySync(node.sync[q], e)])
  }

  /** Start, retry or skip the initial snapshot for the relationship with `q`. */
  function SyncInitialState<S, E>(node: NodeState<S, E>, q: Uid, packetId: nat): Effect<S, E>
    requires q in node.sync
  {
    var st := node.sync[q];
    match st.phase
    case Complete => Effect(node, false, None)
    case Pending =>
      if st.pendingInitial.Some? then Effect(node, false, Some(st.pendingInitial.value.packet))
      else Effect(node, false, None)
    case NotStarted =>
      var frame := NodeStateFrame(packetId, q, node.base, node.journal);
      Effect(WithSync(node, q, BeginInitialSync(packetId, frame, IdentitySeq(node.journal))), true, Some(frame))
  }

  /** Resend the outstanding event packet, or freeze and send the next undelivered event. */
  function SyncNextEvent<S, L, E>(cfg: Config<S, L, E>, self: Uid, node: NodeState<S, E>, q: Uid,
        packetId: nat): Effect<S, E>
    requires q in node.sync
  {
    var st := node.sync[q];
    if !st.phase.Complete? then Effect(node, false, None)
    else if st.pendingEvent.Some? then Effect(node, false, Some(st.pendingEvent.value.packet))
    else
      var next := NextUndelivered(node.journal, st, q);
      if next.None? || !cfg.allows(self, next.value.event) ||
          !cfg.freezable(next.value.event) then Effect(node, false, None)
      else
        var frame := EventFrame(packetId, q, FactOf(next.value));
        Effect(WithSync(node, q, BeginIncrementalEvent(packetId, next.value.identity, frame)), true, Some(frame))
  }

  // ----- receiving side -----

  /** The relationship named in the frame ends here and the sender is another endpoint of the topology. */
  predicate Addressed<S, L, E>(cfg: Config<S, L, E>, self: Uid, source: Uid, share: Uid) {
    source != self && share == self && self in cfg.endpoints && source in cfg.endpoints
  }

  function OnAck<S, E>(node: NodeState<S, E>, source: Uid, packetId: nat, share: Uid): Effect<S, E> {
    if share !in node.sync || share != source then Effect(node, false, None)
    else
      var st := node.sync[share];
      if st.phase.Pending? && st.pendingInitial.Some? && st.pendingInitial.value.packetId == packetId then
        Effect(WithSync(node, share, CompleteInitialSync), true, None)
      else if st.phase.Complete? && st.pendingEvent.Some? && st.pendingEvent.value.packetId == packetId then
        Effect(WithSync(node, share, CompleteIncrementalEvent), true, None)
      else Effect(node, false, None)
  }

  function RecordOf<E>(f: Fact<E>, now: U64): Record<E> {
    Record(f.event, f.identity, f.timestampUs, now)
  }

  function OnEvent<S, L, E(==)>(cfg: Config<S, L, E>, self: Uid, node: NodeState<S, E>, source: Uid,
      packetId: nat, share: Uid, fact: Fact<E>, now: U64): Effect<S, E>
  {
    var ack := Some(AckFrame(packetId, share));
    if !Addressed(cfg, self, source, share) || !cfg.writable(self, source) || !cfg.allows(self, fact.event) then
      Effect(node, false, None)
    else if fact.identity in Identities(node.journal) then
      if fact in Facts(node.journal) then Effect(node, false, ack) else Effect(node, false, None)
    else if !fact.identity.IsShared() || !cfg.model.matches(fact.event, fact.identity, fact.timestampUs)
            || !Accepts(cfg.model, node.base, node.journal, RecordOf(fact, now)) then
      Effect(node, false, None)
    else
      Effect(node.(journal := Insert(node.journal, RecordOf(fact, now))), true, ack)
  }

  /** The frame repeats the snapshot this replica's node was made from. */
  predicate RecordedHere<S, L, E>(cfg: Config<S, L, E>, self: Uid, node: NodeState<S, E>, source: Uid, packetId: nat,
        share: Uid) {
    Addressed(cfg, self, source, share) && self in node.sync && node.sync[self].receivedInitial == Some(packetId)
  }

  /** Admission of an untrusted snapshot for a node this replica does not have. */
  predicate SnapshotAdmissible<S, L, E>(cfg: Config<S, L, E>, self: Uid, source: Uid, share: Uid, base: S,
        journal: seq<Record<E>>) {
    && Addressed(cfg, self, source, share)
    && (forall i :: 0 <= i < |journal| ==> 0 < journal[i].timestampUs)
    && Admissible(cfg.model, base, journal)
  }

  /** The node an admitted snapshot becomes: own sync states, the source's marked complete. */
  function Imported<S, L, E>(cfg: Config<S, L, E>, self: Uid, source: Uid, packetId: nat, base: S,
        journal: seq<Record<E>>): NodeState<S, E> {
    var unstarted: map<Uid, Sync<S, E>> := map q | q in cfg.endpoints :: Fresh();
    var fromSource: Sync<S, E> := ApplySync(Fresh(), CompleteFromReceivedSnapshot(IdentitySeq(journal)));
    var own: Sync<S, E> := ApplySync(Fresh(), NoteInitialSyncReceived(packetId));
    NodeState(base, journal, unstarted[source := fromSource][self := own])
  }

  // ----- the system -----

  /** What an endpoint may introduce: a root of this class and, unless 0, with this id. */
  datatype Expectation = Expectation(classId: nat, nodeId: nat)

  /**
  `live` is the node registered in memory, `saved` the one in storage, `occupied` whether storage holds
  any object of the node, `referenced` whether the application's own saved objects refer to it, which is
  how a restart finds it. `expectNode` and `expecting` are bootstrap permissions, kept in memory.
   */
  datatype Replica<+S, +E> = Replica(
    up: bool,
    live: Option<NodeState<S, E>>,
    saved: Option<NodeState<S, E>>,
    occupied: bool,
    referenced: bool,
    expectNode: bool,
    expecting: map<Uid, Expectation>)

  datatype Message<+S, +E> = Message(from: Uid, to: Uid, frame: Frame<S, E>)

  /**
  The last three components are history: every message ever sent, every packet ever frozen by the id
  it was given, and every shared event ever issued.
   */
  datatype System<!S(==), !E(==)> = System(
    replicas: map<Uid, Replica<S, E>>,
    queues: map<(Uid, Uid), seq<Frame<S, E>>>,
    disconnected: set<(Uid, Uid)>,
    sent: set<Message<S, E>>,
    frozen: map<nat, Message<S, E>>,
    issued: map<SharedEventId, Fact<E>>)

  /** How far a handler got: to the end, or dead at one of its persist points. */
  datatype Stage = Ran | DiedBeforeSave | DiedAfterNodeSave | DiedAfterStateSave | DiedAfterBinding

  /** The replica a handler leaves and the frame it sends. */
  datatype Outcome<+S, +E> = Outcome(rep: Replica<S, E>, reply: Option<Frame<S, E>>)

  function Dead<S, E>(rep: Replica<S, E>): Replica<S, E> {
    rep.(up := false, live := None, expectNode := false, expecting := map[])
  }

  function Settle<S, E>(rep: Replica<S, E>, eff: Effect<S, E>, stage: Stage): Replica<S, E> {
    if !eff.changed then (if stage.Ran? then rep else Dead(rep))
    else
      match stage
      case Ran => rep.(live := Some(eff.node), saved := Some(eff.node))
      case DiedBeforeSave => Dead(rep)
      case DiedAfterNodeSave =>
        Dead(rep.(saved := if rep.saved.Some? then Some(rep.saved.value.(journal := eff.node.journal)) else None))
      case _ => Dead(rep.(saved := Some(eff.node)))
  }

  function Settled<S, E>(rep: Replica<S, E>, eff: Effect<S, E>, stage: Stage): Outcome<S, E> {
    Outcome(Settle(rep, eff, stage), if stage.Ran? then eff.reply else None)
  }

  /** MemoryNetwork::Enqueue: a send into a direction that is down is lost. */
  function Enqueue<S(==), E(==)>(s: System<S, E>, from: Uid, to: Uid, frame: Frame<S, E>): System<S, E> {
    var queued := if (from, to) in s.queues then s.queues[(from, to)] else [];
    s.(sent := s.sent + {Message(from, to, frame)},
       queues := if (from, to) in s.disconnected then s.queues else s.queues[(from, to) := queued + [frame]])
  }

  /** The handler's replica is in place and what it sends is on its way. */
  function Post<S(==), E(==)>(s: System<S, E>, from: Uid, to: Uid, outcome: Outcome<S, E>): System<S, E> {
    var s' := s.(replicas := s.replicas[from := outcome.rep]);
    if outcome.reply.Some? then Enqueue(s', from, to, outcome.reply.value) else s'
  }

  datatype Step<+E> =
    | CommitShared(p: Uid, event: E, sequence: nat, timestampUs: U64, now: U64)
    | CommitLocal(p: Uid, event: E, timestampUs: U64, now: U64)
    | Save(p: Uid)
    | SendInitial(p: Uid, q: Uid, packetId: nat, stage: Stage)
    | SendNext(p: Uid, q: Uid, packetId: nat, stage: Stage)
    | Deliver(p: Uid, q: Uid, now: U64, bound: bool, stage: Stage)
    | DropHead(p: Uid, q: Uid)
    | DuplicateHead(p: Uid, q: Uid)
    | Disconnect(p: Uid, q: Uid)
    | Reconnect(p: Uid, q: Uid)
    | Crash(p: Uid)
    | Restart(p: Uid)
    | Register(p: Uid)
    | Bind(p: Uid)
    | ExpectInitialNode(p: Uid)
    | ExpectFrom(p: Uid, q: Uid, classId: nat, nodeId: nat)
    | ForgetFrom(p: Uid, q: Uid)

  predicate HasLive<S(==), E(==)>(s: System<S, E>, p: Uid) {
    p in s.replicas && s.replicas[p].live.Some?
  }

  predicate Queued<S(==), E(==)>(s: System<S, E>, p: Uid, q: Uid) {
    (p, q) in s.queues && s.queues[(p, q)] != []
  }

  /** ExpectInitialNodeFromEndpoint: no endpoint and no class are no expectation; a new one replaces the old. */
  function Expecting(expecting: map<Uid, Expectation>, source: Uid, classId: nat, nodeId: nat): map<Uid, Expectation> {
    if source == "" || classId == 0 then expecting else expecting[source := Expectation(classId, nodeId)]
  }

  /** A replica's own steps: what its process does besides committing and exchanging packets. */
  predicate OwnEnabled<S, E>(rep: Replica<S, E>, step: Step<E>) {
    match step
    case Save(_) => rep.live.Some?
    case Crash(_) => true
    case Restart(_) => !rep.up
    case Register(_) => rep.up && rep.live.None? && rep.referenced
    case Bind(_) => rep.live.Some?
    case _ => rep.up
  }

  function OwnStep<S, E>(rep: Replica<S, E>, step: Step<E>): Replica<S, E> {
    match step
    case Save(_) => rep.(saved := rep.live)
    case Crash(_) => Dead(rep)
    case Restart(_) => rep.(up := true, live := None)
    case Register(_) => rep.(live := rep.saved)
    case Bind(_) => rep.(referenced := true)
    case ExpectInitialNode(_) => rep.(expectNode := true)
    case ExpectFrom(_, q, classId, nodeId) => rep.(expecting := Expecting(rep.expecting, q, classId, nodeId))
    case ForgetFrom(_, q) => rep.(expecting := rep.expecting - if q == "" then {} else {q})
    case _ => rep
  }

  /** When a step can be taken. Packet ids and shared identities are fresh. */
  predicate Enabled<S(==), L, E(==)>(cfg: Config<S, L, E>, s: System<S, E>, step: Step<E>) {
    match step
    case CommitShared(p, event, sequence, ts, now) =>
      && HasLive(s, p)
      && cfg.shareable(event)
      && SharedEventId(p, sequence) !in s.issued
      && cfg.model.matches(event, SharedEventId(p, sequence), ts)
      && Accepts(cfg.model, s.replicas[p].live.value.base, s.replicas[p].live.value.journal,
                 Record(event, SharedEventId(p, sequence), ts, now))
    case CommitLocal(p, event, ts, now) =>
      && HasLive(s, p)
      && !cfg.shareable(event)
      && Accepts(cfg.model, s.replicas[p].live.value.base, s.replicas[p].live.value.journal,
          Record(event, NO_IDENTITY, ts, now))
    case SendInitial(p, q, packetId, _) =>
      HasLive(s, p) && q != p && q in s.replicas[p].live.value.sync && packetId !in s.frozen
    case SendNext(p, q, packetId, _) =>
      HasLive(s, p) && q != p && q in s.replicas[p].live.value.sync && packetId !in s.frozen
    case Deliver(p, q, _, _, _) => Queued(s, p, q) && (p, q) !in s.disconnected && q in s.replicas && s.replicas[q].up
    case DropHead(p, q) => Queued(s, p, q)
    case DuplicateHead(p, q) => Queued(s, p, q)
    case Disconnect(_, _) => true
    case Reconnect(_, _) => true
    case _ => step.p in s.replicas && OwnEnabled(s.replicas[step.p], step)
  }

  function CommitAt<S(==), E(==)>(s: System<S, E>, p: Uid, r: Record<E>): System<S, E>
    requires HasLive(s, p)
  {
    var rep := s.replicas[p];
    s.(replicas := s.replicas[p := rep.(live := Some(rep.live.value.(journal := Insert(rep.live.value.journal, r))))])
  }

  /** A sending handler of `p` towards `q`; a packet it freezes is remembered under its id. */
  function Drive<S(==), E(==)>(s: System<S, E>, p: Uid, q: Uid, eff: Effect<S, E>, packetId: nat,
        stage: Stage): System<S, E>
    requires p in s.replicas
  {
    var frozen := if eff.changed && eff.reply.Some? then s.frozen[packetId := Message(p, q, eff.reply.value)]
        else s.frozen;
    Handle(s.(frozen := frozen), p, q, eff, stage)
  }

  /** A handler of `p` with its reply to `q`. */
  function Handle<S(==), E(==)>(s: System<S, E>, p: Uid, q: Uid, eff: Effect<S, E>, stage: Stage): System<S, E>
    requires p in s.replicas
  {
    Post(s, p, q, Settled(s.replicas[p], eff, stage))
  }

  /** The replica waits for this node, and from `source` for nothing else. */
  predicate Awaits<S, L, E>(cfg: Config<S, L, E>, rep: Replica<S, E>, source: Uid) {
    && (rep.expectNode || source in rep.expecting)
    && (source in rep.expecting ==>
          && (rep.expecting[source].nodeId == 0 || rep.expecting[source].nodeId == cfg.nodeId)
          && rep.expecting[source].classId == cfg.nodeClass)
  }

  /**
  The end of OnNodeState for a node that is registered. While the source's expectation is open the
  acknowledgement waits for the binding callback, which saves a reference to the node if it succeeds.
   */
  function Introduce<S, E>(rep: Replica<S, E>, source: Uid, ack: Frame<S, E>, bound: bool,
        stage: Stage): Outcome<S, E> {
    if source in rep.expecting && !bound then Outcome(if stage.Ran? then rep else Dead(rep), None)
    else
      var done := rep.(expecting := rep.expecting - {source}, referenced := rep.referenced || source in rep.expecting);
      match stage
      case Ran => Outcome(done, Some(ack))
      case DiedAfterBinding => Outcome(Dead(done), None)
      case _ => Outcome(Dead(rep), None)
  }

  /** The persist points of an import, in their order. */
  function StoreImported<S, E>(rep: Replica<S, E>, node: NodeState<S, E>, source: Uid, ack: Frame<S, E>, bound: bool,
        stage: Stage): Outcome<S, E> {
    var stored := rep.(occupied := true);
    if stage.DiedBeforeSave? || stage.DiedAfterNodeSave? then Outcome(Dead(stored), None)
    else
      var saved := stored.(saved := Some(node));
      if stage.DiedAfterStateSave? then Outcome(Dead(saved), None)
      else Introduce(saved.(live := Some(node)), source, ack, bound, stage)
  }

  /**
  OnNodeState for a node the replica does not have. It has to be awaited and admissible, and storage must
  hold none of its objects.
   */
  function OnNodeStateNew<S, L, E>(cfg: Config<S, L, E>, self: Uid, rep: Replica<S, E>, source: Uid,
      frame: Frame<S, E>, bound: bool, stage: Stage): Outcome<S, E>
    requires frame.NodeStateFrame?
  {
    if !Awaits(cfg, rep, source) || rep.occupied
       || !SnapshotAdmissible(cfg, self, source, frame.share, frame.base, frame.journal) then Outcome(rep, None)
    else
      var node := Imported(cfg, self, source, frame.packetId, frame.base, frame.journal);
      StoreImported(rep, node, source, AckFrame(frame.packetId, frame.share), bound, stage)
  }

  /** OnNodeState for a node the replica has: a repeat of the recorded packet tries the binding again. */
  function OnNodeStateAgain<S, L, E>(cfg: Config<S, L, E>, self: Uid, rep: Replica<S, E>, source: Uid,
      packetId: nat, share: Uid, bound: bool, stage: Stage): Outcome<S, E>
    requires rep.live.Some?
  {
    if RecordedHere(cfg, self, rep.live.value, source, packetId, share)
    then Introduce(rep, source, AckFrame(packetId, share), bound, stage)
    else Outcome(if stage.Ran? then rep else Dead(rep), None)
  }

  /** A frame arrives. */
  function OnFrame<S, L, E(==)>(cfg: Config<S, L, E>, self: Uid, rep: Replica<S, E>, source: Uid,
      frame: Frame<S, E>, now: U64, bound: bool, stage: Stage): Outcome<S, E>
  {
    if rep.live.None? then
      if frame.NodeStateFrame? then OnNodeStateNew(cfg, self, rep, source, frame, bound, stage) else Outcome(rep, None)
    else
      match frame
      case AckFrame(pid, share) => Settled(rep, OnAck(rep.live.value, source, pid, share), stage)
      case EventFrame(pid, share, fact) =>
        Settled(rep, OnEvent(cfg, self, rep.live.value, source, pid, share, fact, now), stage)
      case NodeStateFrame(pid, share, _, _) => OnNodeStateAgain(cfg, self, rep, source, pid, share, bound, stage)
  }

  function Import<S(==), L, E(==)>(cfg: Config<S, L, E>, s: System<S, E>, q: Uid, p: Uid, frame: Frame<S, E>,
        bound: bool, stage: Stage): System<S, E>
    requires q in s.replicas && frame.NodeStateFrame?
  {
    Post(s, q, p, OnNodeStateNew(cfg, q, s.replicas[q], p, frame, bound, stage))
  }

  function Receive<S(==), L, E(==)>(cfg: Config<S, L, E>, s: System<S, E>, q: Uid, p: Uid, frame: Frame<S, E>,
        now: U64, bound: bool, stage: Stage): System<S, E>
    requires q in s.replicas
  {
    Post(s, q, p, OnFrame(cfg, q, s.replicas[q], p, frame, now, bound, stage))
  }

  /** The state a step leads to. */
  function Next<S(==), L, E(==)>(cfg: Config<S, L, E>, s: System<S, E>, step: Step<E>): System<S, E>
    requires Enabled(cfg, s, step)
  {
    match step
    case CommitShared(p, event, sequence, ts, now) =>
      var id := SharedEventId(p, sequence);
      CommitAt(s, p, Record(event, id, ts, now)).(issued := s.issued[id := Fact(event, id, ts)])
    case CommitLocal(p, event, ts, now) => CommitAt(s, p, Record(event, NO_IDENTITY, ts, now))
    case SendInitial(p, q, pid, stage) => Drive(s, p, q, SyncInitialState(s.replicas[p].live.value, q, pid), pid, stage)
    case SendNext(p, q, pid, stage) =>
      Drive(s, p, q, SyncNextEvent(cfg, p, s.replicas[p].live.value, q, pid), pid, stage)
    case Deliver(p, q, now, bound, stage) =>
      var frame := s.queues[(p, q)][0];
      Receive(cfg, s.(queues := s.queues[(p, q) := s.queues[(p, q)][1..]]), q, p, frame, now, bound, stage)
    case DropHead(p, q) => s.(queues := s.queues[(p, q) := s.queues[(p, q)][1..]])
    case DuplicateHead(p, q) => s.(queues := s.queues[(p, q) := s.queues[(p, q)] + [s.queues[(p, q)][0]]])
    case Disconnect(p, q) => s.(disconnected := s.disconnected + {(p, q)})
    case Reconnect(p, q) => s.(disconnected := s.disconnected - {(p, q)})
    case _ => s.(replicas := s.replicas[step.p := OwnStep(s.replicas[step.p], step)])
  }

  /** Shared records are exactly those of shareable events. */
  ghost predicate Kinds<S, L, E>(cfg: Config<S, L, E>, journal: seq<Record<E>>) {
    forall i :: 0 <= i < |journal| ==> (journal[i].identity.IsShared() <==> cfg.shareable(journal[i].event))
  }

  /** One replica has created the node; the others have nothing; nothing has been sent. */
  ghost predicate Init<S, L, E>(cfg: Config<S, L, E>, creator: Uid, journal: seq<Record<E>>, s: System<S, E>) {
    && s.replicas.Keys == cfg.endpoints && creator in cfg.endpoints && "" !in cfg.endpoints
    && s.queues == map[] && s.sent == {} && s.frozen == map[] && s.issued == map[]
    && JournalOk(cfg.model, cfg.base, journal) && Kinds(cfg, journal) && Identities(journal) == {}
    && forall p :: p in s.replicas ==>
         if p == creator then
           s.replicas[p].up && s.replicas[p].occupied && s.replicas[p].referenced &&
               s.replicas[p].live == s.replicas[p].saved
           == Some(NodeState(cfg.base, journal, map q | q in cfg.endpoints :: Fresh()))
         else s.replicas[p].live.None? && s.replicas[p].saved.None? && !s.replicas[p].referenced
  }

  /** A run: each state is the step successor of the one before. */
  ghost predicate Run<S, L, E>(cfg: Config<S, L, E>, states: seq<System<S, E>>, steps: seq<Step<E>>) {
    && |states| == |steps| + 1
    && forall i :: 0 <= i < |steps| ==>
        Enabled(cfg, states[i], steps[i]) && states[i + 1] == Next(cfg, states[i], steps[i])
  }
}
