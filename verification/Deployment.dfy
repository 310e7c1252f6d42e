/**
The objects put together: one runtime per endpoint and the network between them. Every run of the objects is
a run of the replication system, so what is proved about its runs holds of the objects.
 */
module Deployments {
  import opened Basics
  import opened EventJournal
  import opened LinkSync
  import opened SyncRuntime
  import R = Replication
  import RI = ReplicationInvariant
  import RS = ReplicationSteps

  /** The outcome of a handler is in the network and in its replica. */
  ghost predicate Posted<S, E>(s: R.System<S, E>, p: Uid, q: Uid, outcome: R.Outcome<S, E>, s': R.System<S, E>) {
    && s'.replicas == s.replicas[p := outcome.rep]
    && s'.sent == s.sent + (if outcome.reply.Some? then {R.Message(p, q, outcome.reply.value)} else {})
    && (var queued := if (p, q) in s.queues then s.queues[(p, q)] else [];
        s'.queues == (if outcome.reply.Some? && (p, q) !in s.disconnected
                      then s.queues[(p, q) := queued + [outcome.reply.value]] else s.queues))
    && s'.disconnected == s.disconnected && s'.issued == s.issued
  }

  lemma PostIs<S, E>(s: R.System<S, E>, p: Uid, q: Uid, outcome: R.Outcome<S, E>, s': R.System<S, E>)
    requires Posted(s, p, q, outcome, s')
    ensures s' == R.Post(s, p, q, outcome).(frozen := s'.frozen)
    ensures s'.frozen == s.frozen ==> s' == R.Post(s, p, q, outcome)
  {
  }

  lemma PostedFrozen<S, E>(s: R.System<S, E>, p: Uid, q: Uid, outcome: R.Outcome<S, E>, s': R.System<S, E>,
        frozen: map<nat, R.Message<S, E>>)
    requires Posted(s, p, q, outcome, s')
    ensures Posted(s, p, q, outcome, s'.(frozen := frozen))
  {
  }

  lemma DriveIs<S, E>(s: R.System<S, E>, p: Uid, q: Uid, eff: R.Effect<S, E>, packetId: nat, stage: R.Stage,
        s': R.System<S, E>)
    requires p in s.replicas && Posted(s, p, q, R.Settled(s.replicas[p], eff, stage), s')
    requires s'.frozen == if eff.changed && eff.reply.Some?
                          then s.frozen[packetId := R.Message(p, q, eff.reply.value)] else s.frozen
    ensures s' == R.Drive(s, p, q, eff, packetId, stage)
  {
    PostIs(s, p, q, R.Settled(s.replicas[p], eff, stage), s');
  }

  /** Each step can be taken where the ones before it lead. */
  ghost predicate Enables<S, L, E>(cfg: R.Config<S, L, E>, s: R.System<S, E>, steps: seq<R.Step<E>>)
    decreases |steps|
  {
    steps != [] ==> R.Enabled(cfg, s, steps[0]) && Enables(cfg, R.Next(cfg, s, steps[0]), steps[1..])
  }

  class Deployment<S(==), L, E(==)> {
    const cfg: R.Config<S, L, E>
    const network: MemoryNetwork<S, E>
    const runtimes: map<Uid, SharedSyncRuntime<S, L, E>>
    ghost const parts: set<SharedSyncRuntime<S, L, E>>
    ghost var frozen: map<nat, R.Message<S, E>>
    ghost var issued: map<SharedEventId, Fact<E>>

    ghost function Abstract(): R.System<S, E>
      reads this, network, parts
    {
      R.System(map p | p in runtimes && runtimes[p] in parts :: runtimes[p].State(),
               network.queues, network.disconnected, network.sent, frozen, issued)
    }

    ghost predicate Valid()
      reads this, network, parts
    {
      forall p :: p in runtimes ==>
        && runtimes[p] in parts && runtimes[p].self == p && runtimes[p].cfg == cfg && runtimes[p].network == network
        && runtimes[p].Valid() && (runtimes[p].up <==> p in network.endpoints)
    }

    constructor (cfg: R.Config<S, L, E>, network: MemoryNetwork<S, E>, runtimes: map<Uid, SharedSyncRuntime<S, L, E>>)
      ensures this.cfg == cfg && this.network == network && this.runtimes == runtimes
      ensures parts == set p | p in runtimes :: runtimes[p]
      ensures frozen == map[] && issued == map[]
    {
      this.cfg, this.network, this.runtimes, frozen, issued := cfg, network, runtimes, map[], map[];
      this.parts := set p | p in runtimes :: runtimes[p];
    }

    method SendInitial(p: Uid, q: Uid, packetId: nat, stage: R.Stage)
      requires Valid() && p in runtimes && runtimes[p].live.Some? && q in runtimes[p].live.value.sync
      modifies network, parts
      ensures Valid()
      ensures Posted(old(Abstract()), p, q, R.Settled(old(runtimes[p].State()),
                     R.SyncInitialState(old(runtimes[p].live).value, q, packetId), stage), Abstract())
    {
      hide R.SyncInitialState, R.Settled;
      runtimes[p].SyncInitialState(q, packetId, stage);
      assert Abstract().replicas == old(Abstract()).replicas[p := runtimes[p].State()];
    }

    method SendNext(p: Uid, q: Uid, packetId: nat, stage: R.Stage)
      requires Valid() && p in runtimes && runtimes[p].live.Some? && q in runtimes[p].live.value.sync
      modifies network, parts
      ensures Valid()
      ensures Posted(old(Abstract()), p, q, R.Settled(old(runtimes[p].State()),
                     R.SyncNextEvent(cfg, p, old(runtimes[p].live).value, q, packetId), stage), Abstract())
    {
      hide R.SyncNextEvent, R.Settled;
      runtimes[p].SyncNextEvent(q, packetId, stage);
      assert Abstract().replicas == old(Abstract()).replicas[p := runtimes[p].State()];
    }

    method Receive(p: Uid, q: Uid, frame: R.Frame<S, E>, now: U64, bound: bool, stage: R.Stage)
      requires Valid() && q in runtimes && runtimes[q].up
      modifies network, parts
      ensures Valid()
      ensures Posted(old(Abstract()), q, p, R.OnFrame(cfg, q, old(runtimes[q].State()), p, frame, now, bound, stage),
                Abstract())
    {
      hide R.OnFrame;
      runtimes[q].OnBytes(p, frame, now, bound, stage);
      assert Abstract().replicas == old(Abstract()).replicas[q := runtimes[q].State()];
    }

    /** A commit of the application on the registered node. */
    method Commit(p: Uid, r: Record<E>)
      requires Valid() && R.HasLive(Abstract(), p)
      modifies parts
      ensures Valid() && Abstract() == R.CommitAt(old(Abstract()), p, r)
    {
      runtimes[p].Commit(r);
      assert Abstract().replicas == old(Abstract()).replicas[p := runtimes[p].State()];
    }

    method Issue(p: Uid, event: E, sequence: nat, ts: U64, now: U64)
      requires Valid() && R.HasLive(Abstract(), p)
      modifies this`issued, parts
      ensures Valid()
      ensures var id := SharedEventId(p, sequence);
              Abstract() == R.CommitAt(old(Abstract()), p,
                  Record(event, id, ts, now)).(issued := old(issued)[id := Fact(event, id, ts)])
    {
      hide R.CommitAt;
      var id := SharedEventId(p, sequence);
      Commit(p, Record(event, id, ts, now));
      ghost var s := Abstract();
      issued := issued[id := Fact(event, id, ts)];
      assert Abstract() == s.(issued := issued);
    }

    method Act(step: R.Step<E>, p: Uid)
      requires Valid() && p in runtimes && R.OwnEnabled(runtimes[p].State(), step)
      modifies network, parts
      ensures Valid()
      ensures var s := old(Abstract());
              Abstract() == s.(replicas := s.replicas[p := R.OwnStep(s.replicas[p], step)])
    {
      hide R.OwnStep;
      runtimes[p].Act(step);
      assert Abstract().replicas == old(Abstract()).replicas[p := runtimes[p].State()];
    }

    /** A send, with what it freezes remembered under the packet's id. */
    method DriveInitial(p: Uid, q: Uid, packetId: nat, stage: R.Stage)
      requires Valid() && p in runtimes && runtimes[p].live.Some? && q in runtimes[p].live.value.sync
      modifies this, network, parts
      ensures Valid()
      ensures Abstract() == R.Drive(old(Abstract()), p, q,
                R.SyncInitialState(old(runtimes[p].live).value, q, packetId), packetId, stage)
    {
      hide Posted, R.SyncInitialState, R.Settled, R.Drive;
      ghost var s, eff := Abstract(), R.SyncInitialState(runtimes[p].live.value, q, packetId);
      SendInitial(p, q, packetId, stage);
      Remember(s, p, q, packetId, stage, eff);
    }

    method DriveNext(p: Uid, q: Uid, packetId: nat, stage: R.Stage)
      requires Valid() && p in runtimes && runtimes[p].live.Some? && q in runtimes[p].live.value.sync
      modifies this, network, parts
      ensures Valid()
      ensures Abstract() == R.Drive(old(Abstract()), p, q,
                R.SyncNextEvent(cfg, p, old(runtimes[p].live).value, q, packetId), packetId, stage)
    {
      hide Posted, R.SyncNextEvent, R.Settled, R.Drive;
      ghost var s, eff := Abstract(), R.SyncNextEvent(cfg, p, runtimes[p].live.value, q, packetId);
      SendNext(p, q, packetId, stage);
      Remember(s, p, q, packetId, stage, eff);
    }

    /** History: the packet a send has frozen. */
    ghost method Remember(s: R.System<S, E>, p: Uid, q: Uid, packetId: nat, stage: R.Stage, eff: R.Effect<S, E>)
      requires Valid() && p in s.replicas && Posted(s, p, q, R.Settled(s.replicas[p], eff, stage), Abstract())
      requires frozen == s.frozen
      modifies this`frozen
      ensures Valid() && Abstract() == R.Drive(s, p, q, eff, packetId, stage)
    {
      hide Posted, R.Settled, R.Drive;
      ghost var s' := Abstract();
      if eff.changed && eff.reply.Some? {
        frozen := frozen[packetId := R.Message(p, q, eff.reply.value)];
      }
      assert Abstract() == s'.(frozen := frozen);
      PostedFrozen(s, p, q, R.Settled(s.replicas[p], eff, stage), s', frozen);
      DriveIs(s, p, q, eff, packetId, stage, Abstract());
    }

    method Deliver(p: Uid, q: Uid, now: U64, bound: bool, stage: R.Stage)
      requires Valid() && R.Queued(Abstract(), p, q) && (p, q) !in network.disconnected && q in runtimes
      requires runtimes[q].up
      modifies this, network, parts
      ensures Valid()
      ensures var queue := old(network.queues)[(p, q)];
              Abstract() == R.Receive(cfg, old(Abstract()).(queues := old(network.queues)[(p, q) := queue[1..]]), q,
                  p, queue[0], now, bound, stage)
    {
      hide Posted, R.OnFrame, R.Post;
      var frame := network.DeliverNext(p, q);
      ghost var s := Abstract();
      assert s.replicas == old(Abstract()).replicas;
      Receive(p, q, frame.value, now, bound, stage);
      PostIs(s, q, p, R.OnFrame(cfg, q, s.replicas[q], p, frame.value, now, bound, stage), Abstract());
    }

    /** What the network does by itself: a packet is lost or repeated, a direction goes down or comes back. */
    method DropOrDuplicate(p: Uid, q: Uid, drop: bool)
      requires Valid() && R.Queued(Abstract(), p, q)
      modifies network
      ensures Valid()
      ensures var s := old(Abstract());
              Abstract() == s.(queues := s.queues[(p, q) := if drop then s.queues[(p, q)][1..]
                                                            else s.queues[(p, q)] + [s.queues[(p, q)][0]]])
    {
      if drop {
        var dropped := network.DropNext(p, q);
      } else {
        var duplicated := network.DuplicateNext(p, q);
      }
      assert Abstract().replicas == old(Abstract()).replicas;
    }

    method Outage(p: Uid, q: Uid, down: bool)
      requires Valid()
      modifies network
      ensures Valid()
      ensures var s := old(Abstract());
              Abstract() == s.(disconnected := if down then s.disconnected + {(p, q)} else s.disconnected - {(p, q)})
    {
      if down {
        network.Disconnect(p, q);
      } else {
        network.Reconnect(p, q);
      }
      assert Abstract().replicas == old(Abstract()).replicas;
    }

    /** One step of the objects is the step of the system. */
    method Execute(step: R.Step<E>)
      requires Valid() && R.Enabled(cfg, Abstract(), step)
      modifies this, network, parts
      ensures Valid() && Abstract() == R.Next(cfg, old(Abstract()), step)
    {
      hide R.Receive, R.Drive, R.CommitAt, R.SyncInitialState, R.SyncNextEvent, R.OwnEnabled, R.OwnStep, Accepts;
      match step {
        case CommitShared(p, event, sequence, ts, now) => Issue(p, event, sequence, ts, now);
        case CommitLocal(p, event, ts, now) => Commit(p, Record(event, NO_IDENTITY, ts, now));
        case SendInitial(p, q, packetId, stage) => DriveInitial(p, q, packetId, stage);
        case SendNext(p, q, packetId, stage) => DriveNext(p, q, packetId, stage);
        case Deliver(p, q, now, bound, stage) => Deliver(p, q, now, bound, stage);
        case DropHead(p, q) => DropOrDuplicate(p, q, true);
        case DuplicateHead(p, q) => DropOrDuplicate(p, q, false);
        case Disconnect(p, q) => Outage(p, q, true);
        case Reconnect(p, q) => Outage(p, q, false);
        case _ => Act(step, step.p);
      }
    }

    /** A run of the objects is a run of the system. */
    method Run(steps: seq<R.Step<E>>) returns (ghost states: seq<R.System<S, E>>)
      requires Valid() && Enables(cfg, Abstract(), steps)
      modifies this, network, parts
      ensures Valid() && R.Run(cfg, states, steps)
      ensures states[0] == old(Abstract()) && states[|steps|] == Abstract()
    {
      states := [Abstract()];
      assert steps[0..] == steps && steps[..0] == [];
      for i := 0 to |steps|
        invariant Valid() && |states| == i + 1 && states[0] == old(Abstract()) && states[i] == Abstract()
        invariant R.Run(cfg, states, steps[..i])
        invariant Enables(cfg, Abstract(), steps[i..])
      {
        assert steps[i..][0] == steps[i] && steps[i..][1..] == steps[i + 1..];
        Execute(steps[i]);
        RunMore(cfg, states, steps, i, Abstract());
        states := states + [Abstract()];
      }
      assert steps[..|steps|] == steps;
    }
  }

  lemma RunMore<S, L, E>(cfg: R.Config<S, L, E>, states: seq<R.System<S, E>>, steps: seq<R.Step<E>>, i: nat,
        s: R.System<S, E>)
    requires i < |steps| && R.Run(cfg, states, steps[..i]) && R.Enabled(cfg, states[i], steps[i])
    requires s == R.Next(cfg, states[i], steps[i])
    ensures R.Run(cfg, states + [s], steps[..i + 1])
  {
    hide R.Next, R.Enabled;
    var more := states + [s];
    forall k | 0 <= k < i + 1
      ensures R.Enabled(cfg, more[k], steps[..i + 1][k]) && more[k + 1] == R.Next(cfg, more[k], steps[..i + 1][k])
    {
      assert k < i ==> steps[..i][k] == steps[..i + 1][k];
    }
  }

  /** The creator has the node, saved and referenced; the others have nothing. */
  ghost function Beginning<S, L, E>(cfg: R.Config<S, L, E>, creator: Uid, journal: seq<Record<E>>): R.System<S, E> {
    R.System(map p | p in cfg.endpoints :: First(cfg, creator, journal, p), map[], {}, {}, map[], map[])
  }

  ghost function First<S, L, E>(cfg: R.Config<S, L, E>, creator: Uid, journal: seq<Record<E>>,
        p: Uid): R.Replica<S, E> {
    var node := Some(R.NodeState(cfg.base, journal, map q | q in cfg.endpoints :: Fresh()));
    if p == creator then R.Replica(true, node, node, true, true, false, map[])
    else R.Replica(true, None, None, false, false, false, map[])
  }

  ghost predicate Started<S, L, E>(runtime: SharedSyncRuntime<S, L, E>, cfg: R.Config<S, L, E>, creator: Uid,
      journal: seq<Record<E>>, p: Uid, network: MemoryNetwork<S, E>)
    reads runtime
  {
    && runtime.self == p && runtime.cfg == cfg && runtime.network == network
    && runtime.Valid() && runtime.up && runtime.State() == First(cfg, creator, journal, p)
  }

  /** The runtime of one endpoint at the beginning. */
  method Start<S(==), L, E(==)>(cfg: R.Config<S, L, E>, creator: Uid, journal: seq<Record<E>>, p: Uid,
        network: MemoryNetwork<S, E>)
      returns (runtime: SharedSyncRuntime<S, L, E>)
    requires p !in network.endpoints
    modifies network`endpoints
    ensures fresh(runtime) && Started(runtime, cfg, creator, journal, p, network)
    ensures network.endpoints == old(network.endpoints) + {p}
  {
    runtime := new SharedSyncRuntime<S, L, E>(cfg, p, network);
    if p == creator {
      runtime.HostNode(journal);
    }
  }

  method StartEach<S(==), L, E(==)>(cfg: R.Config<S, L, E>, creator: Uid, journal: seq<Record<E>>,
      network: MemoryNetwork<S, E>, endpoints: set<Uid>) returns (runtimes: map<Uid, SharedSyncRuntime<S, L, E>>)
    requires endpoints !! network.endpoints
    modifies network`endpoints
    ensures runtimes.Keys == endpoints && network.endpoints == old(network.endpoints) + endpoints
    ensures forall p :: p in runtimes ==> fresh(runtimes[p]) && Started(runtimes[p], cfg, creator, journal, p, network)
    decreases |endpoints|
  {
    hide Started;
    if endpoints == {} {
      return map[];
    }
    var p :| p in endpoints;
    var rest := StartEach(cfg, creator, journal, network, endpoints - {p});
    var runtime := Start(cfg, creator, journal, p, network);
    runtimes := rest[p := runtime];
  }

  method Deploy<S(==), L, E(==)>(cfg: R.Config<S, L, E>, creator: Uid, journal: seq<Record<E>>)
        returns (d: Deployment<S, L, E>)
    requires creator in cfg.endpoints
    ensures fresh(d) && fresh(d.network) && fresh(d.parts) && d.cfg == cfg
    ensures d.Valid() && d.Abstract() == Beginning(cfg, creator, journal)
  {
    hide First;
    var network := new MemoryNetwork<S, E>();
    var runtimes := StartEach(cfg, creator, journal, network, cfg.endpoints);
    d := new Deployment(cfg, network, runtimes);
    StartedAll(d, creator, journal);
  }

  lemma StartedAll<S, L, E>(d: Deployment<S, L, E>, creator: Uid, journal: seq<Record<E>>)
    requires d.runtimes.Keys == d.cfg.endpoints
    requires forall p :: p in d.runtimes ==>
              d.runtimes[p] in d.parts && Started(d.runtimes[p], d.cfg, creator, journal, p, d.network)
    ensures d.Abstract().replicas == Beginning(d.cfg, creator, journal).replicas
  {
  }

  /**
  From creation on: whatever sends, deliveries, losses, repetitions, outages, crashes at persist points and
  restarts the objects go through, they go through a run of the system and keep its invariant.
   */
  method Operate<S(==), L, E(==)>(cfg: R.Config<S, L, E>, creator: Uid, journal: seq<Record<E>>, steps: seq<R.Step<E>>)
      returns (d: Deployment<S, L, E>, ghost states: seq<R.System<S, E>>)
    requires creator in cfg.endpoints && "" !in cfg.endpoints
    requires JournalOk(cfg.model, cfg.base, journal) && R.Kinds(cfg, journal) && Identities(journal) == {}
    requires Enables(cfg, Beginning(cfg, creator, journal), steps)
    ensures R.Run(cfg, states, steps) && R.Init(cfg, creator, journal, states[0])
    ensures d.Valid() && d.Abstract() == states[|steps|] && RI.Inv(cfg, d.Abstract())
  {
    hide R.Run, Enables, RI.Inv;
    d := Deploy(cfg, creator, journal);
    states := d.Run(steps);
    RunLength(cfg, states, steps);
    RS.RunKeepsInv(cfg, creator, journal, states, steps, |steps|);
  }

  lemma RunLength<S, L, E>(cfg: R.Config<S, L, E>, states: seq<R.System<S, E>>, steps: seq<R.Step<E>>)
    requires R.Run(cfg, states, steps)
    ensures |states| == |steps| + 1
  {
  }
}
