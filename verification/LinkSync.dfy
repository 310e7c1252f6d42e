/** Synchronization progress of one Share relationship: a node whose events are the protocol's own steps. */
module LinkSync {
  import opened Basics

  datatype Phase = NotStarted | Pending | Complete

  function Rank(p: Phase): nat {
    match p
    case NotStarted => 0
    case Pending => 1
    case Complete => 2
  }

  /** The frozen initial packet and the identities its snapshot covers. */
  datatype PendingInitial<+P> = PendingInitial(packetId: nat, packet: P, covered: seq<SharedEventId>)

  /** The one outstanding frozen event packet. */
  datatype PendingEvent<+P> = PendingEvent(packetId: nat, identity: SharedEventId, packet: P)

  datatype SyncState<+P> = SyncState(
    phase: Phase,
    pendingInitial: Option<PendingInitial<P>>,
    receivedInitial: Option<nat>,
    delivered: seq<SharedEventId>,
    pendingEvent: Option<PendingEvent<P>>)

  function Fresh<P>(): SyncState<P> {
    SyncState(NotStarted, None, None, [], None)
  }

  datatype SyncEvent<+P> =
    | BeginInitialSync(packetId: nat, packet: P, covered: seq<SharedEventId>)
    | CompleteInitialSync
    | NoteInitialSyncReceived(packetId: nat)
    | CompleteFromReceivedSnapshot(ids: seq<SharedEventId>)
    | BeginIncrementalEvent(packetId: nat, identity: SharedEventId, packet: P)
    | CompleteIncrementalEvent

  /** Append what is not delivered yet, in order, optionally skipping identities without an origin. */
  function AddDelivered(delivered: seq<SharedEventId>, ids: seq<SharedEventId>,
        sharedOnly: bool): (r: seq<SharedEventId>)
    ensures delivered <= r
    ensures forall id :: id in r <==> id in delivered || (id in ids && (sharedOnly ==> id.IsShared()))
    decreases |ids|
  {
    if ids == [] then delivered
    else
      var rest := AddDelivered(delivered, ids[..|ids| - 1], sharedOnly);
      var last := ids[|ids| - 1];
      assert ids == ids[..|ids| - 1] + [last];
      if last in rest || (sharedOnly && !last.IsShared()) then rest else rest + [last]
  }

  /** CanApply of the events: only the received-snapshot event has one. */
  predicate CanApplySync<P>(s: SyncState<P>, e: SyncEvent<P>) {
    e.CompleteFromReceivedSnapshot? ==> s.phase.NotStarted? && s.pendingEvent.None?
  }

  /** What the Apply methods assert about the state they meet. */
  predicate Expected<P>(s: SyncState<P>, e: SyncEvent<P>) {
    match e
    case BeginInitialSync(_, _, _) => s.phase.NotStarted?
    case BeginIncrementalEvent(_, id, _) => s.phase.Complete? && s.pendingEvent.None? && id.IsShared()
    case CompleteIncrementalEvent => s.pendingEvent.Some?
    case CompleteFromReceivedSnapshot(_) => CanApplySync(s, e)
    case _ => true
  }

  /**
  Which events a state expects: a snapshot starts an exchange once, an event packet follows it one at a time, and
  a received snapshot is taken only where nothing has been started.
   */
  lemma ExpectedIff<P>(s: SyncState<P>, e: SyncEvent<P>)
    ensures Expected(s, e) <==>
            && (e.BeginInitialSync? ==> s.phase == NotStarted)
            && (e.BeginIncrementalEvent? ==>
                s.phase == Complete && s.pendingEvent == None && e.identity.originUid != "")
            && (e.CompleteIncrementalEvent? ==> s.pendingEvent.Some?)
            && (e.CompleteFromReceivedSnapshot? ==> s.phase == NotStarted && s.pendingEvent == None)
    ensures CanApplySync(s, e) <==>
            (e.CompleteFromReceivedSnapshot? ==> s.phase == NotStarted && s.pendingEvent == None)
  {
  }

  function ApplySync<P>(s: SyncState<P>, e: SyncEvent<P>): SyncState<P> {
    match e
    case BeginInitialSync(pid, packet, covered) =>
      s.(phase := Pending, pendingInitial := Some(PendingInitial(pid, packet, covered)))
    case CompleteInitialSync =>
      var covered := if s.pendingInitial.Some? then s.pendingInitial.value.covered else [];
      s.(phase := Complete, pendingInitial := None, delivered := AddDelivered(s.delivered, covered, false))
    case NoteInitialSyncReceived(pid) =>
      s.(phase := Complete, receivedInitial := Some(pid))
    case CompleteFromReceivedSnapshot(ids) =>
      s.(phase := Complete, pendingInitial := None, delivered := AddDelivered(s.delivered, ids, true))
    case BeginIncrementalEvent(pid, id, packet) =>
      s.(pendingEvent := Some(PendingEvent(pid, id, packet)))
    case CompleteIncrementalEvent =>
      if s.pendingEvent.None? then s
      else s.(pendingEvent := None, delivered := AddDelivered(s.delivered, [s.pendingEvent.value.identity], false))
  }

  /** `more` lists what `before` does, in front, and `ids`, or those that have an origin, and nothing twice anew. */
  ghost predicate Appended(before: seq<SharedEventId>, more: seq<SharedEventId>, ids: seq<SharedEventId>,
      sharedOnly: bool) {
    && before <= more
    && (forall id :: id in more <==> id in before || (id in ids && (sharedOnly ==> id.originUid != "")))
    && (NoDuplicates(before) ==> NoDuplicates(more))
  }

  /** What each event leaves of the state it meets. */
  lemma SyncOutcomes<P>(s: SyncState<P>, pid: nat, packet: P, ids: seq<SharedEventId>, id: SharedEventId)
    ensures ApplySync(s, BeginInitialSync(pid, packet, ids)) ==
            SyncState(Pending, Some(PendingInitial(pid, packet, ids)), s.receivedInitial, s.delivered, s.pendingEvent)
    ensures ApplySync(s, BeginIncrementalEvent(pid, id, packet)) ==
            SyncState(s.phase, s.pendingInitial, s.receivedInitial, s.delivered, Some(PendingEvent(pid, id, packet)))
    ensures ApplySync(s, NoteInitialSyncReceived(pid)) ==
            SyncState(Complete, s.pendingInitial, Some(pid), s.delivered, s.pendingEvent)
    ensures exists more :: && Appended(s.delivered, more, ids, true)
                           && ApplySync(s, CompleteFromReceivedSnapshot(ids)) ==
                              SyncState(Complete, None, s.receivedInitial, more, s.pendingEvent)
    ensures s.pendingInitial.Some? ==>
              exists more :: && Appended(s.delivered, more, s.pendingInitial.value.covered, false)
                             && ApplySync(s, CompleteInitialSync) ==
                                SyncState(Complete, None, s.receivedInitial, more, s.pendingEvent)
    ensures s.pendingEvent.Some? ==>
              exists more :: && Appended(s.delivered, more, [s.pendingEvent.value.identity], false)
                             && ApplySync(s, CompleteIncrementalEvent) ==
                                SyncState(s.phase, s.pendingInitial, s.receivedInitial, more, None)
  {
    hide AddDelivered, NoDuplicates;
    Appends(s.delivered, ids, true);
    if s.pendingInitial.Some? {
      Appends(s.delivered, s.pendingInitial.value.covered, false);
    }
    if s.pendingEvent.Some? {
      Appends(s.delivered, [s.pendingEvent.value.identity], false);
    }
  }

  lemma Appends(delivered: seq<SharedEventId>, ids: seq<SharedEventId>, sharedOnly: bool)
    ensures Appended(delivered, AddDelivered(delivered, ids, sharedOnly), ids, sharedOnly)
  {
    hide AddDelivered, NoDuplicates;
    if NoDuplicates(delivered) {
      AddDeliveredKeepsUnique(delivered, ids, sharedOnly);
    }
  }

  function RunSync<P>(s: SyncState<P>, es: seq<SyncEvent<P>>): SyncState<P> {
    if es == [] then s else ApplySync(RunSync(s, es[..|es| - 1]), es[|es| - 1])
  }

  ghost predicate AllExpected<P>(s: SyncState<P>, es: seq<SyncEvent<P>>) {
    forall i :: 0 <= i < |es| ==> Expected(RunSync(s, es[..i]), es[i])
  }

  ghost predicate NoDuplicates(ids: seq<SharedEventId>) {
    forall i, j :: 0 <= i < j < |ids| ==> ids[i] != ids[j]
  }

  lemma {:induction false} AddDeliveredKeepsUnique(delivered: seq<SharedEventId>, ids: seq<SharedEventId>,
        sharedOnly: bool)
    requires NoDuplicates(delivered)
    ensures NoDuplicates(AddDelivered(delivered, ids, sharedOnly))
    decreases |ids|
  {
    if ids != [] {
      AddDeliveredKeepsUnique(delivered, ids[..|ids| - 1], sharedOnly);
    }
  }

  /**
  Whatever protocol events a relationship goes through, its phase only moves forward, its delivered
  list only grows at the end and lists nothing twice, and an event packet is outstanding only once the
  initial exchange is complete.
   */
  lemma {:induction false} SyncMovesForward<P>(s: SyncState<P>, es: seq<SyncEvent<P>>)
    requires AllExpected(s, es)
    requires NoDuplicates(s.delivered) && (s.pendingEvent.Some? ==> s.phase.Complete?)
    ensures Rank(s.phase) <= Rank(RunSync(s, es).phase)
    ensures s.delivered <= RunSync(s, es).delivered && NoDuplicates(RunSync(s, es).delivered)
    ensures RunSync(s, es).pendingEvent.Some? ==> RunSync(s, es).phase.Complete?
  {
    if es != [] {
      var n := |es| - 1;
      forall i | 0 <= i < n ensures Expected(RunSync(s, es[..n][..i]), es[..n][i]) {
        assert es[..n][..i] == es[..i];
      }
      SyncMovesForward(s, es[..n]);
      var mid := RunSync(s, es[..n]);
      assert Expected(mid, es[n]);
      match es[n] {
        case CompleteInitialSync =>
          if mid.pendingInitial.Some? {
            AddDeliveredKeepsUnique(mid.delivered, mid.pendingInitial.value.covered, false);
          }
        case CompleteFromReceivedSnapshot(ids) => AddDeliveredKeepsUnique(mid.delivered, ids, true);
        case CompleteIncrementalEvent =>
          AddDeliveredKeepsUnique(mid.delivered, [mid.pendingEvent.value.identity], false);
        case _ =>
      }
    }
  }

  /** The live object whose fields the Apply methods update. */
  class LinkSyncState<P> {
    var phase: Phase
    var pendingInitial: Option<PendingInitial<P>>
    var receivedInitial: Option<nat>
    var delivered: seq<SharedEventId>
    var pendingEvent: Option<PendingEvent<P>>

    function State(): SyncState<P>
      reads this
    {
      SyncState(phase, pendingInitial, receivedInitial, delivered, pendingEvent)
    }

    constructor ()
      ensures State() == Fresh()
    {
      phase, pendingInitial, receivedInitial, delivered, pendingEvent := NotStarted, None, None, [], None;
    }

    method HasDelivered(id: SharedEventId) returns (found: bool)
      ensures found <==> id in delivered
    {
      for i := 0 to |delivered|
        invariant id !in delivered[..i]
      {
        if delivered[i] == id {
          return true;
        }
      }
      found := false;
    }

    /** The loop the two completing Apply methods share: push each identity that is not there yet. */
    method Deliver(ids: seq<SharedEventId>, sharedOnly: bool)
      modifies this`delivered
      ensures delivered == AddDelivered(old(delivered), ids, sharedOnly)
    {
      ghost var d0 := delivered;
      assert ids[..0] == [];
      for i := 0 to |ids|
        invariant delivered == AddDelivered(d0, ids[..i], sharedOnly)
      {
        var known := HasDelivered(ids[i]);
        assert ids[..i + 1][..i] == ids[..i];
        if (!sharedOnly || ids[i].IsShared()) && !known {
          delivered := delivered + [ids[i]];
        }
      }
      assert ids[..|ids|] == ids;
    }

    method Apply(e: SyncEvent<P>)
      requires Expected(State(), e)
      modifies this
      ensures State() == ApplySync(old(State()), e)
    {
      match e {
        case BeginInitialSync(pid, packet, covered) =>
          phase := Pending;
          pendingInitial := Some(PendingInitial(pid, packet, covered));
        case CompleteInitialSync =>
          phase := Complete;
          if pendingInitial.Some? {
            Deliver(pendingInitial.value.covered, false);
          }
          pendingInitial := None;
        case NoteInitialSyncReceived(pid) =>
          receivedInitial := Some(pid);
          phase := Complete;
        case CompleteFromReceivedSnapshot(ids) =>
          phase := Complete;
          Deliver(ids, true);
          pendingInitial := None;
        case BeginIncrementalEvent(pid, id, packet) =>
          pendingEvent := Some(PendingEvent(pid, id, packet));
        case CompleteIncrementalEvent =>
          Deliver([pendingEvent.value.identity], false);
          pendingEvent := None;
      }
    }
  }
}
