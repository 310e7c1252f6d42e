/** Whole lives of a shared room: from its creation, through any sequence of its operations. */
module RoomRuns {
  import opened Basics
  import opened EventJournal
  import opened Nodes
  import opened NodeRuns
  import opened SharedNodes
  import Rooms = ChatRooms

  datatype RoomOperation =
    | OpenShare(link: nat, access: Rooms.Access, eventId: nat, now: U64)
    | CloseShare(link: nat, now: U64)
    | SetAccess(link: nat, access: Rooms.Access, now: U64)
    | Receive(message: Rooms.Message, usable: bool, now: U64)
    | CompactRoom(now: U64)
    | RebuildRoom

  type RoomLife = Life<Rooms.Room, Rooms.RoomEvent>

  /** The event an operation commits in a room with these shares, if any. */
  function CommittedBy(shares: seq<Rooms.Share>, operation: RoomOperation): Option<Rooms.RoomEvent> {
    match operation
    case OpenShare(link, access, eventId, _) =>
      if Rooms.FindShareIndex(shares, link) < |shares| then None else Some(Rooms.AddShare(eventId, link, access))
    case CloseShare(link, _) =>
      var k := Rooms.FindShareIndex(shares, link);
      if k < |shares| then Some(Rooms.RemoveShare(shares[k].shareId)) else None
    case SetAccess(link, access, _) =>
      var k := Rooms.FindShareIndex(shares, link);
      if k < |shares| && shares[k].access != access then Some(Rooms.ChangeShareAccess(shares[k].shareId, access))
          else None
    case _ => None
  }

  /** What an operation of the room is for the node beneath. */
  function OperationOf(shares: seq<Rooms.Share>, operation: RoomOperation): Operation<Rooms.RoomEvent> {
    match operation
    case Receive(m, usable, now) =>
      CommitShared(Rooms.MessageAdded(m), m.id, m.timestampUs, usable, now)
    case CompactRoom(now) => Compact(now)
    case RebuildRoom => NodeRuns.Rebuild
    case _ =>
      var event := CommittedBy(shares, operation);
      if event.Some? then Commit(event.value, operation.now) else EnsureCurrent
  }

  ghost function SharesOf<P>(notStarted: P, life: RoomLife): seq<Rooms.Share> {
    Rooms.Replayed(notStarted, life.base, life.journal).shares
  }

  ghost function StepRoomLife<P>(notStarted: P, life: RoomLife, operation: RoomOperation): RoomLife {
    StepLife(Rooms.RoomModel(notStarted), life, OperationOf(SharesOf(notStarted, life), operation))
  }

  ghost function RunRoomLife<P>(notStarted: P, life: RoomLife, operations: seq<RoomOperation>): RoomLife {
    if operations == [] then life
    else StepRoomLife(notStarted, RunRoomLife(notStarted, life, operations[..|operations| - 1]),
        operations[|operations| - 1])
  }

  /** The operation discards the object. */
  ghost predicate EndsRoom<P>(notStarted: P, life: RoomLife, operation: RoomOperation) {
    Ends(Rooms.RoomModel(notStarted), life, OperationOf(SharesOf(notStarted, life), operation))
  }

  /** Only a malformed new message with its place inside the journal does. */
  lemma EndsRoomIff<P>(notStarted: P, life: RoomLife, operation: RoomOperation)
    requires HistoryOk(notStarted, life.base, life.journal)
    ensures EndsRoom(notStarted, life, operation) <==>
              && operation.Receive? && operation.usable && Malformed(operation.message)
              && operation.message.id.IsShared() && operation.message.timestampUs != 0
              && operation.message.id !in Identities(life.journal)
              && LowerBound(life.journal, operation.message.timestampUs) < |life.journal|
  {
    if operation.Receive? {
      var m := operation.message;
      AcceptedIff(notStarted, life.base, life.journal,
          Record(Rooms.MessageAdded(m), m.id, m.timestampUs, operation.now));
    }
  }

  // ----- fresh ids -----

  /** AddShare, RemoveShare and SetShareAccess are called with a valid Link. */
  ghost predicate LinkIsValid(operation: RoomOperation) {
    operation.OpenShare? || operation.CloseShare? || operation.SetAccess? ==> operation.link != Rooms.NO_LINK
  }

  /** The ids generated for the shares to come are new to the room and to each other, and their Links are valid. */
  ghost predicate FreshOperations(base: Rooms.Room, journal: Rooms.Journal, operations: seq<RoomOperation>) {
    && (forall i :: 0 <= i < |operations| && operations[i].OpenShare? ==> Unused(base, journal, operations[i].eventId))
    && (forall i, j :: 0 <= i < j < |operations| && operations[i].OpenShare? && operations[j].OpenShare? ==>
          operations[i].eventId != operations[j].eventId)
    && (forall i :: 0 <= i < |operations| ==> LinkIsValid(operations[i]))
  }

  /** Messages and commits add no AddShare event but their own. */
  lemma InsertAdds(journal: Rooms.Journal, r: Record<Rooms.RoomEvent>, id: nat)
    ensures Rooms.Adds(Insert(journal, r), id) ==> Rooms.Adds(journal, id) || (r.event.AddShare? && r.event.objId == id)
  {
    InsertFrom(journal, r);
  }

  /** An id unused before is unused after, whatever the room does, unless the operation opens a share under it. */
  lemma StepKeepsUnused<P>(notStarted: P, original: Rooms.Room, life: RoomLife, operation: RoomOperation, id: nat)
    requires LifeOk(Rooms.RoomModel(notStarted), original, life) && HistoryOk(notStarted, life.base, life.journal)
    requires Unused(life.base, life.journal, id) && !(operation.OpenShare? && operation.eventId == id)
    ensures var after := StepRoomLife(notStarted, life, operation); Unused(after.base, after.journal, id)
  {
    hide Insert, Accepts, LifeOk, CommitTime, IsCollapsible, FirstRetained, Rooms.AssertsHold, Rooms.CanApplyRoom;
    hide Rooms.ApplyRoom;
    var m := Rooms.RoomModel(notStarted);
    var op := OperationOf(SharesOf(notStarted, life), operation);
    if op.Compact? {
      var k := Collapsible(life.policy, life.blocked, life.journal, op.now);
      CollapsibleIs(life.policy, life.blocked, life.journal, op.now, k);
      CompactedLength(life.policy, life.blocked, life.journal, op.now, k);
      CompactKeepsUnused(notStarted, life.base, life.journal, k, id);
    } else {
      AddedIsAccepted(m, original, life, op);
      var added := Added(m, life, op);
      if added == [] {
      } else {
        assert added == [added[0]];
        InsertOne(life.journal, added[0]);
        InsertAdds(life.journal, added[0], id);
      }
    }
  }

  lemma CompactKeepsUnused<P>(notStarted: P, base: Rooms.Room, journal: Rooms.Journal, k: nat, id: nat)
    requires HistoryOk(notStarted, base, journal) && Unused(base, journal, id) && k <= |journal|
    ensures Unused(Rooms.Replayed(notStarted, base, journal[..k]), journal[k..], id)
  {
    AdmissiblePrefix(Rooms.StrictModel(notStarted), base, journal, k);
    Rooms.TopologyKept(notStarted, base, journal[..k]);
    AddsInPart(journal, k, id);
  }

  lemma AddsInPart(journal: Rooms.Journal, k: nat, id: nat)
    requires k <= |journal|
    ensures Rooms.Adds(journal[..k], id) || Rooms.Adds(journal[k..], id) ==> Rooms.Adds(journal, id)
  {
    if i :| 0 <= i < k && journal[..k][i].event.AddShare? && journal[..k][i].event.objId == id {
      assert journal[i].event.objId == id;
    } else if i :| 0 <= i < |journal[k..]| && journal[k..][i].event.AddShare? && journal[k..][i].event.objId == id {
      assert journal[k + i].event.objId == id;
    }
  }

  // ----- the object -----

  /** The room is sound and is the life. */
  ghost predicate LivesRoom<P>(notStarted: P, room: LiveRoom<P>, original: Rooms.Room, life: RoomLife)
    reads room
  {
    RoomOk(notStarted, room) && Lives(room, original, life)
  }

  lemma CommitOf<P>(notStarted: P, original: Rooms.Room, life: RoomLife, event: Rooms.RoomEvent, now: U64)
    requires LifeOk(Rooms.RoomModel(notStarted), original, life) && !event.MessageAdded?
    ensures StepLife(Rooms.RoomModel(notStarted), life, Commit(event, now))
         == life.(journal := if CommitTime(now, life.journal) == 0 then life.journal
             else Committed(event, now, life.journal))
  {
    hide LifeOk, InsertAll, CommitTime;
    AddedIsAccepted(Rooms.RoomModel(notStarted), original, life, Commit(event, now));
    assert life.journal + [] == life.journal;
  }

  lemma NothingAdded<S, L, E>(m: Model<S, L, E>, life: Life<S, E>)
    ensures StepLife(m, life, EnsureCurrent) == life && StepLife(m, life, NodeRuns.Rebuild) == life
  {
  }

  lemma LifeOfRoom<P>(notStarted: P, room: LiveRoom<P>, original: Rooms.Room, life: RoomLife)
    requires LivesRoom(notStarted, room, original, life)
    ensures RoomOk(notStarted, room) && room.model == Rooms.RoomModel(notStarted)
    ensures life == Life(room.base, life.collapsed, room.journal, room.policy, room.compactionBlocked)
    ensures room.fields.shares == SharesOf(notStarted, life)
    ensures LifeOk(Rooms.RoomModel(notStarted), original, life) && HistoryOk(notStarted, life.base, life.journal)
  {
  }

  /** A sound room with the base, journal and settings of the next life lives it. */
  lemma LivesOn<P>(notStarted: P, room: LiveRoom<P>, original: Rooms.Room, life: RoomLife, operation: RoomOperation)
    requires RoomOk(notStarted, room) && LifeOk(Rooms.RoomModel(notStarted), original, life)
    requires var next := StepRoomLife(notStarted, life, operation);
             next == Life(room.base, next.collapsed, room.journal, room.policy, room.compactionBlocked)
    ensures LivesRoom(notStarted, room, original, StepRoomLife(notStarted, life, operation))
  {
    StepKeepsLife(Rooms.RoomModel(notStarted), original, life, OperationOf(SharesOf(notStarted, life), operation));
  }

  /** The next life after a topology operation. */
  lemma TopologyLife<P>(notStarted: P, original: Rooms.Room, life: RoomLife, operation: RoomOperation)
    requires operation.OpenShare? || operation.CloseShare? || operation.SetAccess?
    requires LifeOk(Rooms.RoomModel(notStarted), original, life)
    ensures var event := CommittedBy(SharesOf(notStarted, life), operation);
            StepRoomLife(notStarted, life, operation) ==
              if event.None? || CommitTime(operation.now, life.journal) == 0 then life
              else life.(journal := Committed(event.value, operation.now, life.journal))
  {
    hide LifeOk, StepLife, CommitTime, Committed, SharesOf;
    var event := CommittedBy(SharesOf(notStarted, life), operation);
    if event.Some? {
      CommitOf(notStarted, original, life, event.value, operation.now);
    } else {
      NothingAdded(Rooms.RoomModel(notStarted), life);
    }
  }

  ghost predicate Shared(shares: seq<Rooms.Share>, link: nat) {
    exists i :: 0 <= i < |shares| && shares[i].link == link
  }

  /**
  What a topology operation makes of the shares, where its commit time does not wrap: a new share behind the
  others unless the Link has one, all but the Link's, or the same with the Link's access changed.
   */
  lemma TopologyShares<P>(notStarted: P, original: Rooms.Room, life: RoomLife, operation: RoomOperation)
    requires LifeOk(Rooms.RoomModel(notStarted), original, life) && HistoryOk(notStarted, life.base, life.journal)
    requires operation.OpenShare? || operation.CloseShare? || operation.SetAccess?
    requires operation.link != 0 && CommitTime(operation.now, life.journal) != 0
    ensures var shares := SharesOf(notStarted, life);
            var after := SharesOf(notStarted, StepRoomLife(notStarted, life, operation));
            match operation
            case OpenShare(link, access, eventId, _) =>
              after == if Shared(shares, link) then shares else shares + [Rooms.Share(eventId, link, access)]
            case CloseShare(link, _) => forall s :: s in after <==> s in shares && s.link != link
            case SetAccess(link, access, _) =>
              && |after| == |shares|
              && forall i :: 0 <= i < |shares| ==>
                   after[i] == if shares[i].link == link then Rooms.Share(shares[i].shareId, link, access)
                       else shares[i]
  {
    hide LifeOk, StepRoomLife, CommitTime, HistoryOk, SharesOf, CommittedBy, Rooms.ApplyRoom;
    var room := Rooms.Replayed(notStarted, life.base, life.journal);
    CommittedShares(notStarted, original, life, operation);
    DistinctNow(notStarted, life);
    match operation {
      case OpenShare(link, access, eventId, now) => Opened(room, operation);
      case CloseShare(link, now) => Closed(room, operation);
      case SetAccess(link, access, now) => Changed(room, operation);
    }
  }

  /** Opening a shared Link, closing one that is not, or giving it the access it has leaves no event behind. */
  lemma NothingToChange<P>(notStarted: P, original: Rooms.Room, life: RoomLife, operation: RoomOperation)
    requires operation.OpenShare? || operation.CloseShare? || operation.SetAccess?
    requires LifeOk(Rooms.RoomModel(notStarted), original, life) && operation.link != 0
    requires operation.OpenShare? ==> Shared(SharesOf(notStarted, life), operation.link)
    requires operation.CloseShare? ==> !Shared(SharesOf(notStarted, life), operation.link)
    requires operation.SetAccess? ==> forall s :: s in SharesOf(notStarted, life) && s.link == operation.link ==>
               s.access == operation.access
    ensures StepRoomLife(notStarted, life, operation) == life
  {
    hide LifeOk, StepRoomLife, CommitTime, SharesOf;
    TopologyLife(notStarted, original, life, operation);
    var shares := SharesOf(notStarted, life);
    var k := Rooms.FindShareIndex(shares, operation.link);
    assert k < |shares| ==> shares[k] in shares && shares[k].link == operation.link;
  }

  lemma DistinctNow<P>(notStarted: P, life: RoomLife)
    requires HistoryOk(notStarted, life.base, life.journal)
    ensures SharesOf(notStarted, life) == Rooms.Replayed(notStarted, life.base, life.journal).shares
    ensures Rooms.DistinctShares(SharesOf(notStarted, life))
  {
    Rooms.TopologyKept(notStarted, life.base, life.journal);
  }

  /** The commit is applied last. */
  lemma CommittedShares<P>(notStarted: P, original: Rooms.Room, life: RoomLife, operation: RoomOperation)
    requires operation.OpenShare? || operation.CloseShare? || operation.SetAccess?
    requires LifeOk(Rooms.RoomModel(notStarted), original, life) && CommitTime(operation.now, life.journal) != 0
    ensures var room := Rooms.Replayed(notStarted, life.base, life.journal);
            var event := CommittedBy(room.shares, operation);
            SharesOf(notStarted, StepRoomLife(notStarted, life, operation)) ==
              if event.None? then room.shares else Rooms.ApplyRoom(room, event.value).shares
  {
    hide LifeOk, StepRoomLife, CommitTime, CommittedBy, Rooms.ApplyRoom;
    TopologyLife(notStarted, original, life, operation);
    var event := CommittedBy(SharesOf(notStarted, life), operation);
    if event.Some? {
      var committed := Committed(event.value, operation.now, life.journal);
      AppendAdmissible(Rooms.RoomModel(notStarted), life.base, life.journal, committed[|life.journal|]);
    }
  }

  lemma Opened(room: Rooms.Room, operation: RoomOperation)
    requires operation.OpenShare? && operation.link != 0
    ensures var event := CommittedBy(room.shares, operation);
            (if event.None? then room.shares else Rooms.ApplyRoom(room, event.value).shares) ==
            if Shared(room.shares, operation.link) then room.shares
            else room.shares + [Rooms.Share(operation.eventId, operation.link, operation.access)]
  {
  }

  lemma Closed(room: Rooms.Room, operation: RoomOperation)
    requires operation.CloseShare? && operation.link != 0 && Rooms.DistinctShares(room.shares)
    ensures var event := CommittedBy(room.shares, operation);
            var after := if event.None? then room.shares else Rooms.ApplyRoom(room, event.value).shares;
            forall s :: s in after <==> s in room.shares && s.link != operation.link
  {
    hide Rooms.Erase;
    var k := Rooms.FindShareIndex(room.shares, operation.link);
    if k < |room.shares| {
      ErasedLink(room.shares, k);
    }
  }

  lemma Changed(room: Rooms.Room, operation: RoomOperation)
    requires operation.SetAccess? && operation.link != 0 && Rooms.DistinctShares(room.shares)
    ensures var event := CommittedBy(room.shares, operation);
            var after := if event.None? then room.shares else Rooms.ApplyRoom(room, event.value).shares;
            && |after| == |room.shares|
            && forall i :: 0 <= i < |room.shares| ==>
                 after[i] == if room.shares[i].link == operation.link
                             then Rooms.Share(room.shares[i].shareId, operation.link, operation.access)
                             else room.shares[i]
  {
    var k := Rooms.FindShareIndex(room.shares, operation.link);
    if k < |room.shares| {
      ErasedLink(room.shares, k);
    }
  }

  /** The three topology operations. */
  method StepTopology<P>(ghost notStarted: P, room: LiveRoom<P>, operation: RoomOperation,
      ghost original: Rooms.Room, ghost life: RoomLife)
    requires operation.OpenShare? || operation.CloseShare? || operation.SetAccess?
    requires LivesRoom(notStarted, room, original, life) && operation.link != Rooms.NO_LINK
    requires operation.OpenShare? ==> Unused(room.base, room.journal, operation.eventId)
    modifies room
    ensures LivesRoom(notStarted, room, original, StepRoomLife(notStarted, life, operation))
  {
    hide RoomOk, LivesRoom, LifeOk, HistoryOk, StepRoomLife, SharesOf, Committed, Unused;
    LifeOfRoom(notStarted, room, original, life);
    TopologyLife(notStarted, original, life, operation);
    var committed;
    match operation {
      case OpenShare(link, access, eventId, now) =>
        committed := AddShare(notStarted, room, link, access, eventId, now);
      case CloseShare(link, now) =>
        committed := RemoveShare(notStarted, room, link, now);
      case SetAccess(link, access, now) =>
        var index := Rooms.LocateLink(room.fields.shares, link);
        if index < |room.fields.shares| {
          assert room.fields.shares[index].link == link;
          committed := SetShareAccess(notStarted, room, link, access, now);
        }
    }
    LivesOn(notStarted, room, original, life, operation);
  }

  method StepReceive<P>(ghost notStarted: P, room: LiveRoom<P>, operation: RoomOperation,
      ghost original: Rooms.Room, ghost life: RoomLife) returns (ok: bool)
    requires LivesRoom(notStarted, room, original, life)
    requires operation.Receive?
    modifies room
    ensures ok <==> !EndsRoom(notStarted, life, operation)
    ensures ok ==> LivesRoom(notStarted, room, original, StepRoomLife(notStarted, life, operation))
  {
    hide RoomOk, LivesRoom, LifeOk, HistoryOk, StepRoomLife, EndsRoom, SharesOf, Insert, LowerBound, Identities;
    LifeOfRoom(notStarted, room, original, life);
    EndsRoomIff(notStarted, life, operation);
    MessageAddition(notStarted, life, operation);
    var Receive(message, usable, now) := operation;
    var mayEnd := && usable && Malformed(message) && message.id.IsShared() && message.timestampUs != 0
                  && message.id !in Identities(room.journal)
                  && LowerBound(room.journal, message.timestampUs) < |room.journal|;
    var inserted := InsertMessage(notStarted, room, message, usable, now);
    ok := inserted || !mayEnd;
    if ok {
      LivesOn(notStarted, room, original, life, operation);
    }
  }

  method StepCompactRoom<P>(ghost notStarted: P, room: LiveRoom<P>, operation: RoomOperation,
      ghost original: Rooms.Room, ghost life: RoomLife)
    requires LivesRoom(notStarted, room, original, life) && operation.CompactRoom?
    modifies room
    ensures LivesRoom(notStarted, room, original, StepRoomLife(notStarted, life, operation))
  {
    hide RoomOk, LivesRoom, LifeOk, HistoryOk, SharesOf, IsCollapsible, FirstRetained;
    LifeOfRoom(notStarted, room, original, life);
    SharedNodes.Compact(notStarted, room, operation.now);
    ghost var k: nat :| k <= |life.journal| &&
        IsCollapsible(room.policy, room.compactionBlocked, life.journal, operation.now, k)
                        && room.base == Fold(room.model, life.base, life.journal[..k])
                        && room.journal == life.journal[k..];
    CollapsibleIs(life.policy, life.blocked, life.journal, operation.now, k);
    CompactedLength(life.policy, life.blocked, life.journal, operation.now, k);
    LivesOn(notStarted, room, original, life, operation);
  }

  lemma MessageAddition<P>(notStarted: P, life: RoomLife, operation: RoomOperation)
    requires HistoryOk(notStarted, life.base, life.journal)
    requires operation.Receive?
    ensures var m := operation.message;
            StepRoomLife(notStarted, life, operation) ==
              if operation.usable && m.id.IsShared() && m.timestampUs != 0 && !Malformed(m) &&
                  m.id !in Identities(life.journal)
              then life.(journal := Insert(life.journal,
                  Record(Rooms.MessageAdded(m), m.id, m.timestampUs, operation.now)))
              else life
  {
    var m := operation.message;
    var r := Record(Rooms.MessageAdded(m), m.id, m.timestampUs, operation.now);
    AcceptedIff(notStarted, life.base, life.journal, r);
    InsertOne(life.journal, r);
  }

  /**
  One operation of the room: it stays sound, with exactly one sync state per open share, and moves on to the
  next life, unless the operation discards it.
   */
  method StepRoom<P>(ghost notStarted: P, room: LiveRoom<P>, operation: RoomOperation,
      ghost original: Rooms.Room, ghost life: RoomLife) returns (ok: bool)
    requires LivesRoom(notStarted, room, original, life)
    requires operation.OpenShare? ==> Unused(room.base, room.journal, operation.eventId)
    requires LinkIsValid(operation)
    modifies room
    ensures ok <==> !EndsRoom(notStarted, life, operation)
    ensures ok ==> LivesRoom(notStarted, room, original, StepRoomLife(notStarted, life, operation))
  {
    hide RoomOk, LivesRoom, LifeOk, HistoryOk, SharesOf, StepLife, Identities, LowerBound, EndsRoom;
    LifeOfRoom(notStarted, room, original, life);
    EndsRoomIff(notStarted, life, operation);
    ok := true;
    match operation {
      case Receive(message, usable, now) =>
        ok := StepReceive(notStarted, room, operation, original, life);
      case CompactRoom(now) =>
        StepCompactRoom(notStarted, room, operation, original, life);
      case RebuildRoom =>
        NothingAdded(Rooms.RoomModel(notStarted), life);
        SharedNodes.Rebuild(notStarted, room);
        LivesOn(notStarted, room, original, life, operation);
      case _ =>
        StepTopology(notStarted, room, operation, original, life);
    }
  }

  /**
  Run the operations on a sound room, from its creation or its import on. It stays sound: replay trips no
  assertion, and each open share has exactly one sync state. Its base, journal and history are those of
  RunRoomLife. It stops only in front of an operation that discards it.
   */
  method RunRoom<P>(ghost notStarted: P, room: LiveRoom<P>, operations: seq<RoomOperation>) returns (done: nat)
    requires RoomOk(notStarted, room) && FreshOperations(room.base, room.journal, operations)
    modifies room
    ensures done <= |operations|
    ensures done < |operations| ==>
              operations[done].Receive? && operations[done].usable && Malformed(operations[done].message)
    ensures var life := Life(old(room.base), [], old(room.journal), old(room.policy), old(room.compactionBlocked));
            && (forall i :: 0 <= i < done ==>
                !EndsRoom(notStarted, RunRoomLife(notStarted, life, operations[..i]), operations[i]))
            && (done < |operations| ==>
                EndsRoom(notStarted, RunRoomLife(notStarted, life, operations[..done]), operations[done]))
            && (done == |operations| ==>
                LivesRoom(notStarted, room, old(room.base), RunRoomLife(notStarted, life, operations)))
  {
    hide Lives, StepRoomLife, EndsRoom, RoomOk, Unused;
    ghost var original, life := room.base, Life(room.base, [], room.journal, room.policy, room.compactionBlocked);
    assert RoomOk(notStarted, room);
    BeginRoom(notStarted, room);
    assert operations[..0] == [];
    for i := 0 to |operations|
      invariant LivesRoom(notStarted, room, original, RunRoomLife(notStarted, life, operations[..i]))
      invariant forall j :: i <= j < |operations| && operations[j].OpenShare? ==>
                  Unused(RunRoomLife(notStarted, life, operations[..i]).base,
                      RunRoomLife(notStarted, life, operations[..i]).journal,
                         operations[j].eventId)
      invariant forall j :: 0 <= j < i ==>
                !EndsRoom(notStarted, RunRoomLife(notStarted, life, operations[..j]), operations[j])
    {
      assert operations[..i + 1][..i] == operations[..i];
      ghost var now := RunRoomLife(notStarted, life, operations[..i]);
      LifeOfRoom(notStarted, room, original, now);
      forall j | i < j < |operations| && operations[j].OpenShare?
        ensures var after := StepRoomLife(notStarted, now, operations[i]); Unused(after.base, after.journal,
                  operations[j].eventId)
      {
        StepKeepsUnused(notStarted, original, now, operations[i], operations[j].eventId);
      }
      var ok := StepRoom(notStarted, room, operations[i], original, now);
      if !ok {
        EndsRoomIff(notStarted, now, operations[i]);
        return i;
      }
    }
    assert operations[..|operations|] == operations;
    done := |operations|;
  }

  lemma BeginRoom<P>(notStarted: P, room: LiveRoom<P>)
    requires RoomOk(notStarted, room)
    ensures LivesRoom(notStarted, room, room.base,
              Life(room.base, [], room.journal, room.policy, room.compactionBlocked))
  {
    Beginning(room);
  }

  const NEW_LIFE: RoomLife := Life(Rooms.Room([], []), [], [], RetentionPolicy(None, None), false)

  /** From creation: every room the operations can reach has exactly one sync state per open share. */
  method RunNewRoom<P>(notStarted: P, operations: seq<RoomOperation>) returns (room: LiveRoom<P>, done: nat)
    requires FreshOperations(Rooms.Room([], []), [], operations)
    ensures done <= |operations|
    ensures done == |operations| ==>
              LivesRoom(notStarted, room, Rooms.Room([], []), RunRoomLife(notStarted, NEW_LIFE, operations))
    ensures done < |operations| ==>
              operations[done].Receive? && operations[done].usable && Malformed(operations[done].message)
  {
    hide RoomOk, FreshOperations, LivesRoom, RunRoomLife, EndsRoom;
    room := Create(notStarted);
    done := RunRoom(notStarted, room, operations);
  }
}
