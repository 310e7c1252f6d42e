/** Operations of a live shared room, and what replication means for its timeline. */
module SharedNodes {
  import opened Basics
  import opened EventJournal
  import opened Nodes
  import opened Replication
  import opened ReplicationInvariant
  import opened ReplicationSteps
  import opened Convergence
  import Rooms = ChatRooms

  type LiveRoom<P> = Node<Rooms.Room, seq<Rooms.SyncEntry<P>>, Rooms.RoomEvent>

  /**
  What every reachable room satisfies: a valid node whose replay never trips an assertion, with open
  shares of distinct ids and Links, and exactly one sync state per open share.
   */
  ghost predicate RoomOk<P>(notStarted: P, room: LiveRoom<P>)
    reads room
  {
    && room.Valid()
    && room.model == Rooms.RoomModel(notStarted)
    && HistoryOk(notStarted, room.base, room.journal)
    && Rooms.DistinctShares(room.fields.shares)
    && Rooms.StatesMatch(room.local, room.fields.shares)
  }

  ghost predicate HistoryOk<P>(notStarted: P, base: Rooms.Room, journal: Rooms.Journal) {
    && Rooms.DistinctShares(base.shares)
    && Rooms.AssertsHold(notStarted, base, journal)
    && Rooms.HistoryFresh(base, journal)
  }

  /** An object id no relationship of this node has had. */
  ghost predicate Unused(base: Rooms.Room, journal: Rooms.Journal, id: nat) {
    !Rooms.Open(base.shares, id) && !Rooms.Adds(journal, id)
  }

  lemma AppendAsserted<P>(notStarted: P, base: Rooms.Room, journal: Rooms.Journal, r: Record<Rooms.RoomEvent>)
    requires HistoryOk(notStarted, base, journal)
    requires Rooms.Asserted(Rooms.Replayed(notStarted, base, journal), r.event)
    requires Rooms.CanApplyRoom(Rooms.Replayed(notStarted, base, journal), r.event)
    requires r.event.AddShare? ==> Unused(base, journal, r.event.objId)
    ensures HistoryOk(notStarted, base, journal + [r])
  {
    var with := journal + [r];
    assert with[..|journal|] == journal;
    Rooms.StrictFold(notStarted, base, journal);
    forall i, j | 0 <= i < j < |with| && with[i].event.AddShare? && with[j].event.AddShare?
      ensures with[i].event.objId != with[j].event.objId
    {
      if j == |journal| {
        assert journal[i].event == with[i].event;
      }
    }
  }

  /** Dropping a replayed prefix into the base keeps the history sound. */
  lemma CollapseKeepsHistory<P>(notStarted: P, base: Rooms.Room, journal: Rooms.Journal, k: nat)
    requires HistoryOk(notStarted, base, journal) && k <= |journal|
    ensures HistoryOk(notStarted, Fold(Rooms.RoomModel(notStarted), base, journal[..k]), journal[k..])
  {
    hide Rooms.DistinctShares, Rooms.HistoryFresh, Rooms.Open, Rooms.Adds;
    AdmissiblePrefix(Rooms.StrictModel(notStarted), base, journal, k);
    Rooms.StrictFold(notStarted, base, journal[..k]);
    Rooms.TopologyKept(notStarted, base, journal[..k]);
    CollapseKeepsFresh(base, Rooms.Replayed(notStarted, base, journal[..k]), journal, k);
  }

  lemma CollapseKeepsFresh(base: Rooms.Room, collapsed: Rooms.Room, journal: Rooms.Journal, k: nat)
    requires Rooms.HistoryFresh(base, journal) && k <= |journal|
    requires forall id :: Rooms.Open(collapsed.shares, id) ==>
              Rooms.Open(base.shares, id) || Rooms.Adds(journal[..k], id)
    ensures Rooms.HistoryFresh(collapsed, journal[k..])
  {
    var rest := journal[k..];
    forall i | 0 <= i < |rest| && rest[i].event.AddShare? ensures !Rooms.Open(collapsed.shares, rest[i].event.objId) {
      var id := rest[i].event.objId;
      assert rest[i] == journal[k + i];
      forall j | 0 <= j < k && journal[..k][j].event.AddShare? ensures journal[..k][j].event.objId != id {
        assert journal[j] == journal[..k][j];
      }
    }
  }

  lemma MessageKeepsHistory<P>(notStarted: P, base: Rooms.Room, journal: Rooms.Journal, r: Record<Rooms.RoomEvent>)
    requires HistoryOk(notStarted, base, journal) && r.event.MessageAdded? && Rooms.CanApplyRoom(base, r.event)
    ensures HistoryOk(notStarted, base, Insert(journal, r))
    ensures Rooms.Replayed(notStarted, base, Insert(journal, r)).shares == Rooms.Replayed(notStarted, base,
              journal).shares
  {
    hide Insert, Rooms.AssertsHold, Rooms.Replayed;
    Rooms.MessageTransparent(notStarted, base, journal, r);
    InsertAt(journal, r);
    var k, out := LowerBound(journal, r.timestampUs), Insert(journal, r);
    forall i | 0 <= i < |out|
      ensures out[i].event.AddShare? ==> i != k && out[i] == journal[if i < k then i else i - 1]
    {
    }
  }

  /** The event is part of an admissible journal, so CanApply held for it. */
  lemma AcceptedCan<P>(notStarted: P, base: Rooms.Room, journal: Rooms.Journal, r: Record<Rooms.RoomEvent>)
    requires Accepts(Rooms.RoomModel(notStarted), base, journal, r)
    ensures Rooms.CanApplyRoom(base, r.event)
  {
    var k := LowerBound(journal, r.timestampUs);
    AdmissiblePrefix(Rooms.RoomModel(notStarted), base, Insert(journal, r), k);
    InsertAt(journal, r);
  }

  /** The commit of a topology event at the end of the journal. */
  function Committed(event: Rooms.RoomEvent, now: U64, journal: Rooms.Journal): Rooms.Journal {
    journal + [Record(event, NO_IDENTITY, CommitTime(now, journal), now)]
  }

  // ----- operations -----

  /** Commit of a topology event whose assertions hold. */
  method CommitTopology<P>(ghost notStarted: P, room: LiveRoom<P>, event: Rooms.RoomEvent, now: U64) returns (ok: bool)
    requires RoomOk(notStarted, room) && !event.MessageAdded? && Rooms.Asserted(room.fields, event)
    requires event.AddShare? ==> Unused(room.base, room.journal, event.objId)
    modifies room`journal, room`fields, room`local, room`generation, room`notifications, room`cursor
    ensures RoomOk(notStarted, room)
    ensures ok <==> CommitTime(now, old(room.journal)) != 0
    ensures ok ==> room.fields == Rooms.ApplyRoom(old(room.fields), event)
                   && room.local == Rooms.ApplySync(notStarted, old(room.local), event)
                   && room.journal == Committed(event, now, old(room.journal))
    ensures !ok ==> room.journal == old(room.journal)
    ensures !ok ==> room.fields == old(room.fields) && room.local == old(room.local)
  {
    hide Rooms.ApplyRoom, Rooms.ApplySync, Rooms.Asserted, Rooms.AssertsHold, Rooms.DistinctShares;
    hide Rooms.StatesMatch, HistoryOk, JournalOk;
    ghost var journal0, local0, fields0 := room.journal, room.local, room.fields;
    ok := room.CommitInto(event, now);
    if ok {
      AppendAsserted(notStarted, room.base, journal0, room.journal[|journal0|]);
      Rooms.ApplyTopology(fields0, event);
      Rooms.ApplyKeepsMatch(notStarted, fields0, local0, event);
    }
  }

  /**
  Share the node with `link`. A Link that is already shared is left alone; otherwise the new relationship
  is identified by the event's own fresh id and starts with a not-started sync state, whatever an
  earlier relationship over the same Link had reached.
   */
  method AddShare<P>(ghost notStarted: P, room: LiveRoom<P>, link: nat, access: Rooms.Access, eventId: nat, now: U64)
        returns (ok: bool)
    requires RoomOk(notStarted, room) && Unused(room.base, room.journal, eventId) && link != Rooms.NO_LINK
    modifies room`journal, room`fields, room`local, room`generation, room`notifications, room`cursor
    ensures RoomOk(notStarted, room)
    ensures ok <==> (exists i :: 0 <= i < |old(room.fields).shares| && old(room.fields).shares[i].link == link)
                    || CommitTime(now, old(room.journal)) != 0
    ensures !ok || (exists i :: 0 <= i < |old(room.fields).shares| && old(room.fields).shares[i].link == link) ==>
              room.journal == old(room.journal) && room.fields == old(room.fields) && room.local == old(room.local)
    ensures ok && (forall i :: 0 <= i < |old(room.fields).shares| ==> old(room.fields).shares[i].link != link) ==>
              && room.journal == Committed(Rooms.AddShare(eventId, link, access), now, old(room.journal))
              && room.fields.shares == old(room.fields).shares + [Rooms.Share(eventId, link, access)]
              && room.fields.messages == old(room.fields).messages
              && room.local == old(room.local) + [Rooms.SyncEntry(eventId, link, notStarted)]
  {
    var index := Rooms.LocateLink(room.fields.shares, link);
    if index < |room.fields.shares| {
      return true;
    }
    NeverOpened(notStarted, room.base, room.journal, eventId);
    Rooms.FindsOpen(room.fields.shares, eventId);
    Rooms.ApplyKeepsMatch(notStarted, room.fields, room.local, Rooms.AddShare(eventId, link, access));
    ok := CommitTopology(notStarted, room, Rooms.AddShare(eventId, link, access), now);
  }

  lemma NeverOpened<P>(notStarted: P, base: Rooms.Room, journal: Rooms.Journal, id: nat)
    requires HistoryOk(notStarted, base, journal) && Unused(base, journal, id)
    ensures !Rooms.Open(Rooms.Replayed(notStarted, base, journal).shares, id)
  {
    Rooms.TopologyKept(notStarted, base, journal);
  }

  /** Close the relationship with `link`: its share and its sync state go, all others stay in place. */
  method RemoveShare<P>(ghost notStarted: P, room: LiveRoom<P>, link: nat, now: U64) returns (ok: bool)
    requires RoomOk(notStarted, room) && link != Rooms.NO_LINK
    modifies room`journal, room`fields, room`local, room`generation, room`notifications, room`cursor
    ensures RoomOk(notStarted, room)
    ensures ok <==> (forall i :: 0 <= i < |old(room.fields).shares| ==> old(room.fields).shares[i].link != link)
                    || CommitTime(now, old(room.journal)) != 0
    ensures ok ==> forall s :: s in room.fields.shares <==> s in old(room.fields).shares && s.link != link
    ensures ok ==> forall x :: x in room.local ==> x in old(room.local)
    ensures ok ==> forall id :: Rooms.Listed(room.local, id) <==>
              exists i ::
                  0 <= i < |old(room.fields).shares| && old(room.fields).shares[i].shareId == id &&
                  old(room.fields).shares[i].link != link
    ensures ok ==> var k := Rooms.FindShareIndex(old(room.fields).shares, link);
              room.journal == if k < |old(room.fields).shares|
                              then Committed(Rooms.RemoveShare(old(room.fields).shares[k].shareId), now,
                                  old(room.journal))
                              else old(room.journal)
    ensures !ok ==> room.journal == old(room.journal)
    ensures !ok ==> room.fields == old(room.fields) && room.local == old(room.local)
  {
    ghost var shares0, local0 := room.fields.shares, room.local;
    var index := Rooms.LocateLink(room.fields.shares, link);
    if index >= |room.fields.shares| {
      LinkShares(shares0, shares0, link);
      return true;
    }
    var id := room.fields.shares[index].shareId;
    Rooms.FindsOpen(room.fields.shares, id);
    ok := CommitTopology(notStarted, room, Rooms.RemoveShare(id), now);
    if ok {
      ErasedLink(shares0, index);
      LinkShares(shares0, room.fields.shares, link);
      ErasedFrom(local0, Rooms.FindSyncIndex(local0, id));
    }
  }

  lemma ErasedFrom<T>(s: seq<T>, k: nat)
    ensures forall x :: x in Rooms.Erase(s, k) ==> x in s
  {
  }

  /** Erasing keeps exactly the elements at the other positions. */
  lemma ErasedAt<T>(s: seq<T>, k: nat)
    requires k < |s|
    ensures |Rooms.Erase(s, k)| == |s| - 1
    ensures forall i {:trigger s[i]} :: 0 <= i < |s| && i != k ==> s[i] in Rooms.Erase(s, k)
    ensures forall i {:trigger Rooms.Erase(s, k)[i]} :: 0 <= i < |s| - 1 ==>
              Rooms.Erase(s, k)[i] == s[if i < k then i else i + 1]
  {
    var out := Rooms.Erase(s, k);
    forall i | 0 <= i < |s| && i != k ensures s[i] in out {
      assert out[if i < k then i else i - 1] == s[i];
    }
  }

  lemma ErasedLink(shares: seq<Rooms.Share>, k: nat)
    requires Rooms.DistinctShares(shares) && k < |shares|
    ensures Rooms.FindShareIndexForShare(shares, shares[k].shareId) == k
    ensures forall s :: s in Rooms.Erase(shares, k) <==> s in shares && s.link != shares[k].link
  {
    hide Rooms.Erase;
    ErasedAt(shares, k);
    var out := Rooms.Erase(shares, k);
    forall s ensures s in out <==> s in shares && s.link != shares[k].link {
      if s in out {
        var i :| 0 <= i < |out| && out[i] == s;
        assert s == shares[if i < k then i else i + 1];
      }
    }
  }

  lemma LinkShares(shares: seq<Rooms.Share>, out: seq<Rooms.Share>, link: nat)
    requires forall s :: s in out <==> s in shares && s.link != link
    ensures forall id :: Rooms.Open(out, id) <==>
              exists i :: 0 <= i < |shares| && shares[i].shareId == id && shares[i].link != link
  {
    forall id
      ensures Rooms.Open(out, id) <==>
                exists i :: 0 <= i < |shares| && shares[i].shareId == id && shares[i].link != link
    {
      if Rooms.Open(out, id) {
        var i :| 0 <= i < |out| && out[i].shareId == id;
        assert out[i] in shares;
      }
      if i :| 0 <= i < |shares| && shares[i].shareId == id && shares[i].link != link {
        assert shares[i] in out;
      }
    }
  }

  /** Change the access of the relationship with `link`; a share it has is required, nothing else changes. */
  method SetShareAccess<P>(ghost notStarted: P, room: LiveRoom<P>, link: nat, access: Rooms.Access, now: U64)
        returns (ok: bool)
    requires RoomOk(notStarted, room) && link != Rooms.NO_LINK
    requires exists i :: 0 <= i < |room.fields.shares| && room.fields.shares[i].link == link
    modifies room`journal, room`fields, room`local, room`generation, room`notifications, room`cursor
    ensures RoomOk(notStarted, room)
    ensures room.local == old(room.local) && |room.fields.shares| == |old(room.fields).shares|
    ensures !ok ==> room.fields == old(room.fields)
    ensures var share := old(room.fields).shares[Rooms.FindShareIndex(old(room.fields).shares, link)];
            && (ok <==> share.access == access || CommitTime(now, old(room.journal)) != 0)
            && room.journal == if ok && share.access != access
                            then Committed(Rooms.ChangeShareAccess(share.shareId, access), now, old(room.journal))
                            else old(room.journal)
    ensures ok ==> forall i :: 0 <= i < |room.fields.shares| ==>
              var was := old(room.fields).shares[i];
              room.fields.shares[i] == if was.link == link then was.(access := access) else was
  {
    var index := Rooms.LocateLink(room.fields.shares, link);
    if room.fields.shares[index].access == access {
      return true;
    }
    var id := room.fields.shares[index].shareId;
    ErasedLink(room.fields.shares, index);
    ok := CommitTopology(notStarted, room, Rooms.ChangeShareAccess(id, access), now);
  }

  /** CanApply refuses the message wherever it would stand. */
  predicate Malformed(message: Rooms.Message) {
    message.id.originSequence == 0 || message.text == ""
  }

  /**
  A shared message that arrives, in front of other records or behind them, changes neither topology nor
  sync states, whichever path inserts it. A rejected one changes nothing; only after a malformed one with
  its place inside the journal the object has to be discarded.
   */
  method InsertMessage<P>(ghost notStarted: P, room: LiveRoom<P>, message: Rooms.Message, usable: bool, now: U64)
        returns (ok: bool)
    requires RoomOk(notStarted, room)
    modifies room`journal, room`fields, room`local, room`generation, room`notifications, room`cursor
    ensures ok ==> RoomOk(notStarted, room)
    ensures ok ==> room.local == old(room.local) && room.fields.shares == old(room.fields).shares
    ensures ok ==> room.journal == Insert(old(room.journal),
              Record(Rooms.MessageAdded(message), message.id, message.timestampUs, now))
    ensures ok <==> usable && message.id.originUid != "" && message.id.originSequence != 0 && message.text != ""
                    && message.timestampUs != 0 && message.id !in Identities(old(room.journal))
    ensures !ok && (!usable || !Malformed(message) || !message.id.IsShared() || message.timestampUs == 0
                    || message.id in Identities(old(room.journal))
                    || LowerBound(old(room.journal), message.timestampUs) == |old(room.journal)|) ==>
              RoomOk(notStarted, room) && room.journal == old(room.journal) && room.fields == old(room.fields)
              && room.local == old(room.local)
  {
    hide Rooms.AssertsHold, Rooms.DistinctShares, Rooms.StatesMatch, Rooms.HistoryFresh, JournalOk, Insert, LowerBound;
    ghost var journal0, local0, base0 := room.journal, room.local, room.base;
    ghost var r := Record(Rooms.MessageAdded(message), message.id, message.timestampUs, now);
    AcceptedIff(notStarted, base0, journal0, r);
    ok := room.TryCommitSharedInto(Rooms.MessageAdded(message), message.id, message.timestampUs, usable, now);
    if ok {
      MessageKeepsHistory(notStarted, base0, journal0, r);
      Rooms.RebuildKeepsSync(notStarted, room.base, room.journal, local0);
    }
  }

  /** A well-formed message is accepted by every reachable room that does not have it: no replay refuses it. */
  lemma AcceptedIff<P>(notStarted: P, base: Rooms.Room, journal: Rooms.Journal, r: Record<Rooms.RoomEvent>)
    requires HistoryOk(notStarted, base, journal) && r.event.MessageAdded?
    requires r.event.message.timestampUs == r.timestampUs
    ensures Accepts(Rooms.RoomModel(notStarted), base, journal, r)
       <==> var m := r.event.message;
            m.id.originUid != "" && m.id.originSequence != 0 && m.timestampUs != 0 && m.text != ""
            && r.identity !in Identities(journal)
  {
    if Rooms.CanApplyRoom(base, r.event) {
      MessageKeepsHistory(notStarted, base, journal, r);
      Rooms.StrictFold(notStarted, base, Insert(journal, r));
    }
    if Accepts(Rooms.RoomModel(notStarted), base, journal, r) {
      AcceptedCan(notStarted, base, journal, r);
    }
  }

  /** Compaction keeps the room sound and its sync states exactly as they were. */
  method Compact<P>(ghost notStarted: P, room: LiveRoom<P>, now: U64)
    requires RoomOk(notStarted, room)
    modifies room`base, room`journal, room`fields, room`local, room`generation, room`notifications
    modifies room`cursor, room`suppressChange
    ensures RoomOk(notStarted, room)
    ensures room.fields == old(room.fields) && room.local == old(room.local) && room.generation == old(room.generation)
    ensures exists k: nat ::
              k <= |old(room.journal)| && IsCollapsible(room.policy, room.compactionBlocked, old(room.journal), now, k)
                        && room.base == Fold(room.model, old(room.base), old(room.journal)[..k])
                        && room.journal == old(room.journal)[k..]
  {
    ghost var journal0, local0, base0 := room.journal, room.local, room.base;
    Rooms.RebuildKeepsSync(notStarted, base0, journal0, local0);
    ghost var collapsed := room.CompactJournalInto(now);
    CollapseKeepsHistory(notStarted, base0, journal0, collapsed);
  }

  /** A rebuild from base gives back the room it started from, sync states included. */
  method Rebuild<P>(ghost notStarted: P, room: LiveRoom<P>)
    requires RoomOk(notStarted, room)
    modifies room`fields, room`local, room`generation, room`notifications, room`cursor
    ensures RoomOk(notStarted, room)
    ensures room.fields == old(room.fields) && room.local == old(room.local)
  {
    Rooms.RebuildKeepsSync(notStarted, room.base, room.journal, room.local);
    var rebuilt := room.TryRebuildFromBaseAndReplay();
    assert rebuilt;
  }

  /** A room that has just been initialized. */
  method Create<P>(notStarted: P) returns (room: LiveRoom<P>)
    ensures fresh(room) && RoomOk(notStarted, room)
    ensures room.base == room.fields == Rooms.Room([], []) && room.journal == [] && room.local == []
    ensures room.policy == RetentionPolicy(None, None) && !room.compactionBlocked
  {
    room := new Node(Rooms.RoomModel(notStarted), Rooms.Room([], []), []);
    assert forall id :: !Rooms.Open([], id) && !Rooms.Listed<P>([], id);
  }

  // ----- replicated rooms -----

  /** Exactly the messages of a room's journal are shared events. */
  ghost predicate IsRoomConfig<P>(notStarted: P, cfg: Config<Rooms.Room, seq<Rooms.SyncEntry<P>>, Rooms.RoomEvent>) {
    && cfg.model == Rooms.RoomModel(notStarted)
    && forall e :: cfg.shareable(e) <==> e.MessageAdded?
  }

  lemma {:induction false} SharedMessages(journal: Rooms.Journal)
    requires forall i :: 0 <= i < |journal| ==> (journal[i].identity.IsShared() <==> journal[i].event.MessageAdded?)
    ensures Rooms.MessagesIn(Facts(journal)) == Rooms.MessagesIn(Facts(SharedPart(journal)))
  {
    if journal != [] {
      var n := |journal| - 1;
      SharedMessages(journal[..n]);
      assert Facts(journal)[..n] == Facts(journal[..n]);
      if journal[n].identity.IsShared() {
        var part := SharedPart(journal[..n]);
        assert Facts(part + [journal[n]])[..|part|] == Facts(part);
      }
    }
  }

  /**
  Convergence of the timeline: in every run, two replicas of a room with nothing left to send to each
  other show the same messages in the same order, provided no two issued messages share a timestamp.
   */
  lemma RoomsAgree<P>(notStarted: P, cfg: Config<Rooms.Room, seq<Rooms.SyncEntry<P>>, Rooms.RoomEvent>, creator: Uid,
      journal: Rooms.Journal, states: seq<System<Rooms.Room, Rooms.RoomEvent>>, steps: seq<Step<Rooms.RoomEvent>>,
          k: nat, p: Uid, q: Uid)
    requires IsRoomConfig(notStarted, cfg)
    requires Run(cfg, states, steps) && Init(cfg, creator, journal, states[0]) && k < |states|
    requires p != q && Quiet(states[k], p, q) && Quiet(states[k], q, p) && IssuedApart(states[k])
    ensures var a, b := states[k].replicas[p].live.value, states[k].replicas[q].live.value;
            Rooms.Replayed(notStarted, a.base, a.journal).messages == Rooms.Replayed(notStarted, b.base,
                b.journal).messages
  {
    hide Run, Init, Rooms.Replayed;
    var s := states[k];
    var a, b := s.replicas[p].live.value, s.replicas[q].live.value;
    QuietReplicasAgree(cfg, creator, journal, states, steps, k, p, q);
    RunKeepsInv(cfg, creator, journal, states, steps, k);
    assert ReplicaOk(cfg, WorldOf(s), p, s.replicas[p]) && ReplicaOk(cfg, WorldOf(s), q, s.replicas[q]);
    Rooms.MessagesAreTheJournal(notStarted, a.base, a.journal);
    Rooms.MessagesAreTheJournal(notStarted, b.base, b.journal);
    SharedMessages(a.journal);
    SharedMessages(b.journal);
  }
}
