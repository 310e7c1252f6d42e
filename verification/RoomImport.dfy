/** Import of a room from a network snapshot: the admission checks on the scratch candidate, and its replay. */
module RoomImports {
  import opened Basics
  import opened EventJournal
  import opened Nodes
  import opened LinkSync
  import opened SharedNodes
  import R = Replication
  import Rooms = ChatRooms

  /** Transport address of each Link that is loaded. */
  type Endpoints = map<nat, Uid>

  ghost predicate EndsAt(endpoints: Endpoints, share: Rooms.Share, uid: Uid) {
    share.link != 0 && share.link in endpoints && endpoints[share.link] == uid
  }

  /** The address a share ends at, if its Link is valid and loaded. */
  function ShareEndpoint(endpoints: Endpoints, share: Rooms.Share): (endpoint: Option<Uid>)
    ensures forall uid :: endpoint == Some(uid) <==> EndsAt(endpoints, share, uid)
  {
    if share.link == Rooms.NO_LINK || share.link !in endpoints then None else Some(endpoints[share.link])
  }

  ghost predicate Knows(endpoints: Endpoints, shares: seq<Rooms.Share>, uid: Uid) {
    exists i :: 0 <= i < |shares| && EndsAt(endpoints, shares[i], uid)
  }

  /** The share is the only one that ends at `uid`. */
  ghost predicate OnlyShareOf(endpoints: Endpoints, shares: seq<Rooms.Share>, uid: Uid, i: nat) {
    && i < |shares|
    && forall k :: 0 <= k < |shares| ==> (EndsAt(endpoints, shares[k], uid) <==> k == i)
  }

  /** Every relationship has an id of its own and a Link with an address. */
  ghost predicate SharesUsable(endpoints: Endpoints, shares: seq<Rooms.Share>) {
    && (forall i :: 0 <= i < |shares| ==>
          shares[i].shareId != 0 && shares[i].link != Rooms.NO_LINK && shares[i].link in endpoints &&
              endpoints[shares[i].link] != "")
    && (forall i, j :: 0 <= i < j < |shares| ==> shares[i].shareId != shares[j].shareId)
  }

  /** The snapshot is for `self`, from another participant, over the relationship it names. */
  ghost predicate Addressed(endpoints: Endpoints, shares: seq<Rooms.Share>, self: Uid, source: Uid, destination: nat) {
    && source != self
    && (exists i :: 0 <= i < |shares| && shares[i].shareId == destination && EndsAt(endpoints, shares[i], self))
    && Knows(endpoints, shares, source)
  }

  method CheckShares(endpoints: Endpoints, shares: seq<Rooms.Share>) returns (ok: bool)
    ensures ok <==> SharesUsable(endpoints, shares)
  {
    for i := 0 to |shares|
      invariant forall k :: 0 <= k < i ==>
                  shares[k].shareId != 0 && shares[k].link != Rooms.NO_LINK && shares[k].link in endpoints &&
                      endpoints[shares[k].link] != ""
      invariant forall j, k :: 0 <= j < k < i ==> shares[j].shareId != shares[k].shareId
    {
      if shares[i].shareId == 0 {
        return false;
      }
      var first := Rooms.LocateShare(shares, shares[i].shareId);
      if first != i {
        assert first < i && shares[first].shareId == shares[i].shareId;
        return false;
      }
      var endpoint := ShareEndpoint(endpoints, shares[i]);
      if endpoint.None? || endpoint.value == "" {
        return false;
      }
    }
    ok := true;
  }

  method TopologyKnowsEndpoint(endpoints: Endpoints, shares: seq<Rooms.Share>, uid: Uid) returns (known: bool)
    ensures known <==> Knows(endpoints, shares, uid)
  {
    for i := 0 to |shares|
      invariant forall k :: 0 <= k < i ==> !EndsAt(endpoints, shares[k], uid)
    {
      if ShareEndpoint(endpoints, shares[i]) == Some(uid) {
        return true;
      }
    }
    known := false;
  }

  /** The first share with the relationship id decides; with distinct ids it is the only one. */
  method AddressedToThisReplica(endpoints: Endpoints, shares: seq<Rooms.Share>, self: Uid, source: Uid,
        destination: nat)
      returns (ok: bool)
    requires SharesUsable(endpoints, shares)
    ensures ok <==> Addressed(endpoints, shares, self, source, destination)
  {
    if source == self {
      return false;
    }
    var i := Rooms.LocateShare(shares, destination);
    if i >= |shares| || ShareEndpoint(endpoints, shares[i]) != Some(self) {
      return false;
    }
    ok := TopologyKnowsEndpoint(endpoints, shares, source);
  }

  /** The counting loop over the shares of the source's endpoint. */
  method SourceShare(endpoints: Endpoints, shares: seq<Rooms.Share>, source: Uid) returns (index: Option<nat>)
    ensures index.Some? ==> OnlyShareOf(endpoints, shares, source, index.value)
    ensures index.None? ==> forall i: nat :: !OnlyShareOf(endpoints, shares, source, i)
  {
    var matching, last := 0, 0;
    for i := 0 to |shares|
      invariant matching == 0 <==> forall k :: 0 <= k < i ==> !EndsAt(endpoints, shares[k], source)
      invariant matching > 0 ==> last < i && EndsAt(endpoints, shares[last], source)
      invariant matching == 1 ==> forall k :: 0 <= k < i && EndsAt(endpoints, shares[k], source) ==> k == last
      invariant matching > 1 ==> exists k :: 0 <= k < last && EndsAt(endpoints, shares[k], source)
      invariant matching >= 0
    {
      if ShareEndpoint(endpoints, shares[i]) == Some(source) {
        matching := matching + 1;
        last := i;
      }
    }
    index := if matching == 1 then Some(last) else None;
    if matching != 1 {
      forall i: nat ensures !OnlyShareOf(endpoints, shares, source, i) {
        assert i < |shares| && !EndsAt(endpoints, shares[i], source) ==> !OnlyShareOf(endpoints, shares, source, i);
      }
    }
  }

  /** What the checks on the replayed scratch candidate demand of its topology and sync states. */
  ghost predicate Admitted<P>(endpoints: Endpoints, shares: seq<Rooms.Share>, states: seq<Rooms.SyncEntry<P>>,
      self: Uid, source: Uid, destination: nat)
  {
    && SharesUsable(endpoints, shares)
    && Addressed(endpoints, shares, self, source, destination)
    && exists i: nat :: OnlyShareOf(endpoints, shares, source, i) && Rooms.Listed(states, shares[i].shareId)
  }

  /**
  Import of the snapshot's base and journal. The candidate is replayed from its base, with the states
  that travelled along, which are none; it is refused when a record cannot be applied at its point or
  the topology is not admitted, and otherwise becomes the replayed room.
   */
  method ImportRoom<P>(notStarted: P, base: Rooms.Room, journal: Rooms.Journal, fields: Rooms.Room,
      entries: seq<Option<Rooms.SyncEntry<P>>>, endpoints: Endpoints, self: Uid, source: Uid, destination: nat)
      returns (room: Option<LiveRoom<P>>)
    ensures var states := FoldLocal(Rooms.RoomModel(notStarted), base, Rooms.Present(entries), journal);
            && (room.Some? <==>
                  && PositiveTimes(journal) && Admissible(Rooms.RoomModel(notStarted), base, journal)
                  && Admitted(endpoints, Rooms.Replayed(notStarted, base, journal).shares, states, self, source,
                      destination))
            && (room.Some? ==>
                  && fresh(room.value) && room.value.model == Rooms.RoomModel(notStarted)
                  && room.value.base == base && room.value.journal == journal
                  && room.value.fields == Rooms.Replayed(notStarted, base, journal) && room.value.local == states
                  && room.value.cursor == Applied(|journal|) && !room.value.suppressChange)
  {
    hide Admissible, Fold, FoldLocal, Rooms.Listed, SharesUsable, Addressed, OnlyShareOf;
    room := None;
    for i := 0 to |journal|
      invariant forall k :: 0 <= k < i ==> 0 < journal[k].timestampUs
    {
      if journal[i].timestampUs == 0 {
        return;
      }
    }
    var stash := Rooms.StashLocalPersistent(entries);
    var candidate := new Node.Loaded(Rooms.RoomModel(notStarted), base, journal, fields, stash);
    var replayed := candidate.TryRebuildFromBaseAndReplay();
    if !replayed {
      return;
    }
    var usable := CheckShares(endpoints, candidate.fields.shares);
    if !usable {
      return;
    }
    var addressed := AddressedToThisReplica(endpoints, candidate.fields.shares, self, source, destination);
    if !addressed {
      return;
    }
    var index := SourceShare(endpoints, candidate.fields.shares, source);
    if index.None? {
      return;
    }
    OnlyOne(endpoints, candidate.fields.shares, source, index.value);
    var id := candidate.fields.shares[index.value].shareId;
    Rooms.FindsListed(candidate.local, id);
    var has := HasSync(candidate.local, id);
    if has {
      room := Some(candidate);
    }
  }

  lemma OnlyOne(endpoints: Endpoints, shares: seq<Rooms.Share>, source: Uid, i: nat)
    requires OnlyShareOf(endpoints, shares, source, i)
    ensures i < |shares| && forall k: nat :: OnlyShareOf(endpoints, shares, source, k) ==> k == i
  {
    forall k: nat | OnlyShareOf(endpoints, shares, source, k) ensures k == i {
      assert EndsAt(endpoints, shares[k], source);
    }
  }

  method HasSync<P>(states: seq<Rooms.SyncEntry<P>>, id: nat) returns (has: bool)
    ensures has <==> Rooms.Listed(states, id)
  {
    for i := 0 to |states|
      invariant forall k :: 0 <= k < i ==> states[k].shareId != id
    {
      if states[i].shareId == id {
        return true;
      }
    }
    has := false;
  }

  /**
  A sound room's snapshot, addressed to this replica, is refused exactly when the source's share stands
  in the base: no sync state comes with a snapshot, and replay makes none for a share it does not
  open. If it is admitted, the state the receipt is to be noted in exists exactly when the destination's
  share does not stand there either.
   */
  lemma AdmittedIff<P>(notStarted: P, base: Rooms.Room, journal: Rooms.Journal, endpoints: Endpoints,
      self: Uid, source: Uid, destination: nat, i: nat)
    requires HistoryOk(notStarted, base, journal)
    requires var shares := Rooms.Replayed(notStarted, base, journal).shares;
             && SharesUsable(endpoints, shares) && Addressed(endpoints, shares, self, source, destination)
             && OnlyShareOf(endpoints, shares, source, i)
    ensures var shares := Rooms.Replayed(notStarted, base, journal).shares;
            var states := FoldLocal(Rooms.RoomModel(notStarted), base, [], journal);
            && (Admitted(endpoints, shares, states, self, source, destination) <==>
                !Rooms.Open(base.shares, shares[i].shareId))
            && (Rooms.Listed(states, destination) <==> !Rooms.Open(base.shares, destination))
  {
    hide SharesUsable, Fold, FoldLocal, Rooms.Listed, OnlyShareOf, Rooms.AssertsHold, Rooms.HistoryFresh;
    hide Rooms.DistinctShares;
    var shares := Rooms.Replayed(notStarted, base, journal).shares;
    Rooms.ImportedStates(notStarted, base, journal);
    OnlyOne(endpoints, shares, source, i);
    assert Rooms.Open(shares, shares[i].shareId);
    assert Rooms.Open(shares, destination);
  }

  /**
  The imported room is as sound as any other, with exactly one sync state per open share, if and only if
  no open share stands in the base; in particular when the base has none.
   */
  lemma ImportedRoomOkIff<P>(notStarted: P, room: LiveRoom<P>)
    requires room.model == Rooms.RoomModel(notStarted) && JournalOk(room.model, room.base, room.journal)
    requires HistoryOk(notStarted, room.base, room.journal)
    requires room.fields == Rooms.Replayed(notStarted, room.base, room.journal)
    requires room.local == FoldLocal(Rooms.RoomModel(notStarted), room.base, [], room.journal)
    requires room.cursor == Applied(|room.journal|) && !room.suppressChange
    ensures RoomOk(notStarted, room) <==>
              forall id :: Rooms.Open(room.base.shares, id) ==> !Rooms.Open(room.fields.shares, id)
  {
    Rooms.ImportedStates(notStarted, room.base, room.journal);
    Rooms.TopologyKept(notStarted, room.base, room.journal);
  }

  type Progress = R.Sync<Rooms.Room, Rooms.RoomEvent>

  /** What the receipt of the snapshot notes in the state of the relationship with `q`. */
  function Noted(progress: Progress, q: Uid, self: Uid, source: Uid, packetId: nat, journal: Rooms.Journal): Progress {
    if q == self then ApplySync(progress, NoteInitialSyncReceived(packetId))
    else if q == source then ApplySync(progress, CompleteFromReceivedSnapshot(R.IdentitySeq(journal)))
    else progress
  }

  /**
  The states the replication system gives an imported node are those replay makes: for each endpoint
  whose share the journal opens there is exactly one, the one just opened, with the receipt noted in it.
   */
  lemma ImportedStatesAreReplayed<L>(cfg: R.Config<Rooms.Room, L, Rooms.RoomEvent>, base: Rooms.Room,
        journal: Rooms.Journal,
      self: Uid, source: Uid, packetId: nat, q: Uid, id: nat)
    requires HistoryOk<Progress>(Fresh(), base, journal) && q in cfg.endpoints && self != source
    requires Rooms.Open(Rooms.Replayed<Progress>(Fresh(), base, journal).shares, id) && !Rooms.Open(base.shares, id)
    ensures var states := FoldLocal(Rooms.RoomModel<Progress>(Fresh()), base, [], journal);
            var imported := R.Imported(cfg, self, source, packetId, base, journal);
            exists i :: 0 <= i < |states| && states[i].shareId == id
                        && (forall k :: 0 <= k < |states| && states[k].shareId == id ==> k == i)
                        && imported.sync[q] == Noted(states[i].progress, q, self, source, packetId, journal)
  {
    Rooms.ReplayFromBaseStates<Progress>(Fresh(), base, journal, []);
    Rooms.ImportedStates<Progress>(Fresh(), base, journal);
    var states := FoldLocal(Rooms.RoomModel<Progress>(Fresh()), base, [], journal);
    assert Rooms.Listed(states, id);
    var i :| 0 <= i < |states| && states[i].shareId == id;
    assert states[i] in states;
  }
}
