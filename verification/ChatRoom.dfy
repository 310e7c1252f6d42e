/**
The concrete node: a chat room, which is a shared node (Share topology plus local sync states) with a
message timeline. Instantiates the journal model.
 */
module ChatRooms {
  import opened Basics
  import opened EventJournal

  datatype Access = ReadWrite | ReadOnly

  /** One lifetime of the relationship between the node and a Link; its id is its AddShare event's id. */
  datatype Share = Share(shareId: nat, link: nat, access: Access)

  datatype Message = Message(id: SharedEventId, timestampUs: U64, text: string)

  datatype Room = Room(shares: seq<Share>, messages: seq<Message>)

  /** Local sync state of one relationship; `progress` is its LinkSyncState. */
  datatype SyncEntry<+P> = SyncEntry(shareId: nat, link: nat, progress: P)

  datatype RoomEvent =
    | AddShare(objId: nat, link: nat, access: Access)
    | RemoveShare(shareId: nat)
    | ChangeShareAccess(shareId: nat, access: Access)
    | MessageAdded(message: Message)

  // ----- finders -----

  /** A Link reference that leads nowhere; no share is found by it. */
  const NO_LINK: nat := 0

  function FindShareIndex(shares: seq<Share>, link: nat): (i: nat)
    ensures i <= |shares|
    ensures i < |shares| ==> link != NO_LINK && shares[i].link == link
    ensures link != NO_LINK ==> forall k :: 0 <= k < i ==> shares[k].link != link
  {
    if shares == [] || (shares[0].link != NO_LINK && shares[0].link == link) then 0
        else 1 + FindShareIndex(shares[1..], link)
  }

  function FindShareIndexForShare(shares: seq<Share>, shareId: nat): (i: nat)
    ensures i <= |shares|
    ensures i < |shares| ==> shares[i].shareId == shareId
    ensures forall k :: 0 <= k < i ==> shares[k].shareId != shareId
  {
    if shares == [] || shares[0].shareId == shareId then 0 else 1 + FindShareIndexForShare(shares[1..], shareId)
  }

  function FindSyncIndex<P>(states: seq<SyncEntry<P>>, shareId: nat): (i: nat)
    ensures i <= |states|
    ensures i < |states| ==> states[i].shareId == shareId
    ensures forall k :: 0 <= k < i ==> states[k].shareId != shareId
  {
    if states == [] || states[0].shareId == shareId then 0 else 1 + FindSyncIndex(states[1..], shareId)
  }

  /** The sync entries that are there; an entry that is not stands for the absence of local state. */
  function Present<P>(entries: seq<Option<SyncEntry<P>>>): seq<SyncEntry<P>> {
    if entries == [] then []
    else
      var n := |entries| - 1;
      Present(entries[..n]) + if entries[n].Some? then [entries[n].value] else []
  }

  lemma {:induction false} PresentConcat<P>(a: seq<Option<SyncEntry<P>>>, b: seq<Option<SyncEntry<P>>>)
    ensures Present(a + b) == Present(a) + Present(b)
  {
    if b == [] {
      assert a + b == a;
    } else {
      var n := |b| - 1;
      assert (a + b)[..|a| + n] == a + b[..n];
      PresentConcat(a, b[..n]);
    }
  }

  lemma PresentSingle<P>(entry: Option<SyncEntry<P>>)
    ensures Present([entry]) == if entry.Some? then [entry.value] else []
  {
    assert [entry][..0] == [];
  }

  lemma SplitOne<T>(s: seq<T>, i: nat)
    requires i < |s|
    ensures s == s[..i + 1] + s[i + 1..] && s[..i + 1] == s[..i] + [s[i]]
  {
  }

  lemma PresentOne<P>(entries: seq<Option<SyncEntry<P>>>, i: nat)
    requires i < |entries|
    ensures Present(entries) == Present(entries[..i]) + Present([entries[i]]) + Present(entries[i + 1..])
    ensures Present([entries[i]]) == if entries[i].Some? then [entries[i].value] else []
    ensures Present(entries[..i] + entries[i + 1..]) == Present(entries[..i]) + Present(entries[i + 1..])
    ensures Present(entries[..i + 1]) == Present(entries[..i]) + Present([entries[i]])
  {
    hide Present;
    SplitOne(entries, i);
    PresentConcat(entries[..i + 1], entries[i + 1..]);
    PresentConcat(entries[..i], [entries[i]]);
    PresentConcat(entries[..i], entries[i + 1..]);
    PresentSingle(entries[i]);
  }

  /** The index loops the finders run. */
  method LocateLink(shares: seq<Share>, link: nat) returns (i: nat)
    ensures i == FindShareIndex(shares, link)
  {
    i := 0;
    while i < |shares|
      invariant i <= |shares|
      invariant FindShareIndex(shares, link) == i + FindShareIndex(shares[i..], link)
    {
      if shares[i].link != NO_LINK && shares[i].link == link {
        return;
      }
      assert shares[i..][1..] == shares[i + 1..];
      i := i + 1;
    }
  }

  method LocateShare(shares: seq<Share>, shareId: nat) returns (i: nat)
    ensures i == FindShareIndexForShare(shares, shareId)
  {
    i := 0;
    while i < |shares|
      invariant i <= |shares|
      invariant forall k :: 0 <= k < i ==> shares[k].shareId != shareId
    {
      if shares[i].shareId == shareId {
        return;
      }
      i := i + 1;
    }
  }

  /** The loop passes over absent entries; what it finds is the first present entry of the relationship. */
  method LocateSync<P>(entries: seq<Option<SyncEntry<P>>>, shareId: nat) returns (i: nat)
    ensures i <= |entries|
    ensures FindSyncIndex(Present(entries), shareId) == |Present(entries[..i])|
    ensures i == |entries| <==> FindSyncIndex(Present(entries), shareId) == |Present(entries)|
    ensures i < |entries| ==> entries[i].Some? && entries[i].value.shareId == shareId
  {
    i := 0;
    while i < |entries|
      invariant i <= |entries|
      invariant forall k :: 0 <= k < |Present(entries[..i])| ==> Present(entries[..i])[k].shareId != shareId
    {
      PresentOne(entries, i);
      if entries[i].Some? && entries[i].value.shareId == shareId {
        FoundAt(Present(entries), shareId, |Present(entries[..i])|);
        return;
      }
      i := i + 1;
    }
    assert entries[..i] == entries;
    FoundAt(Present(entries), shareId, |Present(entries)|);
  }

  /** What a rebuild carries over: the entries that are there. */
  method StashLocalPersistent<P>(entries: seq<Option<SyncEntry<P>>>) returns (stash: seq<SyncEntry<P>>)
    ensures stash == Present(entries)
  {
    stash := [];
    for i := 0 to |entries|
      invariant stash == Present(entries[..i])
    {
      PresentOne(entries, i);
      if entries[i].Some? {
        stash := stash + [entries[i].value];
      }
    }
    assert entries[..|entries|] == entries;
  }

  /** The Apply methods of the topology and message events, on the fields they update. */
  class RoomFields<P> {
    var room: Room
    var states: seq<Option<SyncEntry<P>>>

    constructor (room: Room, states: seq<Option<SyncEntry<P>>>)
      ensures this.room == room && this.states == states
    {
      this.room, this.states := room, states;
    }

    method Apply(notStarted: P, e: RoomEvent)
      requires Asserted(room, e)
      modifies this
      ensures room == ApplyRoom(old(room), e)
      ensures Present(states) == ApplySync(notStarted, Present(old(states)), e)
    {
      match e {
        case AddShare(id, link, access) =>
          room := room.(shares := room.shares + [Share(id, link, access)]);
          var at := LocateSync(states, id);
          if at >= |states| {
            PresentConcat(states, [Some(SyncEntry(id, link, notStarted))]);
            PresentOne([Some(SyncEntry(id, link, notStarted))], 0);
            states := states + [Some(SyncEntry(id, link, notStarted))];
          } else {
            PresentOne(states, at);
          }
        case RemoveShare(id) =>
          var index := LocateShare(room.shares, id);
          room := room.(shares := room.shares[..index] + room.shares[index + 1..]);
          var at := LocateSync(states, id);
          if at < |states| {
            PresentOne(states, at);
            EraseMiddle(Present(states[..at]), states[at].value, Present(states[at + 1..]));
            states := states[..at] + states[at + 1..];
          }
        case ChangeShareAccess(id, access) =>
          var index := LocateShare(room.shares, id);
          room := room.(shares := room.shares[index := room.shares[index].(access := access)]);
        case MessageAdded(m) =>
          room := room.(messages := room.messages + [m]);
      }
    }
  }

  lemma EraseMiddle<T>(a: seq<T>, x: T, b: seq<T>)
    ensures Erase(a + [x] + b, |a|) == a + b
  {
  }

  function Erase<T>(s: seq<T>, i: nat): seq<T> {
    if i < |s| then s[..i] + s[i + 1..] else s
  }

  // ----- Apply, CanApply and the assertions inside Apply -----

  function ApplyRoom(room: Room, e: RoomEvent): Room {
    match e
    case AddShare(id, link, access) => room.(shares := room.shares + [Share(id, link, access)])
    case RemoveShare(id) => room.(shares := Erase(room.shares, FindShareIndexForShare(room.shares, id)))
    case ChangeShareAccess(id, access) =>
      var i := FindShareIndexForShare(room.shares, id);
      if i < |room.shares| then room.(shares := room.shares[i := room.shares[i].(access := access)]) else room
    case MessageAdded(m) => room.(messages := room.messages + [m])
  }

  predicate CanApplyRoom(room: Room, e: RoomEvent) {
    e.MessageAdded? ==>
      e.message.id.originUid != "" && e.message.id.originSequence != 0 && e.message.timestampUs != 0 &&
          e.message.text != ""
  }

  /** What the topology events' Apply methods assert. */
  predicate Asserted(room: Room, e: RoomEvent) {
    match e
    case AddShare(id, link, _) =>
      && FindShareIndexForShare(room.shares, id) == |room.shares|
      && link != NO_LINK && FindShareIndex(room.shares, link) == |room.shares|
    case RemoveShare(id) => FindShareIndexForShare(room.shares, id) < |room.shares|
    case ChangeShareAccess(id, _) => FindShareIndexForShare(room.shares, id) < |room.shares|
    case MessageAdded(_) => true
  }

  /** A share is opened under an id and a Link that no other has, and closed or changed only while it is there. */
  lemma AssertedIff(room: Room, e: RoomEvent)
    ensures Asserted(room, e) <==>
            match e
            case AddShare(id, link, _) =>
              link != 0 && forall i :: 0 <= i < |room.shares| ==>
                room.shares[i].shareId != id && room.shares[i].link != link
            case RemoveShare(id) => exists i :: 0 <= i < |room.shares| && room.shares[i].shareId == id
            case ChangeShareAccess(id, _) => exists i :: 0 <= i < |room.shares| && room.shares[i].shareId == id
            case MessageAdded(_) => true
  {
  }

  function ApplySync<P>(notStarted: P, states: seq<SyncEntry<P>>, e: RoomEvent): seq<SyncEntry<P>> {
    match e
    case AddShare(id, link, _) =>
      if FindSyncIndex(states, id) < |states| then states else states + [SyncEntry(id, link, notStarted)]
    case RemoveShare(id) => Erase(states, FindSyncIndex(states, id))
    case _ => states
  }

  predicate MatchesShared(e: RoomEvent, id: SharedEventId, ts: nat) {
    e.MessageAdded? ==> e.message.id == id && e.message.timestampUs == ts
  }

  /** A message event is shared under its message's own identity and timestamp; the others say nothing of either. */
  lemma MetadataIff(e: RoomEvent, id: SharedEventId, ts: nat)
    ensures MatchesShared(e, id, ts) <==>
              match e case MessageAdded(m) => m.id == id && m.timestampUs == ts case _ => true
  {
  }

  /** The room as the code checks it: only CanApply gates a replay. */
  function RoomModel<P>(notStarted: P): Model<Room, seq<SyncEntry<P>>, RoomEvent> {
    Model(ApplyRoom, CanApplyRoom,
        (room: Room, states: seq<SyncEntry<P>>, e: RoomEvent) => ApplySync(notStarted, states, e), MatchesShared)
  }

  /** The room with the assertions of Apply as part of admissibility. */
  function StrictModel<P>(notStarted: P): Model<Room, seq<SyncEntry<P>>, RoomEvent> {
    RoomModel(notStarted).(can := (room: Room, e: RoomEvent) => CanApplyRoom(room, e) && Asserted(room, e))
  }

  type Journal = seq<Record<RoomEvent>>

  function Replayed<P>(notStarted: P, base: Room, journal: Journal): Room {
    Fold(RoomModel(notStarted), base, journal)
  }

  /** Every assertion inside Apply holds at every replay point. */
  predicate AssertsHold<P>(notStarted: P, base: Room, journal: Journal) {
    Admissible(StrictModel(notStarted), base, journal)
  }

  lemma {:induction false} StrictFold<P>(notStarted: P, base: Room, journal: Journal)
    ensures Fold(StrictModel(notStarted), base, journal) == Replayed(notStarted, base, journal)
    ensures AssertsHold(notStarted, base, journal) ==> Admissible(RoomModel(notStarted), base, journal)
  {
    if journal != [] {
      StrictFold(notStarted, base, journal[..|journal| - 1]);
    }
  }

  // ----- topology of a replayed room -----

  /** Open shares have valid Links, distinct ids, and there is at most one per Link. */
  ghost predicate DistinctShares(shares: seq<Share>) {
    && (forall i :: 0 <= i < |shares| ==> shares[i].link != NO_LINK)
    && forall i, j :: 0 <= i < j < |shares| ==>
        shares[i].shareId != shares[j].shareId && shares[i].link != shares[j].link
  }

  ghost predicate Open(shares: seq<Share>, id: nat) {
    exists i :: 0 <= i < |shares| && shares[i].shareId == id
  }

  ghost predicate Adds(journal: Journal, id: nat) {
    exists i :: 0 <= i < |journal| && journal[i].event.AddShare? && journal[i].event.objId == id
  }

  /** Object ids are generated fresh: no share id is opened twice. */
  ghost predicate HistoryFresh(base: Room, journal: Journal) {
    && (forall i, j :: 0 <= i < j < |journal| && journal[i].event.AddShare? && journal[j].event.AddShare? ==>
          journal[i].event.objId != journal[j].event.objId)
    && (forall i :: 0 <= i < |journal| && journal[i].event.AddShare? ==> !Open(base.shares, journal[i].event.objId))
  }

  lemma FindsOpen(shares: seq<Share>, id: nat)
    ensures Open(shares, id) <==> FindShareIndexForShare(shares, id) < |shares|
  {
  }

  /** One applied topology event, seen from outside. */
  lemma ApplyTopology(room: Room, e: RoomEvent)
    requires DistinctShares(room.shares) && Asserted(room, e)
    ensures DistinctShares(ApplyRoom(room, e).shares)
    ensures forall id :: Open(ApplyRoom(room, e).shares, id) <==>
              (Open(room.shares, id) && e != RemoveShare(id)) || (e.AddShare? && e.objId == id)
  {
    var out := ApplyRoom(room, e).shares;
    match e {
      case AddShare(id, link, access) =>
        assert forall i :: 0 <= i < |room.shares| ==> out[i] == room.shares[i];
        assert out[|room.shares|] == Share(id, link, access);
      case RemoveShare(id) =>
        var k := FindShareIndexForShare(room.shares, id);
        ErasedShare(room.shares, k);
      case ChangeShareAccess(id, access) =>
        assert forall i :: 0 <= i < |out| ==>
            out[i].shareId == room.shares[i].shareId && out[i].link == room.shares[i].link;
      case MessageAdded(_) =>
    }
  }

  lemma ErasedShare(shares: seq<Share>, k: nat)
    requires DistinctShares(shares) && k < |shares|
    ensures DistinctShares(Erase(shares, k))
    ensures forall id :: Open(Erase(shares, k), id) <==> Open(shares, id) && id != shares[k].shareId
  {
    var out := Erase(shares, k);
    assert forall i :: 0 <= i < |out| ==> out[i] == shares[if i < k then i else i + 1];
    forall id | Open(shares, id) && id != shares[k].shareId ensures Open(out, id) {
      var i :| 0 <= i < |shares| && shares[i].shareId == id;
      assert out[if i < k then i else i - 1] == shares[i];
    }
  }

  lemma LastEvent<P>(notStarted: P, base: Room, journal: Journal)
    requires journal != [] && AssertsHold(notStarted, base, journal)
    ensures var before := journal[..|journal| - 1];
            && AssertsHold(notStarted, base, before)
            && Asserted(Replayed(notStarted, base, before), journal[|journal| - 1].event)
            && Replayed(notStarted, base, journal) == ApplyRoom(Replayed(notStarted, base, before),
                journal[|journal| - 1].event)
  {
    StrictFold(notStarted, base, journal[..|journal| - 1]);
  }

  /** Replay keeps the topology well-formed, and opens only what the base or an AddShare opened. */
  lemma {:induction false} TopologyKept<P>(notStarted: P, base: Room, journal: Journal)
    requires DistinctShares(base.shares) && AssertsHold(notStarted, base, journal)
    ensures DistinctShares(Replayed(notStarted, base, journal).shares)
    ensures forall id :: Open(Replayed(notStarted, base, journal).shares, id) ==>
              Open(base.shares, id) || Adds(journal, id)
  {
    if journal != [] {
      var n := |journal| - 1;
      LastEvent(notStarted, base, journal);
      TopologyKept(notStarted, base, journal[..n]);
      var before := Replayed(notStarted, base, journal[..n]);
      ApplyTopology(before, journal[n].event);
      forall id | Open(Replayed(notStarted, base, journal).shares, id)
        ensures Open(base.shares, id) || Adds(journal, id)
      {
        if Open(before.shares, id) && !Open(base.shares, id) {
          var i :| 0 <= i < n && journal[..n][i].event.AddShare? && journal[..n][i].event.objId == id;
          assert journal[i].event.objId == id;
        }
      }
    }
  }

  lemma FreshPrefix(base: Room, journal: Journal, n: nat)
    requires HistoryFresh(base, journal) && n <= |journal|
    ensures HistoryFresh(base, journal[..n])
  {
  }

  /** A relationship that was removed is never open again; re-adding its Link opens another one. */
  lemma {:induction false} RemovedStaysClosed<P>(notStarted: P, base: Room, journal: Journal, k: nat)
    requires DistinctShares(base.shares) && AssertsHold(notStarted, base, journal) && HistoryFresh(base, journal)
    requires k < |journal| && journal[k].event.RemoveShare?
    ensures !Open(Replayed(notStarted, base, journal).shares, journal[k].event.shareId)
    decreases |journal|
  {
    var n, id := |journal| - 1, journal[k].event.shareId;
    LastEvent(notStarted, base, journal);
    TopologyKept(notStarted, base, journal[..n]);
    ApplyTopology(Replayed(notStarted, base, journal[..n]), journal[n].event);
    if k < n {
      FreshPrefix(base, journal, n);
      assert journal[..n][k] == journal[k];
      RemovedStaysClosed(notStarted, base, journal[..n], k);
      OpenBeforeRemoval(notStarted, base, journal, k);
      if !Open(base.shares, id) {
        var i :| 0 <= i < k && journal[i].event.AddShare? && journal[i].event.objId == id;
        assert journal[n].event.AddShare? ==> journal[i].event.objId != journal[n].event.objId;
      }
    }
  }

  lemma OpenBeforeRemoval<P>(notStarted: P, base: Room, journal: Journal, k: nat)
    requires DistinctShares(base.shares) && AssertsHold(notStarted, base, journal)
    requires k < |journal| && journal[k].event.RemoveShare?
    ensures Open(base.shares, journal[k].event.shareId) ||
            exists i :: 0 <= i < k && journal[i].event.AddShare? && journal[i].event.objId == journal[k].event.shareId
  {
    AdmissiblePrefix(StrictModel(notStarted), base, journal, k);
    StrictFold(notStarted, base, journal[..k]);
    TopologyKept(notStarted, base, journal[..k]);
    FindsOpen(Replayed(notStarted, base, journal[..k]).shares, journal[k].event.shareId);
    if !Open(base.shares, journal[k].event.shareId) {
      var i :| 0 <= i < k && journal[..k][i].event.AddShare? && journal[..k][i].event.objId == journal[k].event.shareId;
      assert journal[i] == journal[..k][i];
    }
  }

  // ----- local sync states -----

  ghost predicate DistinctStates<P>(states: seq<SyncEntry<P>>) {
    forall i, j :: 0 <= i < j < |states| ==> states[i].shareId != states[j].shareId
  }

  ghost predicate Listed<P>(states: seq<SyncEntry<P>>, id: nat) {
    exists i :: 0 <= i < |states| && states[i].shareId == id
  }

  /** Exactly one sync state per open share. */
  ghost predicate StatesMatch<P>(states: seq<SyncEntry<P>>, shares: seq<Share>) {
    && DistinctStates(states)
    && (forall id :: Listed(states, id) <==> Open(shares, id))
  }

  lemma FindsListed<P>(states: seq<SyncEntry<P>>, id: nat)
    ensures Listed(states, id) <==> FindSyncIndex(states, id) < |states|
  {
  }

  /** One applied event keeps sync states and shares matched; a new share gets a not-started state. */
  lemma ApplyKeepsMatch<P>(notStarted: P, room: Room, states: seq<SyncEntry<P>>, e: RoomEvent)
    requires DistinctShares(room.shares) && Asserted(room, e) && StatesMatch(states, room.shares)
    ensures StatesMatch(ApplySync(notStarted, states, e), ApplyRoom(room, e).shares)
    ensures e.AddShare? ==> ApplySync(notStarted, states, e) == states + [SyncEntry(e.objId, e.link, notStarted)]
  {
    ApplyTopology(room, e);
    match e {
      case AddShare(id, link, access) =>
        FindsOpen(room.shares, id);
        FindsListed(states, id);
        AppendListed(states, SyncEntry(id, link, notStarted));
      case RemoveShare(id) =>
        FindsOpen(room.shares, id);
        FindsListed(states, id);
        EraseListed(states, FindSyncIndex(states, id));
      case _ =>
    }
  }

  lemma AppendListed<P>(states: seq<SyncEntry<P>>, entry: SyncEntry<P>)
    requires DistinctStates(states) && !Listed(states, entry.shareId)
    ensures DistinctStates(states + [entry])
    ensures forall id :: Listed(states + [entry], id) <==> Listed(states, id) || id == entry.shareId
  {
    var out := states + [entry];
    assert out[|states|] == entry;
    forall id | Listed(states, id) ensures Listed(out, id) {
      var i :| 0 <= i < |states| && states[i].shareId == id;
      assert out[i].shareId == id;
    }
  }

  lemma EraseListed<P>(states: seq<SyncEntry<P>>, k: nat)
    requires DistinctStates(states) && k < |states|
    ensures DistinctStates(Erase(states, k))
    ensures forall id :: Listed(Erase(states, k), id) <==> Listed(states, id) && id != states[k].shareId
  {
    var out := Erase(states, k);
    assert forall i :: 0 <= i < |out| ==> out[i] == states[if i < k then i else i + 1];
    forall id | Listed(states, id) && id != states[k].shareId ensures Listed(out, id) {
      var i :| 0 <= i < |states| && states[i].shareId == id;
      assert out[if i < k then i else i - 1] == states[i];
    }
  }

  /**
  Part of a rebuild: the stashed states stand untouched in front, followed by states created for
  relationships that are open at this point of the replay but not any more at its end.
   */
  ghost predicate Replaying<P>(stash: seq<SyncEntry<P>>, extra: seq<SyncEntry<P>>, shares: seq<Share>) {
    && DistinctStates(extra)
    && (forall id :: Listed(extra, id) ==> Open(shares, id) && !Listed(stash, id))
  }

  lemma {:induction false} RebuildPrefix<P>(notStarted: P, base: Room, journal: Journal, stash: seq<SyncEntry<P>>,
        k: nat)
      returns (extra: seq<SyncEntry<P>>)
    requires DistinctShares(base.shares) && AssertsHold(notStarted, base, journal) && HistoryFresh(base, journal)
    requires StatesMatch(stash, Replayed(notStarted, base, journal).shares) && k <= |journal|
    ensures FoldLocal(RoomModel(notStarted), base, stash, journal[..k]) == stash + extra
    ensures Replaying(stash, extra, Replayed(notStarted, base, journal[..k]).shares)
    decreases k
  {
    if k == 0 {
      assert journal[..0] == [];
      return [];
    }
    var before := RebuildPrefix(notStarted, base, journal, stash, k - 1);
    var e := journal[k - 1].event;
    assert journal[..k][..k - 1] == journal[..k - 1];
    AdmissiblePrefix(StrictModel(notStarted), base, journal, k);
    LastEvent(notStarted, base, journal[..k]);
    TopologyKept(notStarted, base, journal[..k - 1]);
    ApplyTopology(Replayed(notStarted, base, journal[..k - 1]), e);
    if e.RemoveShare? {
      RemovedStaysClosed(notStarted, base, journal, k - 1);
    }
    extra := RebuildStep(notStarted, stash, before, Replayed(notStarted, base, journal[..k - 1]), e);
  }

  lemma RebuildStep<P>(notStarted: P, stash: seq<SyncEntry<P>>, before: seq<SyncEntry<P>>, room: Room, e: RoomEvent)
      returns (extra: seq<SyncEntry<P>>)
    requires DistinctShares(room.shares) && Asserted(room, e) && Replaying(stash, before, room.shares)
    requires e.RemoveShare? ==> !Listed(stash, e.shareId)
    ensures ApplySync(notStarted, stash + before, e) == stash + extra
    ensures Replaying(stash, extra, ApplyRoom(room, e).shares)
  {
    hide ApplyRoom, Asserted, Listed, DistinctStates, Open;
    ApplyTopology(room, e);
    match e {
      case AddShare(id, link, access) => extra := RebuildAdd(notStarted, stash, before, id, link, access);
      case RemoveShare(id) => extra := RebuildRemove(notStarted, stash, before, id);
      case _ => extra := before;
    }
  }

  lemma RebuildAdd<P>(notStarted: P, stash: seq<SyncEntry<P>>, before: seq<SyncEntry<P>>, id: nat, link: nat,
        access: Access)
      returns (extra: seq<SyncEntry<P>>)
    requires DistinctStates(before)
    ensures ApplySync(notStarted, stash + before, AddShare(id, link, access)) == stash + extra
    ensures DistinctStates(extra)
    ensures forall x :: Listed(extra, x) ==> Listed(before, x) || (x == id && !Listed(stash, id))
  {
    hide Listed, DistinctStates;
    ListedEither(stash, before, id);
    FindsListed(stash + before, id);
    if Listed(stash + before, id) {
      extra := before;
    } else {
      AppendListed(before, SyncEntry(id, link, notStarted));
      extra := before + [SyncEntry(id, link, notStarted)];
      assert stash + before + [SyncEntry(id, link, notStarted)] == stash + extra;
    }
  }

  lemma RebuildRemove<P>(notStarted: P, stash: seq<SyncEntry<P>>, before: seq<SyncEntry<P>>, id: nat)
      returns (extra: seq<SyncEntry<P>>)
    requires DistinctStates(before) && !Listed(stash, id)
    ensures ApplySync(notStarted, stash + before, RemoveShare(id)) == stash + extra
    ensures DistinctStates(extra)
    ensures forall x :: Listed(extra, x) ==> Listed(before, x) && x != id
  {
    hide Listed, DistinctStates, Erase;
    FindAfter(stash, before, id);
    FindsListed(before, id);
    var i := FindSyncIndex(before, id);
    extra := Erase(before, i);
    if i < |before| {
      EraseListed(before, i);
    }
    EraseBehind(stash, before, i);
  }

  lemma EraseBehind<T>(a: seq<T>, b: seq<T>, i: nat)
    ensures Erase(a + b, |a| + i) == a + Erase(b, i)
    ensures i >= |b| ==> Erase(b, i) == b
  {
  }

  lemma ListedEither<P>(a: seq<SyncEntry<P>>, b: seq<SyncEntry<P>>, id: nat)
    ensures Listed(a + b, id) <==> Listed(a, id) || Listed(b, id)
  {
    if Listed(a, id) {
      var i :| 0 <= i < |a| && a[i].shareId == id;
      assert (a + b)[i].shareId == id;
    }
    if Listed(b, id) {
      var i :| 0 <= i < |b| && b[i].shareId == id;
      assert (a + b)[|a| + i].shareId == id;
    }
  }

  lemma FoundAt<P>(states: seq<SyncEntry<P>>, id: nat, k: nat)
    requires k <= |states| && (k < |states| ==> states[k].shareId == id)
    requires forall i :: 0 <= i < k ==> states[i].shareId != id
    ensures FindSyncIndex(states, id) == k
  {
  }

  lemma FindAfter<P>(a: seq<SyncEntry<P>>, b: seq<SyncEntry<P>>, id: nat)
    requires !Listed(a, id)
    ensures FindSyncIndex(a + b, id) == |a| + FindSyncIndex(b, id)
  {
    FoundAt(a + b, id, |a| + FindSyncIndex(b, id));
  }

  /**
  Rebuilding from base with the stashed local state gives back exactly the stashed sync states: those of
  open relationships are never touched by the replay, and what replay creates for closed ones it drops.
   */
  lemma RebuildKeepsSync<P>(notStarted: P, base: Room, journal: Journal, stash: seq<SyncEntry<P>>)
    requires DistinctShares(base.shares) && AssertsHold(notStarted, base, journal) && HistoryFresh(base, journal)
    requires StatesMatch(stash, Replayed(notStarted, base, journal).shares)
    ensures FoldLocal(RoomModel(notStarted), base, stash, journal) == stash
  {
    var extra := RebuildPrefix(notStarted, base, journal, stash, |journal|);
    assert journal[..|journal|] == journal;
    if extra != [] {
      assert Listed(extra, extra[0].shareId);
      assert false;
    }
  }

  // ----- replay of an imported room -----

  /** What a replay from base leaves when it starts with states of shares that stand open in the base. */
  ghost predicate ReplayedStates<P>(notStarted: P, stash: seq<SyncEntry<P>>, base: Room, now: Room,
        out: seq<SyncEntry<P>>) {
    && DistinctStates(out)
    && (forall id :: Listed(out, id) <==> Open(now.shares, id) && (Open(base.shares, id) ==> Listed(stash, id)))
    && (forall entry :: entry in out ==> entry in stash || entry.progress == notStarted)
  }

  /**
  A replay from base opens a not-started state for every share it opens and drops those of shares it
  closes. A share that stands open in the base has a state afterwards exactly if it came with one.
   */
  lemma {:induction false} ReplayFromBaseStates<P>(notStarted: P, base: Room, journal: Journal,
        stash: seq<SyncEntry<P>>)
    requires DistinctShares(base.shares) && AssertsHold(notStarted, base, journal) && HistoryFresh(base, journal)
    requires DistinctStates(stash) && forall id :: Listed(stash, id) ==> Open(base.shares, id)
    ensures ReplayedStates(notStarted, stash, base, Replayed(notStarted, base, journal),
                           FoldLocal(RoomModel(notStarted), base, stash, journal))
  {
    if journal != [] {
      var n := |journal| - 1;
      LastEvent(notStarted, base, journal);
      FreshPrefix(base, journal, n);
      ReplayFromBaseStates(notStarted, base, journal[..n], stash);
      TopologyKept(notStarted, base, journal[..n]);
      var states := FoldLocal(RoomModel(notStarted), base, stash, journal[..n]);
      ReplayedStep(notStarted, stash, base, Replayed(notStarted, base, journal[..n]), states, journal[n].event);
    }
  }

  lemma ReplayedStep<P>(notStarted: P, stash: seq<SyncEntry<P>>, base: Room, now: Room, states: seq<SyncEntry<P>>,
        e: RoomEvent)
    requires DistinctShares(now.shares) && Asserted(now, e) && ReplayedStates(notStarted, stash, base, now, states)
    requires e.AddShare? ==> !Open(base.shares, e.objId)
    ensures ReplayedStates(notStarted, stash, base, ApplyRoom(now, e), ApplySync(notStarted, states, e))
  {
    hide Listed, DistinctStates, Open, DistinctShares;
    ApplyTopology(now, e);
    match e {
      case AddShare(id, link, access) =>
        FindsOpen(now.shares, id);
        FindsListed(states, id);
        AppendListed(states, SyncEntry(id, link, notStarted));
      case RemoveShare(id) =>
        FindsListed(states, id);
        if FindSyncIndex(states, id) < |states| {
          EraseListed(states, FindSyncIndex(states, id));
        }
      case _ =>
    }
  }

  /** States that match the base's shares, replayed, match the replayed shares. */
  lemma ReplayKeepsMatch<P>(notStarted: P, base: Room, journal: Journal, stash: seq<SyncEntry<P>>)
    requires DistinctShares(base.shares) && AssertsHold(notStarted, base, journal) && HistoryFresh(base, journal)
    requires StatesMatch(stash, base.shares)
    ensures StatesMatch(FoldLocal(RoomModel(notStarted), base, stash, journal),
              Replayed(notStarted, base, journal).shares)
  {
    ReplayFromBaseStates(notStarted, base, journal, stash);
  }

  /**
  A network-imported room brings no sync states. After its replay it has a not-started one for exactly the
  open shares that its journal opened; so every open share has one if and only if none of them
  stands in the base, a base without shares in particular.
   */
  lemma ImportedStates<P>(notStarted: P, base: Room, journal: Journal)
    requires DistinctShares(base.shares) && AssertsHold(notStarted, base, journal) && HistoryFresh(base, journal)
    ensures var shares := Replayed(notStarted, base, journal).shares;
            var out := FoldLocal(RoomModel(notStarted), base, [], journal);
            && (forall id :: Listed(out, id) <==> Open(shares, id) && !Open(base.shares, id))
            && (forall entry :: entry in out ==> entry.progress == notStarted)
            && (StatesMatch(out, shares) <==> forall id :: Open(base.shares, id) ==> !Open(shares, id))
  {
    ReplayFromBaseStates(notStarted, base, journal, []);
    assert forall id :: !Listed<P>([], id);
  }

  // ----- messages -----

  lemma {:induction false} SameTopology<P>(notStarted: P, a: Room, b: Room, journal: Journal)
    requires a.shares == b.shares
    ensures Replayed(notStarted, a, journal).shares == Replayed(notStarted, b, journal).shares
    ensures AssertsHold(notStarted, a, journal) <==> AssertsHold(notStarted, b, journal)
  {
    if journal != [] {
      var n := |journal| - 1;
      SameTopology(notStarted, a, b, journal[..n]);
      StrictFold(notStarted, a, journal[..n]);
      StrictFold(notStarted, b, journal[..n]);
    }
  }

  /** A message lands anywhere in the journal without disturbing the topology or its assertions. */
  lemma MessageTransparent<P>(notStarted: P, base: Room, journal: Journal, r: Record<RoomEvent>)
    requires AssertsHold(notStarted, base, journal) && r.event.MessageAdded?
    requires CanApplyRoom(base, r.event)
    ensures AssertsHold(notStarted, base, Insert(journal, r))
    ensures Replayed(notStarted, base, Insert(journal, r)).shares == Replayed(notStarted, base, journal).shares
  {
    var strict := StrictModel(notStarted);
    var k := LowerBound(journal, r.timestampUs);
    var a, b := journal[..k], journal[k..];
    var with := a + [r];
    AdmissiblePrefix(strict, base, journal, k);
    assert with[..|with| - 1] == a;
    StrictFold(notStarted, base, a);
    StrictFold(notStarted, base, with);
    var before, after := Fold(strict, base, a), Fold(strict, base, with);
    assert after.shares == before.shares;
    SameTopology(notStarted, before, after, b);
    FoldConcat(strict, base, with, b);
    StrictFold(notStarted, base, Insert(journal, r));
    StrictFold(notStarted, base, journal);
    StrictFold(notStarted, before, b);
    StrictFold(notStarted, after, b);
    assert Insert(journal, r) == with + b;
  }

  /** Messages of a sequence of facts, in order. */
  function MessagesIn(facts: seq<Fact<RoomEvent>>): seq<Message> {
    if facts == [] then []
    else
      var n := |facts| - 1;
      if facts[n].event.MessageAdded? then MessagesIn(facts[..n]) + [facts[n].event.message] else MessagesIn(facts[..n])
  }

  /** The room's messages are the base's followed by the journal's message events in journal order. */
  lemma {:induction false} MessagesAreTheJournal<P>(notStarted: P, base: Room, journal: Journal)
    ensures Replayed(notStarted, base, journal).messages == base.messages + MessagesIn(Facts(journal))
  {
    if journal == [] {
      assert base.messages + [] == base.messages;
    } else {
      var n := |journal| - 1;
      MessagesAreTheJournal(notStarted, base, journal[..n]);
      assert Facts(journal)[..n] == Facts(journal[..n]);
      var before := Replayed(notStarted, base, journal[..n]).messages;
      if journal[n].event.MessageAdded? {
        var m := journal[n].event.message;
        assert before + [m] == base.messages + (MessagesIn(Facts(journal[..n])) + [m]);
      }
    }
  }
}
