/**
Sending from one device: sequence reservation, timestamp adjustment and the persist points of SubmitDraft,
with a crash possible between any two of them.
 */
module ChatCommands {
  import opened Basics
  import opened EventJournal
  import Rooms = ChatRooms

  type Message = Rooms.Message
  type RoomId = nat

  // ----- timelines -----

  ghost predicate InOrder(messages: seq<Message>) {
    forall i, j :: 0 <= i < j < |messages| ==> messages[i].timestampUs <= messages[j].timestampUs
  }

  /** Position a message with this timestamp takes. */
  function Place(messages: seq<Message>, ts: nat): (k: nat)
    ensures k <= |messages|
    ensures forall i :: 0 <= i < k ==> messages[i].timestampUs < ts
    ensures k < |messages| ==> ts <= messages[k].timestampUs
  {
    if messages == [] || ts <= messages[0].timestampUs then 0 else 1 + Place(messages[1..], ts)
  }

  function WithMessage(messages: seq<Message>, m: Message): (r: seq<Message>)
    ensures forall x :: x in r <==> x in messages || x == m
  {
    var k := Place(messages, m.timestampUs);
    assert messages == messages[..k] + messages[k..];
    messages[..k] + [m] + messages[k..]
  }

  lemma Placed(messages: seq<Message>, m: Message)
    ensures var k, out := Place(messages, m.timestampUs), WithMessage(messages, m);
            && |out| == |messages| + 1 && out[k] == m
            && (forall i {:trigger out[i]} :: 0 <= i < k ==> out[i] == messages[i])
            && (forall i {:trigger out[i]} :: k < i <= |messages| ==> out[i] == messages[i - 1])
  {
  }

  lemma WithMessageInOrder(messages: seq<Message>, m: Message)
    requires InOrder(messages)
    ensures InOrder(WithMessage(messages, m))
  {
    hide WithMessage;
    Placed(messages, m);
    var k, out := Place(messages, m.timestampUs), WithMessage(messages, m);
    forall i, j | 0 <= i < j < |out| ensures out[i].timestampUs <= out[j].timestampUs {
      if i == k {
        assert out[j] == messages[j - 1];
      } else if j == k {
        assert out[i] == messages[i];
      }
    }
  }

  /** The last message of this author, searched from the end. */
  function LastOwn(messages: seq<Message>, author: Uid): Option<Message> {
    if messages == [] then None
    else
      var n := |messages| - 1;
      if messages[n].id.originUid == author then Some(messages[n]) else LastOwn(messages[..n], author)
  }

  lemma {:induction false} LastOwnIsLatest(messages: seq<Message>, author: Uid)
    requires InOrder(messages)
    ensures LastOwn(messages, author).None? ==> forall m :: m in messages ==> m.id.originUid != author
    ensures LastOwn(messages, author).Some? ==>
              && LastOwn(messages, author).value in messages
              && LastOwn(messages, author).value.id.originUid == author
              && forall m :: m in messages && m.id.originUid == author ==>
                  m.timestampUs <= LastOwn(messages, author).value.timestampUs
  {
    if messages != [] {
      var n := |messages| - 1;
      assert messages == messages[..n] + [messages[n]];
      if messages[n].id.originUid != author {
        LastOwnIsLatest(messages[..n], author);
      }
    }
  }

  /** The supplied time, moved past the author's last message; the increment is in 64 bits. */
  function EffectiveTime(messages: seq<Message>, author: Uid, now: U64): U64 {
    var last := LastOwn(messages, author);
    if last.Some? && now <= last.value.timestampUs then
      (if last.value.timestampUs == MAX_U64 then 0 else last.value.timestampUs + 1)
    else now
  }

  /**
  The effective time is later than everything the author has in the room, unless the author's last message
  carries the largest timestamp there is; then, and only then, it wraps to zero and the commit fails.
   */
  lemma EffectiveTimeIsLater(messages: seq<Message>, author: Uid, now: U64)
    requires InOrder(messages) && now != 0
    ensures var t := EffectiveTime(messages, author, now);
            && (t == 0 <==> exists m :: m in messages && m.id.originUid == author && m.timestampUs == MAX_U64)
            && (t != 0 ==> now <= t && forall m :: m in messages && m.id.originUid == author ==> m.timestampUs < t)
            && (t == now <==> forall m :: m in messages && m.id.originUid == author ==> m.timestampUs < now)
            && (t != now && t != 0 ==> exists m :: m in messages && m.id.originUid == author && t == m.timestampUs + 1)
  {
    LastOwnIsLatest(messages, author);
  }

  // ----- the timeline is the journal's -----

  lemma {:induction false} MessagesInConcat(a: seq<Fact<Rooms.RoomEvent>>, b: seq<Fact<Rooms.RoomEvent>>)
    ensures Rooms.MessagesIn(a + b) == Rooms.MessagesIn(a) + Rooms.MessagesIn(b)
    decreases |b|
  {
    if b == [] {
      assert a + b == a;
    } else {
      var n := |b| - 1;
      assert (a + b)[..|a + b| - 1] == a + b[..n];
      MessagesInConcat(a, b[..n]);
    }
  }

  lemma {:induction false} MessagesFrom(facts: seq<Fact<Rooms.RoomEvent>>, m: Message)
    requires m in Rooms.MessagesIn(facts)
    ensures exists f :: f in facts && f.event.MessageAdded? && f.event.message == m
  {
    var n := |facts| - 1;
    if facts[n].event.MessageAdded? && facts[n].event.message == m {
      assert facts[n] in facts;
    } else {
      MessagesFrom(facts[..n], m);
    }
  }

  lemma WithMessageAt(before: seq<Message>, after: seq<Message>, m: Message)
    requires forall x :: x in before ==> x.timestampUs < m.timestampUs
    requires forall x :: x in after ==> m.timestampUs <= x.timestampUs
    ensures WithMessage(before + after, m) == before + [m] + after
  {
    forall i | 0 <= i < |before| ensures (before + after)[i].timestampUs < m.timestampUs {
      assert (before + after)[i] == before[i];
    }
    assert after != [] ==> (before + after)[|before|] == after[0];
    assert Place(before + after, m.timestampUs) == |before|;
    assert (before + after)[..|before|] == before && (before + after)[|before|..] == after;
  }

  /** Message events carry their record's timestamp, as MatchesSharedMetadata demands. */
  ghost predicate StampsMatch(journal: Rooms.Journal) {
    forall x :: x in journal && x.event.MessageAdded? ==> x.event.message.timestampUs == x.timestampUs
  }

  /** A message of the journal is stamped like one of its records. */
  lemma MessageStamp(journal: Rooms.Journal, m: Message)
    requires StampsMatch(journal) && m in Rooms.MessagesIn(Facts(journal))
    ensures exists i :: 0 <= i < |journal| && journal[i].timestampUs == m.timestampUs
  {
    MessagesFrom(Facts(journal), m);
    var f :| f in Facts(journal) && f.event.MessageAdded? && f.event.message == m;
    var i :| 0 <= i < |Facts(journal)| && Facts(journal)[i] == f;
    assert journal[i] in journal;
  }

  /** Inserting a shared message into the journal inserts it into the timeline at its timestamp's place. */
  lemma TimelineInsert(journal: Rooms.Journal, r: Record<Rooms.RoomEvent>)
    requires Sorted(journal) && r.event.MessageAdded? && r.event.message.timestampUs == r.timestampUs
    requires StampsMatch(journal)
    ensures Rooms.MessagesIn(Facts(Insert(journal, r))) == WithMessage(Rooms.MessagesIn(Facts(journal)),
              r.event.message)
  {
    var k, m := LowerBound(journal, r.timestampUs), r.event.message;
    var a, b := Facts(journal[..k]), Facts(journal[k..]);
    TimelineParts(journal, r, k);
    var before, after := Rooms.MessagesIn(a), Rooms.MessagesIn(b);
    forall x | x in before ensures x.timestampUs < m.timestampUs {
      MessageStamp(journal[..k], x);
      var i :| 0 <= i < k && journal[..k][i].timestampUs == x.timestampUs;
      assert journal[i].timestampUs < m.timestampUs;
    }
    forall x | x in after ensures m.timestampUs <= x.timestampUs {
      MessageStamp(journal[k..], x);
      var i :| 0 <= i < |journal| - k && journal[k..][i].timestampUs == x.timestampUs;
      assert journal[k].timestampUs <= journal[k + i].timestampUs;
    }
    WithMessageAt(before, after, m);
  }

  lemma TimelineParts(journal: Rooms.Journal, r: Record<Rooms.RoomEvent>, k: nat)
    requires k == LowerBound(journal, r.timestampUs) && r.event.MessageAdded?
    ensures var before, after := Rooms.MessagesIn(Facts(journal[..k])), Rooms.MessagesIn(Facts(journal[k..]));
            && Rooms.MessagesIn(Facts(journal)) == before + after
            && Rooms.MessagesIn(Facts(Insert(journal, r))) == before + [r.event.message] + after
  {
    hide Rooms.MessagesIn;
    var a, b := Facts(journal[..k]), Facts(journal[k..]);
    assert Facts(journal) == a + b;
    assert Facts(Insert(journal, r)) == a + [FactOf(r)] + b;
    MessagesInConcat(a, b);
    MessagesInConcat(a + [FactOf(r)], b);
    MessagesInConcat(a, [FactOf(r)]);
    OneMessage(FactOf(r));
  }

  lemma OneMessage(f: Fact<Rooms.RoomEvent>)
    requires f.event.MessageAdded?
    ensures Rooms.MessagesIn([f]) == [f.event.message]
  {
    assert [f][..0] == [];
  }

  // ----- the device -----

  /** What persists: the next sequence to hand out, the drafts and the timelines. */
  datatype Local = Local(next: U64, drafts: map<RoomId, string>, rooms: map<RoomId, seq<Message>>)

  /** Where SubmitDraft is, between its persist points. `Aborted` is its failed assertion. */
  datatype Progress =
    | Idle
    | Reserved(room: RoomId, message: Message)
    | ReservationSaved(room: RoomId, message: Message)
    | Committed(room: RoomId)
    | CommitSaved(room: RoomId)
    | Cleared
    | Aborted

  /** `sent` is history: messages of this device handed to the network. */
  datatype Device = Device(live: Local, saved: Local, progress: Progress, sent: set<(RoomId, Message)>)

  datatype Step =
    | Begin(room: RoomId, now: U64)
    | Persist
    | Commit
    | ClearDraft
    | Edit(room: RoomId, text: string)
    | Send(room: RoomId, message: Message)
    | Receive(room: RoomId, message: Message)
    | Crash

  predicate CanSubmit(self: Uid, live: Local, room: RoomId, now: U64) {
    && self != "" && room in live.rooms && room in live.drafts && live.drafts[room] != ""
    && now != 0 && live.next != 0 && live.next != MAX_U64
  }

  predicate Enabled(self: Uid, d: Device, step: Step) {
    match step
    case Begin(room, now) => d.progress.Idle? && CanSubmit(self, d.live, room, now)
    case Persist => !d.progress.Aborted?
    case Commit => d.progress.ReservationSaved? && d.progress.room in d.live.rooms
    case ClearDraft => d.progress.CommitSaved?
    case Edit(room, _) => d.progress.Idle?
    case Send(room, message) =>
      room in d.live.rooms && message in d.live.rooms[room] && message.id.originUid == self && !d.progress.Aborted?
    case Receive(room, message) => room in d.live.rooms && message.id.originUid != self && !d.progress.Aborted?
    case Crash => true
  }

  /** The message SubmitDraft builds. */
  function Draft(self: Uid, live: Local, room: RoomId, now: U64): Message
    requires CanSubmit(self, live, room, now)
  {
    Rooms.Message(SharedEventId(self, live.next), EffectiveTime(live.rooms[room], self, now), live.drafts[room])
  }

  /** Drop a room's new timeline into storage: what sending a message does first. */
  function SaveRoom(saved: Local, room: RoomId, messages: seq<Message>): Local {
    saved.(rooms := saved.rooms[room := messages])
  }

  function Next(self: Uid, d: Device, step: Step): Device {
    if !Enabled(self, d, step) then d
    else
      match step
      case Begin(room, now) =>
        d.(live := d.live.(next := d.live.next + 1), progress := Reserved(room, Draft(self, d.live, room, now)))
      case Persist =>
        d.(saved := d.live,
           progress := match d.progress
             case Reserved(room, m) => ReservationSaved(room, m)
             case Committed(room) => CommitSaved(room)
             case Cleared => Idle
             case _ => d.progress)
      case Commit =>
        var room, m := d.progress.room, d.progress.message;
        if m.timestampUs == 0 then d.(progress := Aborted)
        else d.(live := d.live.(rooms := d.live.rooms[room := WithMessage(d.live.rooms[room], m)]),
            progress := Committed(room))
      case ClearDraft => d.(live := d.live.(drafts := d.live.drafts[d.progress.room := ""]), progress := Cleared)
      case Edit(room, text) => d.(live := d.live.(drafts := d.live.drafts[room := text]))
      case Send(room, m) => d.(saved := SaveRoom(d.saved, room, d.live.rooms[room]), sent := d.sent + {(room, m)})
      case Receive(room, m) => d.(live := d.live.(rooms := d.live.rooms[room := WithMessage(d.live.rooms[room], m)]))
      case Crash => d.(live := d.saved, progress := Idle)
  }

  function After(self: Uid, d: Device, steps: seq<Step>): Device {
    if steps == [] then d else Next(self, After(self, d, steps[..|steps| - 1]), steps[|steps| - 1])
  }

  // ----- invariant -----

  ghost predicate Own(self: Uid, rooms: map<RoomId, seq<Message>>, room: RoomId, m: Message) {
    room in rooms && m in rooms[room] && m.id.originUid == self
  }

  /** Own messages: one per sequence, all below `next`, later sequence meaning later timestamp within a room. */
  ghost predicate OwnOk(self: Uid, rooms: map<RoomId, seq<Message>>, next: nat) {
    && (forall r, m :: Own(self, rooms, r, m) ==> m.id.originSequence < next)
    && (forall r, m, r', m' ::
        Own(self, rooms, r, m) && Own(self, rooms, r', m') && m.id.originSequence == m'.id.originSequence ==>
          r == r' && m == m')
    && (forall r, m, m' ::
        Own(self, rooms, r, m) && Own(self, rooms, r, m') && m.id.originSequence < m'.id.originSequence ==>
          m.timestampUs < m'.timestampUs)
  }

  ghost predicate TimelinesOk(rooms: map<RoomId, seq<Message>>) {
    forall r :: r in rooms ==> InOrder(rooms[r])
  }

  /** Everything in `a` is in `b`. */
  ghost predicate Within(self: Uid, a: map<RoomId, seq<Message>>, b: map<RoomId, seq<Message>>) {
    && (forall r :: r in a ==> r in b)
    && forall r, m :: Own(self, a, r, m) ==> Own(self, b, r, m)
  }

  /** A message that is about to be committed: fresh, and later than the author's others in the room. */
  ghost predicate Upcoming(self: Uid, rooms: map<RoomId, seq<Message>>, next: nat, room: RoomId, message: Message) {
    && message.id.originUid == self && message.id.originSequence + 1 == next && room in rooms
    && (forall r, m :: Own(self, rooms, r, m) ==> m.id.originSequence < message.id.originSequence)
    && (message.timestampUs != 0 ==> forall m :: Own(self, rooms, room, m) ==> m.timestampUs < message.timestampUs)
  }

  ghost predicate Inv(self: Uid, d: Device) {
    && TimelinesOk(d.live.rooms) && TimelinesOk(d.saved.rooms)
    && OwnOk(self, d.live.rooms, d.saved.next)
    && Within(self, d.saved.rooms, d.live.rooms)
    && d.saved.next <= d.live.next
    && (d.progress.Reserved? ==> Upcoming(self, d.live.rooms, d.live.next, d.progress.room, d.progress.message))
    && (d.progress.ReservationSaved? ==>
          d.saved.next == d.live.next && Upcoming(self, d.live.rooms, d.live.next, d.progress.room, d.progress.message))
    && (forall x :: x in d.sent ==> Own(self, d.saved.rooms, x.0, x.1))
  }

  lemma OwnOkWithin(self: Uid, a: map<RoomId, seq<Message>>, b: map<RoomId, seq<Message>>, next: nat, next': nat)
    requires OwnOk(self, b, next) && Within(self, a, b) && next <= next'
    ensures OwnOk(self, a, next')
  {
    hide Own;
  }

  lemma CommitKeepsOwn(self: Uid, rooms: map<RoomId, seq<Message>>, next: nat, room: RoomId, message: Message)
    requires OwnOk(self, rooms, next) && TimelinesOk(rooms) && Upcoming(self, rooms, next, room, message)
    requires message.timestampUs != 0
    ensures var rooms' := rooms[room := WithMessage(rooms[room], message)];
            OwnOk(self, rooms', next) && TimelinesOk(rooms') && Within(self, rooms, rooms')
  {
    var rooms' := rooms[room := WithMessage(rooms[room], message)];
    WithMessageInOrder(rooms[room], message);
    OwnAfter(self, rooms, room, message);
    OneMoreOwn(self, rooms, rooms', next, room, message);
  }

  lemma OneMoreOwn(self: Uid, rooms: map<RoomId, seq<Message>>, rooms': map<RoomId, seq<Message>>, next: nat,
        room: RoomId, message: Message)
    requires OwnOk(self, rooms, next) && Upcoming(self, rooms, next, room, message) && message.timestampUs != 0
    requires forall r, m :: Own(self, rooms', r, m) <==> Own(self, rooms, r, m) || (r == room && m == message)
    ensures OwnOk(self, rooms', next)
  {
    hide Own;
    forall r, m, r2, m2 | Own(self, rooms', r, m) && Own(self, rooms', r2, m2) &&
        m.id.originSequence == m2.id.originSequence
      ensures r == r2 && m == m2
    {
      assert Own(self, rooms, r, m) || (r == room && m == message);
      assert Own(self, rooms, r2, m2) || (r2 == room && m2 == message);
    }
    forall r, m, m2 | Own(self, rooms', r, m) && Own(self, rooms', r, m2) && m.id.originSequence < m2.id.originSequence
      ensures m.timestampUs < m2.timestampUs
    {
      assert Own(self, rooms, r, m) || (r == room && m == message);
      assert Own(self, rooms, r, m2) || (r == room && m2 == message);
    }
  }

  lemma OwnAfter(self: Uid, rooms: map<RoomId, seq<Message>>, room: RoomId, message: Message)
    requires room in rooms
    ensures forall r, m :: Own(self, rooms[room := WithMessage(rooms[room], message)], r, m) <==>
              Own(self, rooms, r, m) || (r == room && m == message && m.id.originUid == self)
  {
    var rooms' := rooms[room := WithMessage(rooms[room], message)];
    forall r, m
      ensures Own(self, rooms', r, m) <==>
                Own(self, rooms, r, m) || (r == room && m == message && m.id.originUid == self)
    {
      if r == room {
        assert m in rooms'[r] <==> m in rooms[r] || m == message;
      }
    }
  }

  lemma ReceiveKeepsOwn(self: Uid, rooms: map<RoomId, seq<Message>>, next: nat, room: RoomId, message: Message)
    requires OwnOk(self, rooms, next) && TimelinesOk(rooms) && room in rooms && message.id.originUid != self
    ensures var rooms' := rooms[room := WithMessage(rooms[room], message)];
            OwnOk(self, rooms', next) && TimelinesOk(rooms') && Within(self, rooms, rooms') &&
                Within(self, rooms', rooms)
  {
    WithMessageInOrder(rooms[room], message);
    OwnAfter(self, rooms, room, message);
    SameOwn(self, rooms, rooms[room := WithMessage(rooms[room], message)], next);
  }

  lemma SameOwn(self: Uid, rooms: map<RoomId, seq<Message>>, rooms': map<RoomId, seq<Message>>, next: nat)
    requires OwnOk(self, rooms, next)
    requires forall r, m :: Own(self, rooms', r, m) <==> Own(self, rooms, r, m)
    ensures OwnOk(self, rooms', next)
  {
    hide Own;
  }

  lemma BeginUpcoming(self: Uid, d: Device, room: RoomId, now: U64)
    requires Inv(self, d) && CanSubmit(self, d.live, room, now)
    ensures Upcoming(self, d.live.rooms, d.live.next + 1, room, Draft(self, d.live, room, now))
  {
    EffectiveTimeIsLater(d.live.rooms[room], self, now);
  }

  /**
  The built message meets everything a room asks of a shared message, in every reachable state, except
  that its time is zero when the author's last message in the room has the largest timestamp.
   */
  lemma DraftIsAcceptable(self: Uid, d: Device, room: RoomId, now: U64)
    requires Inv(self, d) && CanSubmit(self, d.live, room, now)
    ensures var m := Draft(self, d.live, room, now);
            && m.id.IsShared() && m.id.originSequence != 0 && m.text != ""
            && (forall r, x :: r in d.live.rooms && x in d.live.rooms[r] ==> x.id != m.id)
            && (m.timestampUs == 0 <==> exists x :: Own(self, d.live.rooms, room, x) && x.timestampUs == MAX_U64)
  {
    BeginUpcoming(self, d, room, now);
    EffectiveTimeIsLater(d.live.rooms[room], self, now);
    var m := Draft(self, d.live, room, now);
    forall r, x | r in d.live.rooms && x in d.live.rooms[r] ensures x.id != m.id {
      if x.id.originUid == self {
        assert Own(self, d.live.rooms, r, x);
      }
    }
    if m.timestampUs == 0 {
      var x :| x in d.live.rooms[room] && x.id.originUid == self && x.timestampUs == MAX_U64;
      assert Own(self, d.live.rooms, room, x);
    }
  }

  lemma StepKeepsInv(self: Uid, d: Device, step: Step)
    requires Inv(self, d)
    ensures Inv(self, Next(self, d, step))
  {
    hide OwnOk, Upcoming, InOrder, WithMessage;
    if Enabled(self, d, step) {
      match step {
        case Begin(room, now) => BeginUpcoming(self, d, room, now);
        case Persist => OwnOkWithin(self, d.live.rooms, d.live.rooms, d.saved.next, d.live.next);
        case Commit =>
          if d.progress.message.timestampUs != 0 {
            CommitKeepsOwn(self, d.live.rooms, d.live.next, d.progress.room, d.progress.message);
          }
        case Receive(room, m) => ReceiveStep(self, d, room, m);
        case Crash => OwnOkWithin(self, d.saved.rooms, d.live.rooms, d.saved.next, d.saved.next);
        case _ =>
      }
    }
  }

  lemma ReceiveStep(self: Uid, d: Device, room: RoomId, m: Message)
    requires Inv(self, d) && Enabled(self, d, Receive(room, m))
    ensures Inv(self, Next(self, d, Receive(room, m)))
  {
    hide OwnOk, InOrder, WithMessage, Own;
    ReceiveKeepsOwn(self, d.live.rooms, d.saved.next, room, m);
  }

  /** A device that has sent nothing yet. */
  ghost predicate Init(self: Uid, d: Device) {
    && d.live == d.saved && d.progress.Idle? && d.sent == {}
    && TimelinesOk(d.live.rooms) && OwnOk(self, d.live.rooms, d.live.next)
  }

  lemma {:induction false} RunKeepsInv(self: Uid, d: Device, steps: seq<Step>)
    requires Init(self, d)
    ensures Inv(self, After(self, d, steps))
  {
    hide OwnOk, TimelinesOk, Next;
    if steps != [] {
      RunKeepsInv(self, d, steps[..|steps| - 1]);
      StepKeepsInv(self, After(self, d, steps[..|steps| - 1]), steps[|steps| - 1]);
    }
  }

  // ----- what it means -----

  /** Across crashes at any persist point, no sequence is ever given to two sent messages. */
  lemma SequencesAreNotReused(self: Uid, d: Device, steps: seq<Step>, x: (RoomId, Message), y: (RoomId, Message))
    requires Init(self, d) && x in After(self, d, steps).sent && y in After(self, d, steps).sent
    requires x.1.id.originSequence == y.1.id.originSequence
    ensures x == y
  {
    RunKeepsInv(self, d, steps);
    var s := After(self, d, steps);
    OwnOkWithin(self, s.saved.rooms, s.live.rooms, s.saved.next, s.saved.next);
  }

  /** Within a room, sequence order is strictly timestamp order. */
  lemma RoomOrderIsTimeOrder(self: Uid, d: Device, steps: seq<Step>, room: RoomId, m: Message, m': Message)
    requires Init(self, d) && (room, m) in After(self, d, steps).sent && (room, m') in After(self, d, steps).sent
    ensures m.id.originSequence < m'.id.originSequence <==> m.timestampUs < m'.timestampUs
  {
    RunKeepsInv(self, d, steps);
    var s := After(self, d, steps);
    OwnOkWithin(self, s.saved.rooms, s.live.rooms, s.saved.next, s.saved.next);
    assert Own(self, s.saved.rooms, room, m) && Own(self, s.saved.rooms, room, m');
  }

  /** Sequence order is strictly timestamp order over all rooms together. */
  ghost predicate OrderedAcrossRooms(self: Uid, rooms: map<RoomId, seq<Message>>) {
    forall r, m, r', m' ::
        Own(self, rooms, r, m) && Own(self, rooms, r', m') && m.id.originSequence < m'.id.originSequence ==>
      m.timestampUs < m'.timestampUs
  }

  /**
  Across rooms that order is kept by a submission if and only if its time is past every message the
  device has in any room: the sequence counter is shared, but the time is only adjusted against one room.
   */
  lemma SubmitKeepsOrderAcrossRoomsIff(self: Uid, d: Device, room: RoomId, now: U64)
    requires Inv(self, d) && CanSubmit(self, d.live, room, now) && OrderedAcrossRooms(self, d.live.rooms)
    requires EffectiveTime(d.live.rooms[room], self, now) != 0
    ensures var m := Draft(self, d.live, room, now);
            OrderedAcrossRooms(self, d.live.rooms[room := WithMessage(d.live.rooms[room], m)])
            <==> forall r, x :: Own(self, d.live.rooms, r, x) ==> x.timestampUs < m.timestampUs
  {
    hide Own, OwnOk, WithMessage, EffectiveTime, InOrder;
    BeginUpcoming(self, d, room, now);
    var m := Draft(self, d.live, room, now);
    var rooms' := d.live.rooms[room := WithMessage(d.live.rooms[room], m)];
    OwnAfter(self, d.live.rooms, room, m);
    assert Own(self, rooms', room, m);
    if OrderedAcrossRooms(self, rooms') {
      forall r, x | Own(self, d.live.rooms, r, x) ensures x.timestampUs < m.timestampUs {
        assert Own(self, rooms', r, x);
      }
    }
    if forall r, x :: Own(self, d.live.rooms, r, x) ==> x.timestampUs < m.timestampUs {
      forall r, x, r2, y | Own(self, rooms', r, x) && Own(self, rooms', r2, y) &&
          x.id.originSequence < y.id.originSequence
        ensures x.timestampUs < y.timestampUs
      {
        assert Own(self, d.live.rooms, r, x) || (r == room && x == m);
        assert Own(self, d.live.rooms, r2, y) || (r2 == room && y == m);
      }
    }
  }

  /** Two rooms and one clock reading suffice: both messages get the same timestamp. */
  lemma TwoRoomsSameInstant(self: Uid, now: U64, text: string)
    requires self != "" && text != "" && now != 0
    ensures var d := Local(1, map[0 := text, 1 := text], map[0 := [], 1 := []]);
            var first := Draft(self, d, 0, now);
            var d' := d.(next := 2, rooms := d.rooms[0 := WithMessage([], first)]);
            var second := Draft(self, d', 1, now);
            first.id.originSequence < second.id.originSequence && first.timestampUs == second.timestampUs
  {
  }

  // ----- undisturbed runs -----

  /** A submission begins exactly with a known author, a room with a draft, a clock and an unexhausted counter. */
  lemma BeginsIff(self: Uid, d: Device, room: RoomId, now: U64)
    ensures Enabled(self, d, Begin(room, now)) <==>
            && d.progress == Idle && self != "" && room in d.live.rooms
            && room in d.live.drafts && d.live.drafts[room] != "" && now != 0
            && 0 < d.live.next < 0xFFFF_FFFF_FFFF_FFFF
  {
  }

  /** The other steps: each persist point of a submission follows the one before, and an abort ends everything. */
  lemma StepsAtHand(self: Uid, d: Device, room: RoomId, text: string, m: Message)
    ensures Enabled(self, d, Persist) <==> d.progress != Aborted
    ensures Enabled(self, d, Commit) <==> d.progress.ReservationSaved? && d.progress.room in d.live.rooms
    ensures Enabled(self, d, ClearDraft) <==> d.progress.CommitSaved?
    ensures Enabled(self, d, Edit(room, text)) <==> d.progress == Idle
    ensures Enabled(self, d, Send(room, m)) <==>
            room in d.live.rooms && m in d.live.rooms[room] && m.id.originUid == self && d.progress != Aborted
    ensures Enabled(self, d, Receive(room, m)) <==>
            room in d.live.rooms && m.id.originUid != self && d.progress != Aborted
    ensures Enabled(self, d, Crash)
  {
  }

  /** `t` is the time for a new message: the clock, unless that is not past the author's last in the room. */
  ghost predicate TimeFor(messages: seq<Message>, author: Uid, now: U64, t: U64) {
    || (t == now && forall m :: m in messages && m.id.originUid == author ==> m.timestampUs < now)
    || exists m ::
         && m in messages && m.id.originUid == author && now <= m.timestampUs
         && (forall x :: x in messages && x.id.originUid == author ==> x.timestampUs <= m.timestampUs)
         && t == if m.timestampUs == 0xFFFF_FFFF_FFFF_FFFF then 0 else m.timestampUs + 1
  }

  lemma EffectiveTimeIs(messages: seq<Message>, author: Uid, now: U64)
    requires InOrder(messages)
    ensures TimeFor(messages, author, now, EffectiveTime(messages, author, now))
  {
    LastOwnIsLatest(messages, author);
  }

  const SUBMISSION: seq<Step> := [Persist, Commit, Persist, ClearDraft, Persist]

  /**
  A submission that nothing interrupts puts the draft's text under the next sequence at its time's place in the
  room, clears the draft and has everything saved; where its time has wrapped it ends at the commit instead, with
  nothing but the sequence used up.
   */
  lemma UndisturbedSubmission(self: Uid, d: Device, room: RoomId, now: U64) returns (t: U64)
    requires Inv(self, d) && d.progress == Idle && self != "" && now != 0
    requires room in d.live.rooms && room in d.live.drafts && d.live.drafts[room] != ""
    requires 0 < d.live.next < 0xFFFF_FFFF_FFFF_FFFF
    ensures TimeFor(d.live.rooms[room], self, now, t)
    ensures var m := Rooms.Message(SharedEventId(self, d.live.next), t, d.live.drafts[room]);
            var live := Local(d.live.next + 1, d.live.drafts[room := ""],
                              d.live.rooms[room := WithMessage(d.live.rooms[room], m)]);
            var reserved := d.live.(next := d.live.next + 1);
            After(self, d, [Begin(room, now)] + SUBMISSION) ==
            if t == 0 then Device(reserved, reserved, Aborted, d.sent) else Device(live, live, Idle, d.sent)
  {
    hide WithMessage, EffectiveTime, Inv;
    assert TimelinesOk(d.live.rooms) by { InvTimelines(self, d); }
    EffectiveTimeIs(d.live.rooms[room], self, now);
    t := EffectiveTime(d.live.rooms[room], self, now);
    assert [Begin(room, now)] + SUBMISSION == [Begin(room, now), Persist, Commit, Persist, ClearDraft, Persist];
    SixSteps(self, d, Begin(room, now), Persist, Commit, Persist, ClearDraft, Persist);
  }

  lemma InvTimelines(self: Uid, d: Device)
    requires Inv(self, d)
    ensures TimelinesOk(d.live.rooms)
  {
  }

  lemma OneMoreStep(self: Uid, d: Device, steps: seq<Step>, x: Step)
    ensures After(self, d, steps + [x]) == Next(self, After(self, d, steps), x)
  {
    assert (steps + [x])[..|steps|] == steps;
  }

  lemma SixSteps(self: Uid, d: Device, a: Step, b: Step, c: Step, e: Step, f: Step, g: Step)
    ensures After(self, d, [a, b, c, e, f, g]) ==
            Next(self, Next(self, Next(self, Next(self, Next(self, Next(self, d, a), b), c), e), f), g)
  {
    hide Next, After;
    var s1, s2 := [a], [a] + [b];
    var s3, s4 := s2 + [c], s2 + [c] + [e];
    var s5, s6 := s4 + [f], s4 + [f] + [g];
    assert [a, b, c, e, f, g] == s6 && [] + [a] == s1;
    OneMoreStep(self, d, [], a);
    OneMoreStep(self, d, s1, b);
    OneMoreStep(self, d, s2, c);
    OneMoreStep(self, d, s3, e);
    OneMoreStep(self, d, s4, f);
    OneMoreStep(self, d, s5, g);
    NoStep(self, d);
  }

  lemma NoStep(self: Uid, d: Device)
    ensures After(self, d, []) == d
  {
  }

  /** What the steps around a submission do. A crash loses what has not been saved, and a sent message is saved. */
  lemma OtherSteps(self: Uid, d: Device, room: RoomId, text: string, m: Message)
    ensures d.progress == Idle ==>
              Next(self, d, Edit(room, text)) == d.(live := d.live.(drafts := d.live.drafts[room := text]))
    ensures room in d.live.rooms && m.id.originUid != self && d.progress != Aborted ==>
              Next(self, d, Receive(room, m)) ==
              d.(live := d.live.(rooms := d.live.rooms[room := WithMessage(d.live.rooms[room], m)]))
    ensures room in d.live.rooms && m in d.live.rooms[room] && m.id.originUid == self && d.progress != Aborted ==>
              Next(self, d, Send(room, m)) ==
              d.(saved := d.saved.(rooms := d.saved.rooms[room := d.live.rooms[room]]), sent := d.sent + {(room, m)})
    ensures Next(self, d, Crash) == d.(live := d.saved, progress := Idle)
  {
    hide WithMessage;
  }

  // ----- the code -----

  /** The reverse search for the author's last message, and the adjustment. */
  method AdjustTime(messages: seq<Message>, author: Uid, now: U64) returns (effective: U64)
    ensures effective == EffectiveTime(messages, author, now)
  {
    effective := now;
    var i := |messages|;
    assert messages[..i] == messages;
    while i > 0
      invariant 0 <= i <= |messages| && effective == now
      invariant LastOwn(messages, author) == LastOwn(messages[..i], author)
    {
      i := i - 1;
      assert messages[..i + 1][..i] == messages[..i];
      if messages[i].id.originUid == author {
        if effective <= messages[i].timestampUs {
          effective := if messages[i].timestampUs == MAX_U64 then 0 else messages[i].timestampUs + 1;
        }
        return;
      }
    }
  }

  class ChatWorkspace {
    const self: Uid
    var live: Local
    var saved: Local
    var saves: seq<Local>  // everything ever saved, in order

    constructor (self: Uid, state: Local)
      ensures this.self == self && live == state && saved == state && saves == []
    {
      this.self, live, saved, saves := self, state, state, [];
    }

    method PersistAll()
      modifies this`saved, this`saves
      ensures saved == live && saves == old(saves) + [live]
    {
      saved := live;
      saves := saves + [live];
    }

    /**
    The whole command without a crash: it sends nothing, or it runs through its three persist points, saving the
    reservation, the message and the cleared draft in turn, and leaves the message in the room, the counter
    advanced, the draft cleared and all of it saved. `identity`
    None is the empty identity of a refused submission; `aborted` is the failed commit.
     */
    method SubmitDraft(room: RoomId, now: U64) returns (identity: Option<SharedEventId>, aborted: bool)
      modifies this`live, this`saved, this`saves
      ensures identity.None? && !aborted <==> !CanSubmit(self, old(live), room, now)
      ensures !CanSubmit(self, old(live), room, now) ==>
                live == old(live) && saved == old(saved) && saves == old(saves)
      ensures var ran := Next(self, Next(self, Next(self, Next(self, Next(self, Next(self,
                Device(old(live), old(saved), Idle, {}), Begin(room, now)), Persist), Commit), Persist), ClearDraft),
                    Persist);
              CanSubmit(self, old(live), room, now) ==>
                live == ran.live && saved == ran.saved && (aborted <==> ran.progress.Aborted?)
      ensures CanSubmit(self, old(live), room, now) ==>
                (aborted <==> EffectiveTime(old(live).rooms[room], self, now) == 0)
      ensures identity.None? && !aborted <==>
                || self == "" || room !in old(live).rooms || room !in old(live).drafts || old(live).drafts[room] == ""
                || now == 0 || old(live).next == 0 || old(live).next == 0xFFFF_FFFF_FFFF_FFFF
      ensures CanSubmit(self, old(live), room, now) && !aborted ==>
                var m := Rooms.Message(SharedEventId(self, old(live).next),
                                       EffectiveTime(old(live).rooms[room], self, now), old(live).drafts[room]);
                && identity == Some(SharedEventId(self, old(live).next)) && saved == live
                && live == Local(old(live).next + 1, old(live).drafts[room := ""],
                                 old(live).rooms[room := WithMessage(old(live).rooms[room], m)])
                && saves == old(saves) + [old(live).(next := live.next), live.(drafts := old(live).drafts), live]
      ensures aborted ==> saves == old(saves) + [live]
    {
      if !CanSubmit(self, live, room, now) {
        return None, false;
      }
      var effective := AdjustTime(live.rooms[room], self, now);
      var message := Rooms.Message(SharedEventId(self, live.next), effective, live.drafts[room]);
      live := live.(next := live.next + 1);
      PersistAll();
      if message.timestampUs == 0 {
        return None, true;
      }
      live := live.(rooms := live.rooms[room := WithMessage(live.rooms[room], message)]);
      PersistAll();
      live := live.(drafts := live.drafts[room := ""]);
      PersistAll();
      return Some(message.id), false;
    }
  }
}
