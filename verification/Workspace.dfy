/** The chat workspace as an event-sourced node, and what every admissible history of it satisfies. */
module Workspaces {
  import opened Basics
  import opened EventJournal
  import opened Nodes

  datatype Role = Unconfigured | Host | Client

  const MAX_HOST_UID_INPUT: nat := 128

  /** Geometry of the desktop window. */
  datatype Bounds = Bounds(valid: bool, x: int, y: int, width: int, height: int, maximized: bool)

  datatype Workspace = Workspace(
    role: Role,
    hostUidInput: string,
    localEndpointUid: Uid,
    nextSequence: U64,
    chats: seq<nat>,
    selected: nat,
    desktopBounds: Bounds)

  datatype WorkspaceEvent =
    | ChatEntryAdded(entry: nat)
    | ChatSelected(entry: nat)
    | LocalEndpointBound(uid: Uid)
    | SequenceReserved(sequence: U64)
    | RoleConfigured(role: Role)
    | HostUidInputChanged(text: string)
    | DesktopBoundsChanged(bounds: Bounds)

  predicate CanApply(w: Workspace, e: WorkspaceEvent) {
    match e
    case ChatSelected(entry) => entry != 0 && entry in w.chats
    case SequenceReserved(sequence) => sequence == w.nextSequence && sequence != 0 && sequence != MAX_U64
    case RoleConfigured(role) => !role.Unconfigured? && w.role.Unconfigured?
    case HostUidInputChanged(text) => w.role.Client? && |text| <= MAX_HOST_UID_INPUT
    case _ => true
  }

  function Apply(w: Workspace, e: WorkspaceEvent): Workspace {
    match e
    case ChatEntryAdded(entry) => w.(chats := w.chats + [entry])
    case ChatSelected(entry) => w.(selected := entry)
    case LocalEndpointBound(uid) => w.(localEndpointUid := uid)
    case SequenceReserved(sequence) => w.(nextSequence := if sequence == MAX_U64 then 0 else sequence + 1)
    case RoleConfigured(role) => w.(role := role)
    case HostUidInputChanged(text) => w.(hostUidInput := text)
    case DesktopBoundsChanged(bounds) => w.(desktopBounds := bounds)
  }

  function WorkspaceModel(): Model<Workspace, (), WorkspaceEvent> {
    Model(Apply, CanApply, (w: Workspace, l: (), e: WorkspaceEvent) => (),
        (e: WorkspaceEvent, id: SharedEventId, ts: nat) => true)
  }

  type Journal = seq<Record<WorkspaceEvent>>

  /** Sequences reserved by a journal, in order. */
  function Reservations(journal: Journal): seq<nat> {
    if journal == [] then []
    else
      var n := |journal| - 1;
      var before := Reservations(journal[..n]);
      if journal[n].event.SequenceReserved? then before + [journal[n].event.sequence] else before
  }

  /** How often a journal configures a role. */
  function RolesConfigured(journal: Journal): nat {
    if journal == [] then 0
    else
      var n := |journal| - 1;
      RolesConfigured(journal[..n]) + if journal[n].event.RoleConfigured? then 1 else 0
  }

  /**
  Every admissible history reserves consecutive sequences from the base's counter on, so none twice, and the
  counter neither wraps nor skips.
   */
  lemma {:induction false} ReservationsAreConsecutive(base: Workspace, journal: Journal)
    requires Admissible(WorkspaceModel(), base, journal)
    ensures Fold(WorkspaceModel(), base, journal).nextSequence == base.nextSequence + |Reservations(journal)|
    ensures forall i :: 0 <= i < |Reservations(journal)| ==> Reservations(journal)[i] == base.nextSequence + i
  {
    if journal != [] {
      ReservationsAreConsecutive(base, journal[..|journal| - 1]);
    }
  }

  /** The role is decided at most once, only where the base left it open, and never undecided again. */
  lemma {:induction false} RoleIsDecidedOnce(base: Workspace, journal: Journal)
    requires Admissible(WorkspaceModel(), base, journal)
    ensures var role := Fold(WorkspaceModel(), base, journal).role;
            && RolesConfigured(journal) == (if base.role.Unconfigured? && !role.Unconfigured? then 1 else 0)
            && (!base.role.Unconfigured? ==> role == base.role)
  {
    if journal != [] {
      RoleIsDecidedOnce(base, journal[..|journal| - 1]);
    }
  }

  /** Payload of the journal's last event that `pick` reads something from. */
  function Latest<T>(journal: Journal, pick: WorkspaceEvent -> Option<T>, before: T): T {
    if journal == [] then before
    else
      var n := |journal| - 1;
      var read := pick(journal[n].event);
      if read.Some? then read.value else Latest(journal[..n], pick, before)
  }

  function EntriesAdded(journal: Journal): seq<nat> {
    if journal == [] then []
    else
      var n := |journal| - 1;
      var before := EntriesAdded(journal[..n]);
      if journal[n].event.ChatEntryAdded? then before + [journal[n].event.entry] else before
  }

  function Selection(e: WorkspaceEvent): Option<nat> {
    if e.ChatSelected? then Some(e.entry) else None
  }

  function Binding(e: WorkspaceEvent): Option<Uid> {
    if e.LocalEndpointBound? then Some(e.uid) else None
  }

  function HostInput(e: WorkspaceEvent): Option<string> {
    if e.HostUidInputChanged? then Some(e.text) else None
  }

  function Geometry(e: WorkspaceEvent): Option<Bounds> {
    if e.DesktopBoundsChanged? then Some(e.bounds) else None
  }

  function RoleChoice(e: WorkspaceEvent): Option<Role> {
    if e.RoleConfigured? then Some(e.role) else None
  }

  lemma Regroup<T>(a: seq<T>, b: seq<T>, c: seq<T>)
    ensures (a + b) + c == a + (b + c)
  {
  }

  /** What the fields mean: every field is the latest word of the journal on it, and chats accumulate in order. */
  lemma {:induction false} FieldsFollowTheJournal(base: Workspace, journal: Journal)
    ensures var w := Fold(WorkspaceModel(), base, journal);
            && w.chats == base.chats + EntriesAdded(journal)
            && w.selected == Latest(journal, Selection, base.selected)
            && w.localEndpointUid == Latest(journal, Binding, base.localEndpointUid)
            && w.hostUidInput == Latest(journal, HostInput, base.hostUidInput)
            && w.desktopBounds == Latest(journal, Geometry, base.desktopBounds)
            && w.role == Latest(journal, RoleChoice, base.role)
  {
    hide CanApply, Admissible;
    if journal == [] {
      assert base.chats + [] == base.chats;
    } else {
      var n := |journal| - 1;
      FieldsFollowTheJournal(base, journal[..n]);
      if journal[n].event.ChatEntryAdded? {
        var entry := journal[n].event.entry;
        Regroup(base.chats, EntriesAdded(journal[..n]), [entry]);
      }
    }
  }

  /**
  What a history admits next: a chat it has, the one sequence after those it reserved, a role while none is
  decided, host input of at most 128 characters once the role is Client, and everything else.
   */
  lemma AdmittedNextIff(base: Workspace, journal: Journal, r: Record<WorkspaceEvent>)
    requires Admissible(WorkspaceModel(), base, journal)
    ensures Admissible(WorkspaceModel(), base, journal + [r]) <==>
            match r.event
            case ChatSelected(entry) => entry != 0 && entry in base.chats + EntriesAdded(journal)
            case SequenceReserved(sequence) =>
              sequence == base.nextSequence + |Reservations(journal)| && 0 < sequence < 0xFFFF_FFFF_FFFF_FFFF
            case RoleConfigured(role) =>
              role != Unconfigured && base.role == Unconfigured && RolesConfigured(journal) == 0
            case HostUidInputChanged(text) => Latest(journal, RoleChoice, base.role) == Client && |text| <= 128
            case _ => true
  {
    hide Fold, Latest, Reservations, RolesConfigured, EntriesAdded;
    assert (journal + [r])[..|journal|] == journal;
    ReservationsAreConsecutive(base, journal);
    RoleIsDecidedOnce(base, journal);
    FieldsFollowTheJournal(base, journal);
  }

  /** What a workspace satisfies wherever its history leads. */
  ghost predicate Sound(w: Workspace) {
    && (w.selected == 0 || w.selected in w.chats)
    && |w.hostUidInput| <= MAX_HOST_UID_INPUT
    && (w.hostUidInput != "" ==> w.role.Client?)
  }

  lemma {:induction false} HistoriesStaySound(base: Workspace, journal: Journal)
    requires Admissible(WorkspaceModel(), base, journal) && Sound(base)
    ensures Sound(Fold(WorkspaceModel(), base, journal))
    ensures base.chats <= Fold(WorkspaceModel(), base, journal).chats
  {
    if journal != [] {
      HistoriesStaySound(base, journal[..|journal| - 1]);
    }
  }

  lemma Reservable(w: Workspace)
    requires w.nextSequence != 0 && w.nextSequence != MAX_U64
    ensures CanApply(w, SequenceReserved(w.nextSequence))
    ensures Apply(w, SequenceReserved(w.nextSequence)) == w.(nextSequence := w.nextSequence + 1)
  {
  }

  lemma NextIsNew(base: Workspace, journal: Journal)
    requires JournalOk(WorkspaceModel(), base, journal)
    ensures Fold(WorkspaceModel(), base, journal).nextSequence !in Reservations(journal)
  {
    ReservationsAreConsecutive(base, journal);
  }

  lemma ReservedLast(journal: Journal, r: Record<WorkspaceEvent>)
    requires r.event.SequenceReserved?
    ensures r.event.sequence in Reservations(journal + [r])
  {
    assert (journal + [r])[..|journal|] == journal;
    assert Reservations(journal + [r]) == Reservations(journal) + [r.event.sequence];
  }

  /**
  Reserving the next sequence on a live workspace: refused exactly when the counter is 0 or exhausted, and
  otherwise handing out a sequence its whole history has not handed out before.
   */
  method ReserveSequence(workspace: Node<Workspace, (), WorkspaceEvent>, now: U64) returns (sequence: Option<U64>)
    requires workspace.Valid() && workspace.model == WorkspaceModel()
    modifies workspace`journal, workspace`fields, workspace`local, workspace`generation
    modifies workspace`notifications, workspace`cursor
    ensures workspace.Valid()
    ensures sequence.Some? <==> old(workspace.fields).nextSequence != 0 && old(workspace.fields).nextSequence != MAX_U64
                                && CommitTime(now, old(workspace.journal)) != 0
    ensures sequence.Some? ==> sequence.value == old(workspace.fields).nextSequence
                               && workspace.fields == old(workspace.fields).(nextSequence := sequence.value + 1)
                               && sequence.value !in Reservations(old(workspace.journal))
                               && sequence.value in Reservations(workspace.journal)
  {
    var next := workspace.fields.nextSequence;
    if next == 0 || next == MAX_U64 {
      return None;
    }
    hide Fold, Admissible, CommitTime, Reservations, JournalOk, CanApply;
    NextIsNew(workspace.base, workspace.journal);
    Reservable(workspace.fields);
    ghost var before := workspace.journal;
    var ok := workspace.CommitInto(SequenceReserved(next), now);
    if !ok {
      return None;
    }
    ReservedLast(before, workspace.journal[|before|]);
    sequence := Some(next);
  }
}
