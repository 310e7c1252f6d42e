/**
Coalescing of presentation sizes posted by UI threads and applied by drains on the model thread. Each step
is one critical section, or one access by the model thread to its own surfaces.
 */
module SizeQueues {
  import opened Basics

  type Key = nat

  datatype Size = Size(width: int, height: int)

  /** Where the drain running on the model thread is, if any. `todo` are the keys it still has to visit. */
  datatype Drain =
    | NoDrain
    | Begun
    | FlagCleared
    | Visiting(todo: set<Key>, again: bool)
    | HasSize(key: Key, size: Size, todo: set<Key>, again: bool)
    | Missing(key: Key, todo: set<Key>, again: bool)
    | Found(key: Key, size: Size, todo: set<Key>, again: bool)
    | Setting(key: Key, size: Size, todo: set<Key>, again: bool)
    | Set(key: Key, size: Size, todo: set<Key>, again: bool)
    | Rescheduling
    | Reposting

  /**
  `aboutToSchedule` counts posters between filling a slot and EnsureDrainScheduled, `aboutToPost` those
  that set the flag and have yet to hand the drain to the model queue, `queued` the drains waiting there.
  `lastPosted` is history; `refused` says the model queue turned a drain away.
   */
  datatype Queue = Queue(
    slots: map<Key, Size>,
    scheduled: bool,
    aboutToSchedule: nat,
    aboutToPost: nat,
    queued: nat,
    drain: Drain,
    surfaces: map<Key, Size>,
    lastPosted: map<Key, Size>,
    refused: bool)

  const INITIAL: Queue := Queue(map[], false, 0, 0, 0, NoDrain, map[], map[], false)

  datatype Step =
    | FillSlot(key: Key, size: Size)
    | Schedule
    | PostDrain(accepted: bool)
    | BeginDrain
    | ClearFlag
    | CopyKeys
    | ReadSlot(key: Key)
    | FindSurface
    | EraseMissing
    | ReadAgain
    | SetPresentationSize
    | CompareAndErase
    | FinishDrain
    | ScheduleAgain
    | PostAgain(accepted: bool)
    | CreateSurface(key: Key, size: Size)
    | RemoveSurface(key: Key)

  /** Surfaces come and go on the model thread, between drains; ids are never reused. */
  predicate Enabled(s: Queue, step: Step) {
    match step
    case FillSlot(_, _) => true
    case Schedule => s.aboutToSchedule > 0
    case PostDrain(_) => s.aboutToPost > 0
    case BeginDrain => s.drain.NoDrain? && s.queued > 0
    case ClearFlag => s.drain.Begun?
    case CopyKeys => s.drain.FlagCleared?
    case ReadSlot(key) => s.drain.Visiting? && key in s.drain.todo
    case FindSurface => s.drain.HasSize?
    case EraseMissing => s.drain.Missing?
    case ReadAgain => s.drain.Found?
    case SetPresentationSize => s.drain.Setting? && s.drain.key in s.surfaces
    case CompareAndErase => s.drain.Set?
    case FinishDrain => s.drain.Visiting? && s.drain.todo == {}
    case ScheduleAgain => s.drain.Rescheduling?
    case PostAgain(_) => s.drain.Reposting?
    case CreateSurface(key, _) => s.drain.NoDrain? && key !in s.surfaces && key !in s.lastPosted
    case RemoveSurface(key) => s.drain.NoDrain?
  }

  /** The state after a step; a step that is not at hand changes nothing. */
  function Next(s: Queue, step: Step): Queue {
    if !Enabled(s, step) then s
    else
      match step
      case FillSlot(key, size) =>
        s.(slots := s.slots[key := size], lastPosted := s.lastPosted[key := size],
            aboutToSchedule := s.aboutToSchedule + 1)
      case Schedule =>
        if s.scheduled then s.(aboutToSchedule := s.aboutToSchedule - 1)
        else s.(aboutToSchedule := s.aboutToSchedule - 1, scheduled := true, aboutToPost := s.aboutToPost + 1)
      case PostDrain(accepted) =>
        if accepted then s.(aboutToPost := s.aboutToPost - 1, queued := s.queued + 1)
        else s.(aboutToPost := s.aboutToPost - 1, refused := true)
      case BeginDrain => s.(queued := s.queued - 1, drain := Begun)
      case ClearFlag => s.(scheduled := false, drain := FlagCleared)
      case CopyKeys => s.(drain := Visiting(s.slots.Keys, false))
      case ReadSlot(key) =>
        var todo := s.drain.todo - {key};
        s.(drain := if key in s.slots then HasSize(key, s.slots[key], todo, s.drain.again)
            else Visiting(todo, s.drain.again))
      case FindSurface =>
        var d := s.drain;
        s.(drain := if d.key in s.surfaces then Found(d.key, d.size, d.todo, d.again)
            else Missing(d.key, d.todo, d.again))
      case EraseMissing => s.(slots := s.slots - {s.drain.key}, drain := Visiting(s.drain.todo, s.drain.again))
      case ReadAgain =>
        var d := s.drain;
        s.(drain := if d.key in s.slots then Setting(d.key, s.slots[d.key], d.todo, d.again)
            else Visiting(d.todo, d.again))
      case SetPresentationSize =>
        var d := s.drain;
        s.(surfaces := s.surfaces[d.key := d.size], drain := Set(d.key, d.size, d.todo, d.again))
      case CompareAndErase =>
        var d := s.drain;
        if d.key !in s.slots then s.(drain := Visiting(d.todo, d.again))
        else if s.slots[d.key] == d.size then s.(slots := s.slots - {d.key}, drain := Visiting(d.todo, d.again))
        else s.(drain := Visiting(d.todo, true))
      case FinishDrain => s.(drain := if s.drain.again then Rescheduling else NoDrain)
      case ScheduleAgain => if s.scheduled then s.(drain := NoDrain) else s.(scheduled := true, drain := Reposting)
      case PostAgain(accepted) =>
        if accepted then s.(queued := s.queued + 1, drain := NoDrain) else s.(refused := true, drain := NoDrain)
      case CreateSurface(key, size) => s.(surfaces := s.surfaces[key := size])
      case RemoveSurface(key) => s.(surfaces := s.surfaces - {key})
  }

  function After(s: Queue, steps: seq<Step>): Queue {
    if steps == [] then s else Next(After(s, steps[..|steps| - 1]), steps[|steps| - 1])
  }

  // ----- invariant -----

  /** Drains that are scheduled and have not cleared the flag yet. */
  ghost function Outstanding(s: Queue): nat {
    s.aboutToPost + s.queued + (if s.drain.Begun? || s.drain.Reposting? then 1 else 0)
  }

  /** The running drain will still look at this slot, or will schedule another one. */
  ghost predicate CoveredByDrain(d: Drain, key: Key) {
    match d
    case NoDrain => false
    case Begun => true
    case FlagCleared => true
    case Visiting(todo, again) => key in todo || again
    case HasSize(k, _, todo, again) => key == k || key in todo || again
    case Missing(k, todo, again) => key == k || key in todo || again
    case Found(k, _, todo, again) => key == k || key in todo || again
    case Setting(k, _, todo, again) => key == k || key in todo || again
    case Set(k, _, todo, again) => key == k || key in todo || again
    case Rescheduling => true
    case Reposting => true
  }

  ghost predicate DrainOk(s: Queue) {
    match s.drain
    case Visiting(todo, _) => todo <= s.slots.Keys
    case HasSize(k, _, todo, _) => k in s.slots && k !in todo && todo <= s.slots.Keys
    case Missing(k, todo, _) => k in s.slots && k !in s.surfaces && k !in todo && todo <= s.slots.Keys
    case Found(k, _, todo, _) => k in s.slots && k in s.surfaces && k !in todo && todo <= s.slots.Keys
    case Setting(k, _, todo, _) => k in s.slots && k in s.surfaces && k !in todo && todo <= s.slots.Keys
    case Set(k, size, todo, _) =>
      k in s.slots && k in s.surfaces && s.surfaces[k] == size && k !in todo && todo <= s.slots.Keys
    case Reposting => s.scheduled
    case _ => true
  }

  /** The flag is up exactly while one drain is outstanding; after a refusal it is up with none. */
  ghost predicate Tokens(s: Queue) {
    && (s.refused ==> s.scheduled)
    && Outstanding(s) == if s.scheduled && !s.refused then 1 else 0
  }

  ghost predicate Covered(s: Queue) {
    forall key :: key in s.slots ==> s.scheduled || s.aboutToSchedule > 0 || CoveredByDrain(s.drain, key)
  }

  /** A slot holds the last size posted for its key. */
  ghost predicate SlotsCurrent(s: Queue) {
    forall key :: key in s.slots ==> key in s.lastPosted && s.slots[key] == s.lastPosted[key]
  }

  /** A surface whose slot is empty has the last size posted for it. */
  ghost predicate SurfacesCurrent(s: Queue) {
    forall key :: key in s.lastPosted && key in s.surfaces && key !in s.slots ==> s.surfaces[key] == s.lastPosted[key]
  }

  ghost predicate Inv(s: Queue) {
    Tokens(s) && DrainOk(s) && Covered(s) && SlotsCurrent(s) && SurfacesCurrent(s)
  }

  lemma StepKeepsTokens(s: Queue, step: Step)
    requires Tokens(s)
    ensures Tokens(Next(s, step))
  {
  }

  lemma StepKeepsDrain(s: Queue, step: Step)
    requires DrainOk(s)
    ensures DrainOk(Next(s, step))
  {
  }

  lemma StepKeepsCovered(s: Queue, step: Step)
    requires DrainOk(s) && Covered(s)
    ensures Covered(Next(s, step))
  {
    var s' := Next(s, step);
    forall key | key in s'.slots ensures s'.scheduled || s'.aboutToSchedule > 0 || CoveredByDrain(s'.drain, key) {
      assert key in s.slots || step.FillSlot?;
    }
  }

  lemma StepKeepsSlots(s: Queue, step: Step)
    requires SlotsCurrent(s)
    ensures SlotsCurrent(Next(s, step))
  {
  }

  lemma StepKeepsSurfaces(s: Queue, step: Step)
    requires DrainOk(s) && SlotsCurrent(s) && SurfacesCurrent(s)
    ensures SurfacesCurrent(Next(s, step))
  {
    var s' := Next(s, step);
    forall key | key in s'.lastPosted && key in s'.surfaces && key !in s'.slots
      ensures s'.surfaces[key] == s'.lastPosted[key]
    {
    }
  }

  lemma StepKeepsInv(s: Queue, step: Step)
    requires Inv(s)
    ensures Inv(Next(s, step))
  {
    hide Next, Tokens, DrainOk, Covered, SlotsCurrent, SurfacesCurrent;
    StepKeepsTokens(s, step);
    StepKeepsDrain(s, step);
    StepKeepsCovered(s, step);
    StepKeepsSlots(s, step);
    StepKeepsSurfaces(s, step);
  }

  lemma {:induction false} RunKeepsInv(steps: seq<Step>)
    ensures Inv(After(INITIAL, steps))
  {
    if steps != [] {
      RunKeepsInv(steps[..|steps| - 1]);
      StepKeepsInv(After(INITIAL, steps[..|steps| - 1]), steps[|steps| - 1]);
    }
  }

  // ----- what it means -----

  /**
  A filled slot is never forgotten: a drain is scheduled for it, the running drain still covers it, or a
  poster is about to schedule one. At most one drain is outstanding.
   */
  lemma FilledSlotIsCovered(steps: seq<Step>, key: Key)
    requires key in After(INITIAL, steps).slots && !After(INITIAL, steps).refused
    ensures var s := After(INITIAL, steps);
            && Outstanding(s) <= 1
            && (Outstanding(s) == 1 || s.aboutToSchedule > 0 || CoveredByDrain(s.drain, key))
  {
    RunKeepsInv(steps);
  }

  ghost predicate Idle(s: Queue) {
    s.aboutToSchedule == 0 && s.aboutToPost == 0 && s.queued == 0 && s.drain.NoDrain?
  }

  /**
  No posted size is lost: with nothing in progress the slots are empty and every surface that still
  exists has the size posted for it last, provided the model queue took every drain.
   */
  lemma NoSizeIsLost(steps: seq<Step>)
    requires Idle(After(INITIAL, steps)) && !After(INITIAL, steps).refused
    ensures var s := After(INITIAL, steps);
            && s.slots == map[]
            && forall key :: key in s.lastPosted && key in s.surfaces ==> s.surfaces[key] == s.lastPosted[key]
  {
    RunKeepsInv(steps);
    var s := After(INITIAL, steps);
    assert forall key :: key !in s.slots;
  }

  /** The lookups that allow for a vanished slot always find it: only the drain erases, and drains do not overlap. */
  lemma SlotsDoNotVanish(steps: seq<Step>)
    ensures var s := After(INITIAL, steps);
            && (s.drain.Visiting? ==> s.drain.todo <= s.slots.Keys)
            && (s.drain.Found? || s.drain.Set? ==> s.drain.key in s.slots)
            && (s.drain.Setting? ==> s.drain.key in s.surfaces)
  {
    RunKeepsInv(steps);
  }

  /** The flag is up and no drain is left that would take it down. */
  ghost predicate Stuck(s: Queue) {
    s.scheduled && Outstanding(s) == 0
  }

  /**
  Exactly a refusal gets the queue stuck, at any point of any run: a poster's drain turned away beside a
  running drain or with none, or the drain a running one hands back for what it was overtaken on.
   */
  lemma StuckIffRefused(steps: seq<Step>)
    ensures Stuck(After(INITIAL, steps)) <==> After(INITIAL, steps).refused
  {
    RunKeepsInv(steps);
  }

  lemma {:induction false} AfterConcat(s: Queue, first: seq<Step>, second: seq<Step>)
    ensures After(s, first + second) == After(After(s, first), second)
  {
    if second == [] {
      assert first + second == first;
    } else {
      var k := |second| - 1;
      assert (first + second)[..|first| + k] == first + second[..k];
      AfterConcat(s, first, second[..k]);
    }
  }

  lemma StuckStep(s: Queue, step: Step)
    requires Stuck(s) && s.drain.NoDrain?
    ensures Stuck(Next(s, step)) && Next(s, step).drain.NoDrain?
    ensures s.slots.Keys <= Next(s, step).slots.Keys
  {
  }

  lemma {:induction false} StuckStays(s: Queue, steps: seq<Step>)
    requires Stuck(s) && s.drain.NoDrain?
    ensures Stuck(After(s, steps)) && After(s, steps).drain.NoDrain?
    ensures s.slots.Keys <= After(s, steps).slots.Keys
  {
    hide Next, Stuck;
    if steps != [] {
      StuckStays(s, steps[..|steps| - 1]);
      StuckStep(After(s, steps[..|steps| - 1]), steps[|steps| - 1]);
    }
  }

  /**
  After a refusal, once no drain runs, no drain ever runs again and every slot that is filled, or is
  filled later, stays filled.
   */
  lemma RefusedDrainIsForever(steps: seq<Step>, more: seq<Step>)
    requires After(INITIAL, steps).refused && After(INITIAL, steps).drain.NoDrain?
    ensures var s, e := After(INITIAL, steps), After(INITIAL, steps + more);
            e.refused && e.drain.NoDrain? && s.slots.Keys <= e.slots.Keys
  {
    StuckIffRefused(steps);
    AfterConcat(INITIAL, steps, more);
    StuckStays(After(INITIAL, steps), more);
    StuckIffRefused(steps + more);
  }

  /**
  A size posted with no drain running is still in its slot when everything has settled, if and only if a
  drain was refused before. A refusal during `more` is the one case left out: the size may or may not be
  among those the last drain took.
   */
  lemma PostedSizeStaysIffRefused(steps: seq<Step>, key: Key, size: Size, more: seq<Step>)
    requires After(INITIAL, steps).drain.NoDrain?
    requires Idle(After(INITIAL, steps + [FillSlot(key, size)] + more))
    requires After(INITIAL, steps + [FillSlot(key, size)] + more).refused ==> After(INITIAL, steps).refused
    ensures key in After(INITIAL, steps + [FillSlot(key, size)] + more).slots <==> After(INITIAL, steps).refused
  {
    var posted := steps + [FillSlot(key, size)];
    var s := After(INITIAL, steps);
    assert posted[..|steps|] == steps && After(INITIAL, posted) == Next(s, FillSlot(key, size));
    if s.refused {
      RefusedDrainIsForever(posted, more);
    } else {
      NoSizeIsLost(posted + more);
    }
  }

  // ----- undisturbed drains -----

  /** When a poster or the model thread between drains can take its steps. */
  lemma StepsAtHand(s: Queue, key: Key, size: Size, accepted: bool)
    ensures Enabled(s, FillSlot(key, size))
    ensures Enabled(s, Schedule) <==> s.aboutToSchedule > 0
    ensures Enabled(s, PostDrain(accepted)) <==> s.aboutToPost > 0
    ensures Enabled(s, BeginDrain) <==> s.drain == NoDrain && s.queued > 0
    ensures Enabled(s, CreateSurface(key, size)) <==>
            s.drain == NoDrain && key !in s.surfaces && key !in s.lastPosted
    ensures Enabled(s, RemoveSurface(key)) <==> s.drain == NoDrain
  {
  }

  /** A running drain is at one point of its code. */
  lemma DrainStepsAtHand(s: Queue, key: Key)
    ensures Enabled(s, ClearFlag) <==> s.drain == Begun
    ensures Enabled(s, CopyKeys) <==> s.drain == FlagCleared
    ensures Enabled(s, ReadSlot(key)) <==> s.drain.Visiting? && key in s.drain.todo
    ensures Enabled(s, FindSurface) <==> s.drain.HasSize?
    ensures Enabled(s, EraseMissing) <==> s.drain.Missing?
    ensures Enabled(s, ReadAgain) <==> s.drain.Found?
  {
  }

  lemma LaterDrainStepsAtHand(s: Queue, accepted: bool)
    ensures Enabled(s, SetPresentationSize) <==> s.drain.Setting? && s.drain.key in s.surfaces
    ensures Enabled(s, CompareAndErase) <==> s.drain.Set?
    ensures Enabled(s, FinishDrain) <==> s.drain.Visiting? && s.drain.todo == {}
    ensures Enabled(s, ScheduleAgain) <==> s.drain == Rescheduling
    ensures Enabled(s, PostAgain(accepted)) <==> s.drain == Reposting
  {
  }

  /** Surfaces come at a size and go, and neither touches a slot. */
  lemma SurfacesComeAndGo(s: Queue, key: Key, size: Size)
    requires s.drain == NoDrain
    ensures key !in s.surfaces && key !in s.lastPosted ==>
              Next(s, CreateSurface(key, size)) == s.(surfaces := s.surfaces[key := size])
    ensures Next(s, RemoveSurface(key)) == s.(surfaces := s.surfaces - {key})
  {
  }

  lemma One(s: Queue, x: Step)
    ensures After(s, [x]) == Next(s, x)
  {
    assert [x][..0] == [];
  }

  /** A post: the slot has the size, and a drain is on its way to the model thread exactly once. */
  lemma Posted(s: Queue, key: Key, size: Size)
    requires s.aboutToSchedule == 0 && s.aboutToPost == 0
    ensures After(s, [FillSlot(key, size)] + ([Schedule] + [PostDrain(true)])) ==
            s.(slots := s.slots[key := size], lastPosted := s.lastPosted[key := size], scheduled := true,
               queued := if s.scheduled then s.queued else s.queued + 1)
    ensures After(s, [FillSlot(key, size)] + ([Schedule] + [PostDrain(false)])) ==
            s.(slots := s.slots[key := size], lastPosted := s.lastPosted[key := size], scheduled := true,
               refused := s.refused || !s.scheduled)
  {
    One(s, FillSlot(key, size));
    var t := Next(s, FillSlot(key, size));
    One(t, Schedule);
    forall accepted: bool
      ensures After(s, [FillSlot(key, size)] + ([Schedule] + [PostDrain(accepted)]))
           == Next(Next(t, Schedule), PostDrain(accepted))
    {
      AfterConcat(s, [FillSlot(key, size)], [Schedule] + [PostDrain(accepted)]);
      AfterConcat(t, [Schedule], [PostDrain(accepted)]);
      One(Next(t, Schedule), PostDrain(accepted));
    }
  }

  /** What a drain that is not overtaken leaves of the surfaces: each has the size in its slot. */
  ghost function Applied(surfaces: map<Key, Size>, slots: map<Key, Size>, keys: set<Key>): map<Key, Size> {
    map key | key in surfaces :: if key in keys && key in slots then slots[key] else surfaces[key]
  }

  /** The steps of one visit. */
  function VisitSteps(s: Queue, key: Key): seq<Step> {
    [ReadSlot(key)] +
    if key !in s.slots then []
    else [FindSurface] + if key !in s.surfaces then [EraseMissing]
                         else [ReadAgain] + ([SetPresentationSize] + [CompareAndErase])
  }

  /** An undisturbed visit sets an existing surface to the size in its slot and empties the slot. */
  lemma Visited(s: Queue, key: Key)
    requires s.drain.Visiting? && key in s.drain.todo
    ensures After(s, VisitSteps(s, key)) ==
            s.(slots := s.slots - {key}, surfaces := Applied(s.surfaces, s.slots, {key}),
               drain := Visiting(s.drain.todo - {key}, s.drain.again))
  {
    hide After, Next;
    One(s, ReadSlot(key));
    if key !in s.slots {
      NextOf(s, key);
      assert [ReadSlot(key)] + [] == [ReadSlot(key)];
      assert s.slots - {key} == s.slots && Applied(s.surfaces, s.slots, {key}) == s.surfaces;
    } else if key !in s.surfaces {
      ThreeSteps(s, ReadSlot(key), FindSurface, EraseMissing);
      VisitedMissing(s, key);
      assert Applied(s.surfaces, s.slots, {key}) == s.surfaces;
    } else {
      var rest := [ReadAgain] + ([SetPresentationSize] + [CompareAndErase]);
      var t := Next(s, ReadSlot(key));
      AfterConcat(s, [ReadSlot(key)], [FindSurface] + rest);
      AfterConcat(t, [FindSurface], rest);
      One(t, FindSurface);
      ThreeSteps(Next(t, FindSurface), ReadAgain, SetPresentationSize, CompareAndErase);
      VisitedFound(s, key);
      assert Applied(s.surfaces, s.slots, {key}) == s.surfaces[key := s.slots[key]];
    }
  }

  lemma NextOf(s: Queue, key: Key)
    requires s.drain.Visiting? && key in s.drain.todo && key !in s.slots
    ensures Next(s, ReadSlot(key)) == s.(drain := Visiting(s.drain.todo - {key}, s.drain.again))
  {
  }

  lemma VisitedMissing(s: Queue, key: Key)
    requires s.drain.Visiting? && key in s.drain.todo && key in s.slots && key !in s.surfaces
    ensures Next(Next(Next(s, ReadSlot(key)), FindSurface), EraseMissing) ==
            s.(slots := s.slots - {key}, drain := Visiting(s.drain.todo - {key}, s.drain.again))
  {
  }

  lemma VisitedFound(s: Queue, key: Key)
    requires s.drain.Visiting? && key in s.drain.todo && key in s.slots && key in s.surfaces
    ensures Next(Next(Next(Next(Next(s, ReadSlot(key)), FindSurface), ReadAgain), SetPresentationSize), CompareAndErase)
         == s.(slots := s.slots - {key}, surfaces := s.surfaces[key := s.slots[key]],
               drain := Visiting(s.drain.todo - {key}, s.drain.again))
  {
  }

  lemma ThreeSteps(s: Queue, x: Step, y: Step, z: Step)
    ensures After(s, [x] + ([y] + [z])) == Next(Next(Next(s, x), y), z)
  {
    hide Next;
    AfterConcat(s, [x], [y] + [z]);
    One(s, x);
    AfterConcat(Next(s, x), [y], [z]);
    One(Next(s, x), y);
    One(Next(Next(s, x), y), z);
  }

  lemma {:induction false} VisitedAll(s: Queue) returns (steps: seq<Step>)
    requires s.drain.Visiting?
    ensures After(s, steps) ==
            s.(slots := s.slots - s.drain.todo, surfaces := Applied(s.surfaces, s.slots, s.drain.todo),
               drain := Visiting({}, s.drain.again))
    decreases |s.drain.todo|
  {
    hide After, Next;
    var todo := s.drain.todo;
    if todo == {} {
      steps := [];
      assert After(s, []) == s by { Nothing(s); }
      assert s.slots - {} == s.slots && Applied(s.surfaces, s.slots, {}) == s.surfaces;
    } else {
      hide Applied, VisitSteps;
      var key :| key in todo;
      Visited(s, key);
      var t := After(s, VisitSteps(s, key));
      var rest := VisitedAll(t);
      AfterConcat(s, VisitSteps(s, key), rest);
      steps := VisitSteps(s, key) + rest;
      assert s.slots - {key} - (todo - {key}) == s.slots - todo;
      AppliedTwice(s.surfaces, s.slots, todo, key);
    }
  }

  lemma AppliedTwice(surfaces: map<Key, Size>, slots: map<Key, Size>, todo: set<Key>, key: Key)
    requires key in todo
    ensures Applied(Applied(surfaces, slots, {key}), slots - {key}, todo - {key}) == Applied(surfaces, slots, todo)
  {
  }

  lemma Nothing(s: Queue)
    ensures After(s, []) == s
  {
  }

  /**
  A drain that nothing interrupts: every surface that exists has the size in its slot, the slots are empty, the flag
  is down, and the model thread is free.
   */
  lemma UndisturbedDrain(s: Queue) returns (steps: seq<Step>)
    requires s.drain == NoDrain && s.queued > 0
    ensures After(s, steps) ==
            s.(slots := map[], scheduled := false, queued := s.queued - 1,
               surfaces := Applied(s.surfaces, s.slots, s.slots.Keys))
  {
    hide After;
    ThreeSteps(s, BeginDrain, ClearFlag, CopyKeys);
    var t := Next(Next(Next(s, BeginDrain), ClearFlag), CopyKeys);
    var visits := VisitedAll(t);
    var begin := [BeginDrain] + ([ClearFlag] + [CopyKeys]);
    AfterConcat(t, visits, [FinishDrain]);
    AfterConcat(s, begin, visits + [FinishDrain]);
    One(After(t, visits), FinishDrain);
    steps := begin + (visits + [FinishDrain]);
    assert s.slots - s.slots.Keys == map[];
  }

  /**
  A drain that is overtaken: a different size posted between the setting of a surface and the comparison stays in
  its slot, and the drain hands back one more, unless one is scheduled already.
   */
  lemma OvertakenDrain(s: Queue, key: Key, size: Size, accepted: bool)
    requires s.drain.Set? && key == s.drain.key && size != s.drain.size && s.drain.todo == {}
    ensures var posted := Next(s, FillSlot(key, size));
            var after := Next(Next(Next(Next(posted, CompareAndErase), FinishDrain), ScheduleAgain),
                PostAgain(accepted));
            after == posted.(drain := NoDrain, scheduled := true,
                             queued := if !s.scheduled && accepted then s.queued + 1 else s.queued,
                             refused := s.refused || (!s.scheduled && !accepted))
  {
  }

  /** A size posted between the two readings of a slot is the one that is set, and its slot is emptied. */
  lemma LaterSizeIsPickedUp(s: Queue, key: Key, size: Size)
    requires s.drain.Found? && key == s.drain.key && key in s.surfaces
    ensures var posted := Next(s, FillSlot(key, size));
            Next(Next(Next(posted, ReadAgain), SetPresentationSize), CompareAndErase) ==
            posted.(slots := posted.slots - {key}, surfaces := s.surfaces[key := size],
                    drain := Visiting(s.drain.todo, s.drain.again))
  {
  }

  /** Lookups that find the slot gone pass the key over. */
  lemma VanishedSlots(s: Queue)
    ensures s.drain.Found? && s.drain.key !in s.slots ==>
              Next(s, ReadAgain) == s.(drain := Visiting(s.drain.todo, s.drain.again))
    ensures s.drain.Set? && s.drain.key !in s.slots ==>
              Next(s, CompareAndErase) == s.(drain := Visiting(s.drain.todo, s.drain.again))
  {
  }

  // ----- the object -----

  /** The queue as a single thread sees it: a post, and a drain nobody interrupts. */
  class SurfacesPresentationSizeQueue {
    var slots: map<Key, Size>
    var drainScheduled: bool
    var drains: nat

    constructor ()
      ensures slots == map[] && !drainScheduled && drains == 0
    {
      slots, drainScheduled, drains := map[], false, 0;
    }

    method EnsureDrainScheduled()
      modifies this`drainScheduled, this`drains
      ensures drainScheduled
      ensures drains == if old(drainScheduled) then old(drains) else old(drains) + 1
    {
      if drainScheduled {
        return;
      }
      drainScheduled := true;
      drains := drains + 1;
    }

    method Post(key: Key, size: Size)
      modifies this
      ensures slots == old(slots)[key := size] && drainScheduled
      ensures drains == if old(drainScheduled) then old(drains) else old(drains) + 1
    {
      slots := slots[key := size];
      EnsureDrainScheduled();
    }

    /** One key of a drain: its slot is emptied, unless a different size has come in for it meanwhile. */
    method VisitSlot(ghost slots0: map<Key, Size>, ghost surfaces: map<Key, Size>, ghost keys: set<Key>,
        late: map<Key, Size>, set0: map<Key, Size>, key: Key) returns (result: map<Key, Size>, again: bool)
      requires Drained(slots0, surfaces, late, slots, keys, set0) && key in keys
      modifies this`slots
      ensures Drained(slots0, surfaces, late, slots, keys - {key}, result)
      ensures slots.Keys - {key} == old(slots).Keys - {key} && (again <==> key in slots)
    {
      DrainedOne(slots0, surfaces, late, slots, keys, set0, key);
      hide Drained;
      result, again := set0, false;
      ghost var slots1 := slots;
      var size := slots[key];
      if key !in result {
        slots := slots - {key};
      } else {
        result := result[key := size];
        if key in late {
          slots := slots[key := late[key]];
        }
        if slots[key] == size {
          slots := slots - {key};
          assert slots == slots1 - {key};
        } else {
          again := true;
          assert slots == slots1[key := late[key]];
        }
      }
    }

    /**
    A whole drain. `late` are the sizes posted for a key between the setting of its surface and the comparison
    that follows. Each existing surface gets the size in its slot and no other surface changes; exactly
    the slots that were overtaken by a different size stay filled, and then, and only then, another drain
    is scheduled.
     */
    method Drain(surfaces: map<Key, Size>, late: map<Key, Size>) returns (result: map<Key, Size>)
      modifies this
      ensures result.Keys == surfaces.Keys
      ensures forall key :: key in surfaces ==>
                result[key] == if key in old(slots) then old(slots)[key] else surfaces[key]
      ensures forall key :: key in slots <==> Overtaken(old(slots), surfaces, late, key)
      ensures forall key :: key in slots ==> key in late && slots[key] == late[key]
      ensures drainScheduled <==> slots != map[]
      ensures drains == if slots != map[] then old(drains) + 1 else old(drains)
    {
      hide Drained, Overtaken;
      drainScheduled := false;
      result := surfaces;
      ghost var slots0 := slots;
      var keys := slots.Keys;
      var needAgain := false;
      NothingDrained(slots, surfaces, late);
      while keys != {}
        invariant Drained(slots0, surfaces, late, slots, keys, result) && keys <= slots.Keys
        invariant !drainScheduled && drains == old(drains)
        invariant needAgain <==> !(slots.Keys <= keys)
        decreases |keys|
      {
        var key :| key in keys;
        ghost var slots1 := slots;
        var again;
        result, again := VisitSlot(slots0, surfaces, keys, late, result, key);
        OneVisited(slots1.Keys, slots.Keys, keys, key);
        keys := keys - {key};
        if again {
          needAgain := true;
        }
      }
      AllDrained(slots0, surfaces, late, slots, result);
      if needAgain {
        EnsureDrainScheduled();
      }
    }
  }

  lemma OneVisited(before: set<Key>, after: set<Key>, keys: set<Key>, key: Key)
    requires key in keys && after - {key} == before - {key}
    ensures keys <= before ==> keys - {key} <= after
    ensures key in after ==> !(after <= keys - {key})
    ensures key !in after ==> (after <= keys - {key} <==> before <= keys)
  {
    assert forall k :: k != key ==> (k in after <==> k in after - {key}) && (k in before <==> k in before - {key});
  }

  /** A different size was posted for the key while the drain was setting the one it had read. */
  ghost predicate Overtaken(slots: map<Key, Size>, surfaces: map<Key, Size>, late: map<Key, Size>, key: Key) {
    key in slots && key in surfaces && key in late && late[key] != slots[key]
  }

  /** A drain that has visited all slots but those of `keys`. */
  ghost predicate Drained(slots0: map<Key, Size>, surfaces: map<Key, Size>, late: map<Key, Size>,
                          slots: map<Key, Size>, keys: set<Key>, result: map<Key, Size>) {
    && keys <= slots0.Keys && result.Keys == surfaces.Keys
    && (forall key :: key in slots <==> key in keys || Overtaken(slots0, surfaces, late, key))
    && (forall key :: key in slots ==>
        if key in keys then slots[key] == slots0[key] else key in late && slots[key] == late[key])
    && (forall key :: key in surfaces ==>
          result[key] == if key in slots0 && key !in keys then slots0[key] else surfaces[key])
  }

  lemma NothingDrained(slots: map<Key, Size>, surfaces: map<Key, Size>, late: map<Key, Size>)
    ensures Drained(slots, surfaces, late, slots, slots.Keys, surfaces)
  {
  }

  lemma DrainedOne(slots0: map<Key, Size>, surfaces: map<Key, Size>, late: map<Key, Size>,
                   slots: map<Key, Size>, keys: set<Key>, result: map<Key, Size>, key: Key)
    requires Drained(slots0, surfaces, late, slots, keys, result) && key in keys
    ensures key in slots
    ensures key !in result ==> Drained(slots0, surfaces, late, slots - {key}, keys - {key}, result)
    ensures key in result && !(key in late && late[key] != slots[key]) ==>
              Drained(slots0, surfaces, late, slots - {key}, keys - {key}, result[key := slots[key]])
    ensures key in result && key in late && late[key] != slots[key] ==>
              Drained(slots0, surfaces, late, slots[key := late[key]], keys - {key}, result[key := slots[key]])
  {
  }

  lemma AllDrained(slots0: map<Key, Size>, surfaces: map<Key, Size>, late: map<Key, Size>, slots: map<Key, Size>,
        result: map<Key, Size>)
    requires Drained(slots0, surfaces, late, slots, {}, result)
    ensures result.Keys == surfaces.Keys
    ensures forall key :: key in surfaces ==> result[key] == if key in slots0 then slots0[key] else surfaces[key]
    ensures forall key :: key in slots <==> Overtaken(slots0, surfaces, late, key)
    ensures forall key :: key in slots ==> key in late && slots[key] == late[key]
    ensures slots.Keys <= {} <==> slots == map[]
  {
  }
}
