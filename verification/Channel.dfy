/**
The lock-free publication channel between the model thread (producer) and the UI thread (consumer): some
buffers and two atomic indices. Each step is one atomic access, or one access to a buffer the thread owns;
a run is any interleaving of the two threads' steps.
 */
module Channels {
  import opened Basics

  /** Where UiMirror::Publish is. `Exhausted` is the assertion at the end of AcquireProducer. */
  datatype Producer =
    | Idle
    | SawNothingUnread
    | LoadedPublished(published: int)
    | Writing(slot: nat)
    | Exhausted
    | PublishFailed

  /** Where the consumer is. `Retaking` is a second TakePublished by a consumer that still holds a slot. */
  datatype Consumer =
    | Away
    | SawPublished(index: nat)
    | Marked(index: nat)
    | Holding(index: nat)
    | Retaking(index: nat, seen: nat)

  /** `puts` and `takes` are history: the contents published and taken so far. Index -1 is "none". */
  datatype Channel<B> = Channel(
    buffers: seq<seq<B>>,
    published: int,
    inUi: int,
    producer: Producer,
    consumer: Consumer,
    puts: seq<seq<B>>,
    takes: seq<seq<B>>)

  function Empty<B>(n: nat): Channel<B> {
    Channel(seq(n, _ => []), -1, -1, Idle, Away, [], [])
  }

  /** The slot is waiting to be taken or being read. */
  predicate Busy(slot: int, published: int, inUi: int) {
    slot == published || slot == inUi
  }

  /** First slot that is neither waiting nor being read; `n` when there is none. */
  function FirstFree(n: nat, published: int, inUi: int): (i: nat)
    ensures i <= n
    ensures i < n ==> !Busy(i, published, inUi)
    ensures forall k :: 0 <= k < i ==> Busy(k, published, inUi)
  {
    FreeFrom(n, 0, published, inUi)
  }

  function FreeFrom(n: nat, from: nat, published: int, inUi: int): (i: nat)
    requires from <= n
    ensures from <= i <= n
    ensures i < n ==> !Busy(i, published, inUi)
    ensures forall k :: from <= k < i ==> Busy(k, published, inUi)
    decreases n - from
  {
    if from == n || !Busy(from, published, inUi) then from else FreeFrom(n, from + 1, published, inUi)
  }

  lemma TwoAreBusy(published: int, inUi: int)
    ensures !Busy(0, published, inUi) || !Busy(1, published, inUi) || !Busy(2, published, inUi)
  {
  }

  /** It is the first of the slots 0, 1 and 2 that neither index names. */
  lemma FirstFreeIs(n: nat, published: int, inUi: int)
    ensures var free := if published != 0 && inUi != 0 then 0 else if published != 1 && inUi != 1 then 1 else 2;
            FirstFree(n, published, inUi) == if free < n then free else n
  {
    var i := FirstFree(n, published, inUi);
    assert i > 0 ==> Busy(0, published, inUi);
    assert i > 1 ==> Busy(1, published, inUi);
    assert i > 2 ==> Busy(2, published, inUi);
  }

  datatype Step<B> =
    | Check             // has_unread_published
    | LoadPublished     // AcquireProducer, first load
    | LoadInUi          // AcquireProducer, second load, search and clear
    | Write(b: B)       // serialization into the acquired buffer
    | Publish           // PublishProducer
    | Load              // TakePublished, load of published_
    | Mark              // TakePublished, exchange on in_ui_
    | Unpublish         // TakePublished, exchange on published_
    | Release           // ReleaseConsumer

  predicate Enabled<B>(s: Channel<B>, step: Step<B>) {
    match step
    case Check => s.producer.Idle?
    case LoadPublished => s.producer.SawNothingUnread?
    case LoadInUi => s.producer.LoadedPublished?
    case Write(_) => s.producer.Writing? && s.producer.slot < |s.buffers|
    case Publish => s.producer.Writing? && s.producer.slot < |s.buffers|
    case Load => s.consumer.Away? || s.consumer.Holding?
    case Mark => s.consumer.SawPublished? || s.consumer.Retaking?
    case Unpublish => s.consumer.Marked? && s.consumer.index < |s.buffers|
    case Release => s.consumer.Holding?
  }

  /** The state after a step; a step that is not at hand changes nothing. */
  function Next<B>(s: Channel<B>, step: Step<B>): Channel<B> {
    if !Enabled(s, step) then s
    else
      match step
      case Check => if s.published >= 0 then s else s.(producer := SawNothingUnread)
      case LoadPublished => s.(producer := LoadedPublished(s.published))
      case LoadInUi =>
        var slot := FirstFree(|s.buffers|, s.producer.published, s.inUi);
        if slot == |s.buffers| then s.(producer := Exhausted)
        else s.(producer := Writing(slot), buffers := s.buffers[slot := []])
      case Write(b) => s.(buffers := s.buffers[s.producer.slot := s.buffers[s.producer.slot] + [b]])
      case Publish =>
        if s.published == -1 then
          s.(published := s.producer.slot, producer := Idle, puts := s.puts + [s.buffers[s.producer.slot]])
        else s.(producer := PublishFailed)
      case Load =>
        if s.published < 0 then s
        else if s.consumer.Away? then s.(consumer := SawPublished(s.published))
        else s.(consumer := Retaking(s.consumer.index, s.published))
      case Mark =>
        var index := if s.consumer.Retaking? then s.consumer.seen else s.consumer.index;
        if s.inUi == -1 then s.(inUi := index, consumer := Marked(index))
        else s.(consumer := if s.consumer.Retaking? then Holding(s.consumer.index) else Away)
      case Unpublish =>
        if s.published == s.consumer.index then
          s.(published := -1, consumer := Holding(s.consumer.index), takes := s.takes + [s.buffers[s.consumer.index]])
        else s.(inUi := -1, consumer := Away)
      case Release => s.(inUi := -1, consumer := Away)
  }

  function After<B>(s: Channel<B>, steps: seq<Step<B>>): Channel<B> {
    if steps == [] then s else Next(After(s, steps[..|steps| - 1]), steps[|steps| - 1])
  }

  // ----- invariant -----

  ghost predicate ProducerOk<B>(s: Channel<B>) {
    match s.producer
    case Idle => true
    case SawNothingUnread => s.published == -1
    case LoadedPublished(p) => s.published == -1 && p == -1
    case Writing(slot) => s.published == -1 && slot < |s.buffers| && slot != s.inUi
    case Exhausted => false
    case PublishFailed => false
  }

  ghost predicate ConsumerOk<B>(s: Channel<B>) {
    match s.consumer
    case Away => s.inUi == -1
    case SawPublished(i) => s.inUi == -1 && s.published == i
    case Marked(i) => s.inUi == i && s.published == i
    case Holding(i) => Held(s, i)
    case Retaking(i, _) => Held(s, i)
  }

  /** The consumer reads the last content taken, from a slot nobody else touches. */
  ghost predicate Held<B>(s: Channel<B>, i: nat) {
    s.inUi == i < |s.buffers| && s.published != i && s.takes != [] && s.buffers[i] == s.takes[|s.takes| - 1]
  }

  /** At most one content is waiting, and everything before it has been taken, in order. */
  ghost predicate Inv<B>(s: Channel<B>) {
    && ProducerOk(s)
    && ConsumerOk(s)
    && -1 <= s.published < |s.buffers|
    && s.puts == s.takes + (if s.published >= 0 then [s.buffers[s.published]] else [])
  }

  lemma StepKeepsInv<B>(s: Channel<B>, step: Step<B>)
    requires Inv(s) && 2 <= |s.buffers|
    ensures Inv(Next(s, step)) && |Next(s, step).buffers| == |s.buffers|
  {
    if step.LoadInUi? && Enabled(s, step) {
      var slot := FirstFree(|s.buffers|, -1, s.inUi);
      assert Busy(0, -1, s.inUi) && Busy(1, -1, s.inUi) ==> false;
      assert slot < |s.buffers|;
    }
  }

  lemma {:induction false} RunKeepsInv<B>(n: nat, steps: seq<Step<B>>)
    requires 2 <= n
    ensures Inv(After(Empty(n), steps)) && |After(Empty(n), steps).buffers| == n
  {
    if steps != [] {
      RunKeepsInv(n, steps[..|steps| - 1]);
      StepKeepsInv(After(Empty(n), steps[..|steps| - 1]), steps[|steps| - 1]);
    }
  }

  // ----- what it means -----

  /**
  Under every interleaving the buffer being written is neither the one waiting nor the one being read, a
  free slot is always found, and the publishing exchange always succeeds.
   */
  lemma ProducerOwnsItsSlot<B>(n: nat, steps: seq<Step<B>>)
    requires 2 <= n
    ensures var s := After(Empty<B>(n), steps);
            && !s.producer.Exhausted? && !s.producer.PublishFailed?
            && (s.producer.Writing? ==>
                s.producer.slot < n && s.producer.slot != s.published && s.producer.slot != s.inUi)
            && (s.producer.Writing? ==> !Next(s, Publish).producer.PublishFailed?)
  {
    RunKeepsInv(n, steps);
  }

  /**
  Every content is taken at most once, in publication order, and nothing is skipped: what was taken is
  what was published, except possibly for one content still waiting. While a slot is held its
  bytes are those that were published.
   */
  lemma TakenInOrder<B>(n: nat, steps: seq<Step<B>>)
    requires 2 <= n
    ensures var s := After(Empty<B>(n), steps);
            && |s.buffers| == n && s.takes <= s.puts && |s.puts| <= |s.takes| + 1
            && (|s.puts| == |s.takes| <==> s.published == -1)
            && (s.consumer.Holding? || s.consumer.Retaking? ==>
                  s.takes != [] && s.consumer.index < n && s.buffers[s.consumer.index] == s.takes[|s.takes| - 1])
  {
    RunKeepsInv(n, steps);
  }

  /** Two slots are exactly what the protocol needs: with fewer, some run finds none free. */
  lemma SlotsNeeded<B>(n: nat)
    ensures (forall steps: seq<Step<B>> :: !After(Empty<B>(n), steps).producer.Exhausted?) <==> 2 <= n
  {
    if 2 <= n {
      forall steps: seq<Step<B>> ensures !After(Empty<B>(n), steps).producer.Exhausted? {
        RunKeepsInv(n, steps);
      }
    } else {
      var acquire := [Check, LoadPublished, LoadInUi];
      if n == 0 {
        var s1 := Ran(Empty<B>(0), [], Check);
        var s2 := Ran(Empty<B>(0), [Check], LoadPublished);
        var s3 := Ran(Empty<B>(0), [Check, LoadPublished], LoadInUi);
        assert After(Empty<B>(n), acquire).producer.Exhausted?;
      } else {
        OneSlotStarves<B>();
      }
    }
  }

  lemma Ran<B>(s: Channel<B>, steps: seq<Step<B>>, step: Step<B>) returns (s': Channel<B>)
    ensures s' == After(s, steps + [step]) == Next(After(s, steps), step)
  {
    s' := After(s, steps + [step]);
    assert (steps + [step])[..|steps|] == steps;
  }

  lemma FirstPublication<B>() returns (s: Channel<B>)
    ensures s == After(Empty<B>(1), [Check, LoadPublished, LoadInUi, Publish]) == Channel([[]], 0, -1, Idle, Away,
              [[]], [])
  {
    var s0 := Empty<B>(1);
    assert s0 == Channel([[]], -1, -1, Idle, Away, [], []);
    var s1 := Ran(s0, [], Check);
    var s2 := Ran(s0, [] + [Check], LoadPublished);
    var s3 := Ran(s0, [] + [Check] + [LoadPublished], LoadInUi);
    assert !Busy(0, -1, -1);
    assert s3.buffers == [[]];
    s := Ran(s0, [] + [Check] + [LoadPublished] + [LoadInUi], Publish);
    var steps: seq<Step<B>> := [Check, LoadPublished, LoadInUi, Publish];
    assert [] + [Check] + [LoadPublished] + [LoadInUi] + [Publish] == steps;
  }

  lemma OneSlotStarves<B>()
    ensures exists steps: seq<Step<B>> :: After(Empty<B>(1), steps).producer.Exhausted?
  {
    hide After;
    var taken, s7 := FirstTake<B>();
    var s8 := Ran(Empty<B>(1), taken, Check);
    var s9 := Ran(Empty<B>(1), taken + [Check], LoadPublished);
    var s10 := Ran(Empty<B>(1), taken + [Check] + [LoadPublished], LoadInUi);
    assert Busy(0, -1, 0);
    assert s10.producer.Exhausted?;
  }

  lemma FirstTake<B>() returns (steps: seq<Step<B>>, s: Channel<B>)
    ensures s == After(Empty<B>(1), steps) == Channel([[]], -1, 0, Idle, Holding(0), [[]], [[]])
  {
    hide After;
    var s0 := Empty<B>(1);
    var a := [Check, LoadPublished, LoadInUi, Publish];
    var s4 := FirstPublication<B>();
    var s5 := Ran(s0, a, Load);
    var s6 := Ran(s0, a + [Load], Mark);
    s := Ran(s0, a + [Load] + [Mark], Unpublish);
    steps := a + [Load] + [Mark] + [Unpublish];
  }

  // ----- the mailbox it refines -----

  /** One place to leave a content, one to read it from. */
  datatype Mailbox<B> = Mailbox(box: Option<seq<B>>, reading: Option<seq<B>>)

  datatype MailStep<B> = Put(content: seq<B>) | Take | Done

  ghost predicate MailNext<B>(m: Mailbox<B>, step: MailStep<B>, m': Mailbox<B>) {
    match step
    case Put(content) => m.box.None? && m' == m.(box := Some(content))
    case Take => m.box.Some? && m.reading.None? && m' == Mailbox(None, m.box)
    case Done => m.reading.Some? && m' == m.(reading := None)
  }

  ghost function MailboxOf<B>(s: Channel<B>): Mailbox<B>
    requires Inv(s)
  {
    Mailbox(
      if s.published >= 0 then Some(s.buffers[s.published]) else None,
      if s.consumer.Holding? || s.consumer.Retaking? then Some(s.buffers[s.consumer.index]) else None)
  }

  /** What a channel step is for the mailbox; every other step is invisible to it. */
  ghost function MailStepOf<B>(s: Channel<B>, step: Step<B>): Option<MailStep<B>>
    requires Inv(s)
  {
    if !Enabled(s, step) then None
    else
      match step
      case Publish => Some(Put(s.buffers[s.producer.slot]))
      case Unpublish => Some(Take)
      case Release => Some(Done)
      case _ => None
  }

  /** The channel refines the mailbox, step by step, whatever the interleaving. */
  lemma ChannelRefinesMailbox<B>(s: Channel<B>, step: Step<B>)
    requires Inv(s) && 2 <= |s.buffers|
    ensures Inv(Next(s, step))
    ensures match MailStepOf(s, step)
            case None => MailboxOf(Next(s, step)) == MailboxOf(s)
            case Some(m) => MailNext(MailboxOf(s), m, MailboxOf(Next(s, step)))
  {
    StepKeepsInv(s, step);
  }

  /** A TakePublished nobody interrupts: the waiting content, or nothing changed. */
  lemma UninterruptedTake<B>(s: Channel<B>)
    requires Inv(s) && s.consumer.Away? && 2 <= |s.buffers|
    ensures var s' := Next(Next(Next(s, Load), Mark), Unpublish);
            if s.published >= 0 then
              s' == s.(published := -1, inUi := s.published, consumer := Holding(s.published), takes := s.puts)
            else s' == s
  {
  }

  /** A Publish of `content` nobody interrupts leaves it waiting in the first free slot. */
  lemma UninterruptedPublish<B>(s: Channel<B>)
    requires Inv(s) && s.producer.Idle? && s.published == -1 && 2 <= |s.buffers|
    ensures var s' := Next(Next(Next(s, Check), LoadPublished), LoadInUi);
            var slot := FirstFree(|s.buffers|, -1, s.inUi);
            slot < |s.buffers| && s' == s.(producer := Writing(slot), buffers := s.buffers[slot := []])
  {
    assert Busy(0, -1, s.inUi) && Busy(1, -1, s.inUi) ==> false;
  }

  /** Each thread is at one point of its code, which decides the steps it can take. */
  lemma WhereThreadsAre<B>(s: Channel<B>, b: B)
    ensures Enabled(s, Check) <==> s.producer == Idle
    ensures Enabled(s, LoadPublished) <==> s.producer == SawNothingUnread
    ensures Enabled(s, LoadInUi) <==> s.producer.LoadedPublished?
    ensures Enabled(s, Write(b)) <==> s.producer.Writing? && s.producer.slot < |s.buffers|
    ensures Enabled(s, Publish) <==> s.producer.Writing? && s.producer.slot < |s.buffers|
    ensures Enabled(s, Load) <==> s.consumer == Away || s.consumer.Holding?
    ensures Enabled(s, Mark) <==> s.consumer.SawPublished? || s.consumer.Retaking?
    ensures Enabled(s, Unpublish) <==> s.consumer.Marked? && s.consumer.index < |s.buffers|
    ensures Enabled(s, Release) <==> s.consumer.Holding?
  {
  }

  /** The bytes of a content, in order. */
  function Writes<B>(content: seq<B>): seq<Step<B>> {
    if content == [] then [] else Writes(content[..|content| - 1]) + [Write(content[|content| - 1])]
  }

  lemma {:induction false} AfterWrites<B>(s: Channel<B>, content: seq<B>)
    requires s.producer.Writing? && s.producer.slot < |s.buffers|
    ensures After(s, Writes(content)) ==
            s.(buffers := s.buffers[s.producer.slot := s.buffers[s.producer.slot] + content])
  {
    var slot := s.producer.slot;
    if content == [] {
      assert s.buffers[slot] + [] == s.buffers[slot];
    } else {
      var n := |content| - 1;
      AfterWrites(s, content[..n]);
      var writes := Writes(content[..n]);
      assert (writes + [Write(content[n])])[..|writes|] == writes;
      assert s.buffers[slot] + content[..n] + [content[n]] == s.buffers[slot] + (content[..n] + [content[n]]);
      assert content[..n] + [content[n]] == content;
    }
  }

  /** A whole publication nobody interrupts: the content waits in the slot that was free, and nowhere else. */
  lemma UninterruptedPublication<B>(s: Channel<B>, content: seq<B>)
    requires Inv(s) && s.producer == Idle && 2 <= |s.buffers|
    ensures var acquired := Next(Next(Next(s, Check), LoadPublished), LoadInUi);
            var slot := if s.inUi == 0 then 1 else 0;
            Next(After(acquired, Writes(content)), Publish) ==
            if s.published == -1 then
              s.(published := slot, buffers := s.buffers[slot := content], puts := s.puts + [content])
            else s
  {
    if s.published == -1 {
      UninterruptedPublish(s);
      var slot := if s.inUi == 0 then 1 else 0;
      assert Busy(slot, -1, s.inUi) ==> false;
      assert slot == 1 ==> Busy(0, -1, s.inUi);
      assert FirstFree(|s.buffers|, -1, s.inUi) == slot;
      var acquired := s.(producer := Writing(slot), buffers := s.buffers[slot := []]);
      AfterWrites(acquired, content);
      assert [] + content == content;
      assert acquired.buffers[slot := content] == s.buffers[slot := content];
    } else {
      IdleWrites(s, content);
    }
  }

  /** Without an acquired slot nothing is written. */
  lemma {:induction false} IdleWrites<B>(s: Channel<B>, content: seq<B>)
    requires s.producer == Idle
    ensures After(s, Writes(content)) == s
  {
    if content != [] {
      var n := |content| - 1;
      IdleWrites(s, content[..n]);
      var writes := Writes(content[..n]);
      assert (writes + [Write(content[n])])[..|writes|] == writes;
    }
  }

  /** A second TakePublished while a slot is held finds the mark and gives up; releasing frees the slot. */
  lemma HoldingConsumer<B>(s: Channel<B>)
    requires Inv(s) && s.consumer.Holding?
    ensures Next(s, Load) ==
            if s.published >= 0 then s.(consumer := Retaking(s.consumer.index, s.published)) else s
    ensures Next(Next(s, Load), Mark) == s
    ensures Next(s, Release) == s.(inUi := -1, consumer := Away)
  {
  }

  /** Exchanges that do not find what they expect: the assertion of PublishProducer, the undo of TakePublished. */
  lemma FailedExchanges<B>(s: Channel<B>)
    ensures Enabled(s, Publish) && s.published != -1 ==> Next(s, Publish) == s.(producer := PublishFailed)
    ensures Enabled(s, Unpublish) && s.published != s.consumer.index ==>
              Next(s, Unpublish) == s.(inUi := -1, consumer := Away)
    ensures s.consumer.SawPublished? && s.inUi != -1 ==> Next(s, Mark) == s.(consumer := Away)
  {
  }

  // ----- the object -----

  /** The calls as the two threads make them; each runs the steps above back to back. */
  class PublicationChannel<B> {
    const buffers: array<seq<B>>
    var published: int
    var inUi: int
    var producer: nat

    constructor (n: nat)
      ensures fresh(buffers) && buffers.Length == n && published == -1 && inUi == -1
      ensures forall i :: 0 <= i < n ==> buffers[i] == []
    {
      buffers := new seq<B>[n](_ => []);
      published, inUi, producer := -1, -1, 0;
    }

    /** A cleared slot that is neither waiting nor being read; none only if those two are all there is. */
    method AcquireProducer() returns (slot: Option<nat>)
      modifies this`producer, buffers
      ensures slot == (if FirstFree(buffers.Length, published, inUi) < buffers.Length
                       then Some(FirstFree(buffers.Length, published, inUi)) else None)
      ensures slot.Some? ==> producer == slot.value && buffers[..] == old(buffers[..])[slot.value := []]
      ensures slot.None? ==> buffers[..] == old(buffers[..]) && buffers.Length <= 2
    {
      for i := 0 to buffers.Length
        invariant forall k :: 0 <= k < i ==> Busy(k, published, inUi)
        invariant buffers[..] == old(buffers[..])
      {
        if i != published && i != inUi {
          assert !Busy(i, published, inUi);
          producer := i;
          buffers[i] := [];
          return Some(i);
        }
      }
      TwoAreBusy(published, inUi);
      slot := None;
    }

    /** Publish the acquired slot; an unread publication is never overwritten. */
    method PublishProducer() returns (stored: bool)
      modifies this`published
      ensures stored <==> old(published) == -1
      ensures published == if stored then producer else old(published)
    {
      stored := published == -1;
      if stored {
        published := producer;
      }
    }

    /** Take the waiting slot unless one is still held; the slot is marked as held before it is freed. */
    method TakePublished() returns (index: Option<nat>)
      modifies this`published, this`inUi
      ensures index.Some? <==> old(published) >= 0 && old(inUi) == -1
      ensures index.Some? ==> index.value == old(published) == inUi && published == -1
      ensures index.None? ==> published == old(published) && inUi == old(inUi)
    {
      var idx := published;
      if idx < 0 {
        return None;
      }
      if inUi != -1 {
        return None;
      }
      inUi := idx;
      published := -1;
      index := Some(idx);
    }

    method ReleaseConsumer()
      modifies this`inUi
      ensures inUi == -1
    {
      inUi := -1;
    }

    /** Copy and release at once: the content comes out and the slot is free again. */
    method TakePublishedCopy() returns (copy: seq<B>)
      requires published < buffers.Length
      modifies this`published, this`inUi
      ensures old(published) >= 0 && old(inUi) == -1 ==>
                copy == buffers[old(published)] && published == -1 && inUi == -1
      ensures !(old(published) >= 0 && old(inUi) == -1) ==>
                copy == [] && published == old(published) && inUi == old(inUi)
    {
      var index := TakePublished();
      if index.None? {
        return [];
      }
      copy := buffers[index.value];
      ReleaseConsumer();
    }
  }
}
