/** The model thread: its work queue under every interleaving with posters and stop requests. */
module ModelRuntimes {
  import opened Basics

  /** Where the thread is. `final` marks the drain after the loop has seen the stop flag. */
  datatype Thread =
    | NotStarted
    | Testing
    | Draining(final: bool)
    | Running(work: nat, final: bool)
    | Publishing
    | Waiting
    | Ended

  /**
  `stopping` says RequestStop is inside its critical section, between its two writes. The work items are
  named by the number of the Post that brought them; the last three components are history.
   */
  datatype Runtime = Runtime(
    accepting: bool,
    stop: bool,
    stopping: bool,
    queue: seq<nat>,
    thread: Thread,
    posts: nat,
    accepted: seq<nat>,
    rejected: set<nat>,
    executed: seq<nat>)

  const INITIAL: Runtime := Runtime(true, false, false, [], NotStarted, 0, [], {}, [])

  datatype Step =
    | Start
    | Post
    | CloseAcceptance
    | RaiseStop
    | TestStop
    | TakeWork
    | FinishWork
    | UpdateAndPublish
    | Wake

  predicate Enabled(s: Runtime, step: Step) {
    match step
    case Start => (s.thread.NotStarted? || s.thread.Ended?) && !s.stopping
    case Post => !s.stopping
    case CloseAcceptance => !s.stopping
    case RaiseStop => s.stopping
    case TestStop => s.thread.Testing?
    case TakeWork => s.thread.Draining? && !s.stopping
    case FinishWork => s.thread.Running?
    case UpdateAndPublish => s.thread.Publishing?
    case Wake => s.thread.Waiting? && !s.stopping
  }

  /** The state after a step; a step that is not at hand changes nothing. */
  function Next(s: Runtime, step: Step): Runtime {
    if !Enabled(s, step) then s
    else
      match step
      case Start => s.(stop := false, accepting := true, thread := Testing)
      case Post =>
        if s.accepting then s.(queue := s.queue + [s.posts], accepted := s.accepted + [s.posts], posts := s.posts + 1)
        else s.(rejected := s.rejected + {s.posts}, posts := s.posts + 1)
      case CloseAcceptance => s.(accepting := false, stopping := true)
      case RaiseStop => s.(stop := true, stopping := false)
      case TestStop => s.(thread := Draining(s.stop))
      case TakeWork =>
        if s.queue == [] then s.(thread := if s.thread.final then Ended else Publishing)
        else s.(queue := s.queue[1..], thread := Running(s.queue[0], s.thread.final))
      case FinishWork => s.(executed := s.executed + [s.thread.work], thread := Draining(s.thread.final))
      case UpdateAndPublish => s.(thread := Waiting)
      case Wake => s.(thread := Testing)
  }

  function After(s: Runtime, steps: seq<Step>): Runtime {
    if steps == [] then s else Next(After(s, steps[..|steps| - 1]), steps[|steps| - 1])
  }

  function InHand(s: Runtime): seq<nat> {
    if s.thread.Running? then [s.thread.work] else []
  }

  ghost predicate Inv(s: Runtime) {
    && s.accepted == s.executed + InHand(s) + s.queue
    && (s.stopping || s.stop ==> !s.accepting)
    && (s.thread.Draining? && s.thread.final ==> !s.accepting)
    && (s.thread.Running? && s.thread.final ==> !s.accepting)
    && (s.thread.Ended? ==> s.queue == [] && !s.accepting)
    && (forall w :: w in s.accepted ==> w < s.posts)
    && (forall w :: w in s.rejected ==> w < s.posts && w !in s.accepted)
    && (forall i, j :: 0 <= i < j < |s.accepted| ==> s.accepted[i] < s.accepted[j])
  }

  lemma StepKeepsInv(s: Runtime, step: Step)
    requires Inv(s)
    ensures Inv(Next(s, step))
  {
    QueueStep(s, step);
    var s' := Next(s, step);
    if Enabled(s, step) && step.Post? && s.accepting {
      assert forall i :: 0 <= i < |s.accepted| ==> s.accepted[i] in s.accepted;
    } else {
      assert s'.accepted == s.accepted;
    }
  }

  /** Nothing is lost or reordered between acceptance and execution. */
  lemma QueueStep(s: Runtime, step: Step)
    requires s.accepted == s.executed + InHand(s) + s.queue
    ensures Next(s, step).accepted == Next(s, step).executed + InHand(Next(s, step)) + Next(s, step).queue
  {
    var s' := Next(s, step);
    if Enabled(s, step) {
      match step {
        case Post => Reassociate(s.executed, InHand(s), s.queue, [s.posts]);
        case TakeWork =>
          if s.queue != [] {
            Reassociate(s.executed, [], [s.queue[0]], s.queue[1..]);
            assert [s.queue[0]] + s.queue[1..] == s.queue;
          }
        case FinishWork => Reassociate(s.executed, InHand(s), [], s.queue);
        case _ =>
      }
    }
  }

  lemma Reassociate(a: seq<nat>, b: seq<nat>, c: seq<nat>, d: seq<nat>)
    ensures a + b + c + d == a + b + (c + d)
    ensures a + b + (c + d) == a + (b + c) + d
    ensures b == [] ==> a + b == a
    ensures c == [] ==> a + b + d == a + b + c + d
    ensures d != [] ==> [d[0]] + d[1..] == d
  {
  }

  lemma {:induction false} RunKeepsInv(steps: seq<Step>)
    ensures Inv(After(INITIAL, steps))
  {
    if steps != [] {
      RunKeepsInv(steps[..|steps| - 1]);
      StepKeepsInv(After(INITIAL, steps[..|steps| - 1]), steps[|steps| - 1]);
    }
  }

  ghost predicate Once(work: seq<nat>) {
    forall i, j :: 0 <= i < j < |work| ==> work[i] != work[j]
  }

  /**
  Under every interleaving, what has run is a prefix of what was accepted, in acceptance order and each
  item once; a rejected item never runs; and when the thread has ended, everything accepted has run.
   */
  lemma AcceptedRunsExactlyOnce(steps: seq<Step>)
    ensures var s := After(INITIAL, steps);
            && s.executed <= s.accepted && Once(s.accepted)
            && (forall w :: w in s.rejected ==> w !in s.executed)
            && (forall w: nat :: w < s.posts <==> w in s.accepted || w in s.rejected)
            && (s.thread.Ended? ==> s.executed == s.accepted && !s.accepting)
  {
    RunKeepsInv(steps);
    EveryPostDecided(steps);
    var s := After(INITIAL, steps);
    assert forall w :: w in s.executed ==> w in s.accepted;
    if s.thread.Ended? {
      assert s.executed + [] + [] == s.executed;
    }
  }

  ghost predicate Decided(s: Runtime) {
    forall w: nat :: w < s.posts ==> w in s.accepted || w in s.rejected
  }

  lemma StepDecides(s: Runtime, step: Step)
    requires Decided(s)
    ensures Decided(Next(s, step))
  {
    if step.Post? && Enabled(s, step) && s.accepting {
      assert Next(s, step).accepted[|s.accepted|] == s.posts;
    }
  }

  lemma {:induction false} EveryPostDecided(steps: seq<Step>)
    ensures Decided(After(INITIAL, steps))
  {
    if steps != [] {
      EveryPostDecided(steps[..|steps| - 1]);
      StepDecides(After(INITIAL, steps[..|steps| - 1]), steps[|steps| - 1]);
    }
  }

  /** Once the thread drains for the last time nothing is added any more, so that drain ends. */
  lemma FinalDrainShrinks(s: Runtime, step: Step)
    requires Inv(s) && ((s.thread.Draining? && s.thread.final) || (s.thread.Running? && s.thread.final))
    ensures var s' := Next(s, step);
            && |s'.queue| <= |s.queue| && s'.accepted == s.accepted
            && (step.TakeWork? && Enabled(s, step) ==> |s'.queue| < |s.queue| || s'.thread.Ended?)
  {
  }

  /**
  When each step is at hand: the thread's own by where it is, and nothing that takes the lock while RequestStop is
  between its two writes.
   */
  lemma StepsAtHand(s: Runtime)
    ensures Enabled(s, Start) <==> (s.thread == NotStarted || s.thread == Ended) && !s.stopping
    ensures Enabled(s, Post) <==> !s.stopping
    ensures Enabled(s, CloseAcceptance) <==> !s.stopping
    ensures Enabled(s, RaiseStop) <==> s.stopping
    ensures Enabled(s, TestStop) <==> s.thread == Testing
    ensures Enabled(s, TakeWork) <==> s.thread.Draining? && !s.stopping
    ensures Enabled(s, FinishWork) <==> s.thread.Running?
    ensures Enabled(s, UpdateAndPublish) <==> s.thread == Publishing
    ensures Enabled(s, Wake) <==> s.thread == Waiting && !s.stopping
  {
  }

  // ----- undisturbed runs -----

  lemma {:induction false} AfterConcat(s: Runtime, a: seq<Step>, b: seq<Step>)
    ensures After(s, a + b) == After(After(s, a), b)
    decreases |b|
  {
    if b == [] {
      assert a + b == a;
    } else {
      var n := |b| - 1;
      assert (a + b)[..|a + b| - 1] == a + b[..n];
      AfterConcat(s, a, b[..n]);
    }
  }

  /** Take and finish `n` items, then find the queue empty. */
  function DrainSteps(n: nat): seq<Step> {
    if n == 0 then [TakeWork] else [TakeWork, FinishWork] + DrainSteps(n - 1)
  }

  /** An undisturbed drain runs the whole queue in order; the last one ends the thread, any other goes on to publish. */
  lemma {:induction false} DrainRunsQueue(s: Runtime)
    requires s.thread.Draining? && !s.stopping
    ensures After(s, DrainSteps(|s.queue|)) ==
            s.(queue := [], executed := s.executed + s.queue, thread := if s.thread.final then Ended else Publishing)
    decreases |s.queue|
  {
    if s.queue == [] {
      assert [TakeWork][..0] == [];
      assert s.executed + [] == s.executed;
    } else {
      var item := s.queue[0];
      var t := s.(queue := s.queue[1..], executed := s.executed + [item]);
      Two(s, TakeWork, FinishWork);
      DrainRunsQueue(t);
      AfterConcat(s, [TakeWork, FinishWork], DrainSteps(|s.queue| - 1));
      assert s.executed + [item] + s.queue[1..] == s.executed + ([item] + s.queue[1..]);
      assert [item] + s.queue[1..] == s.queue;
    }
  }

  lemma One(s: Runtime, x: Step)
    ensures After(s, [x]) == Next(s, x)
  {
    assert [x][..0] == [];
  }

  lemma Two(s: Runtime, x: Step, y: Step)
    ensures After(s, [x, y]) == Next(Next(s, x), y)
  {
    assert [x, y][..1] == [x];
    One(s, x);
  }

  /** An item posted while the thread waits in an open window runs in the next round, behind those queued before. */
  lemma PostedItemRuns(s: Runtime)
    requires s.thread.Waiting? && s.accepting && !s.stop && !s.stopping
    ensures After(s, [Post] + ([Wake, TestStop] + (DrainSteps(|s.queue| + 1) + [UpdateAndPublish]))) ==
            s.(queue := [], accepted := s.accepted + [s.posts], executed := s.executed + (s.queue + [s.posts]),
               posts := s.posts + 1)
  {
    var drain := DrainSteps(|s.queue| + 1);
    AfterConcat(s, [Post], [Wake, TestStop] + (drain + [UpdateAndPublish]));
    One(s, Post);
    var t := Next(s, Post);
    AfterConcat(t, [Wake, TestStop], drain + [UpdateAndPublish]);
    Two(t, Wake, TestStop);
    var u := Next(Next(t, Wake), TestStop);
    AfterConcat(u, drain, [UpdateAndPublish]);
    DrainRunsQueue(u);
    One(After(u, drain), UpdateAndPublish);
  }

  /** A stop request lets a waiting thread run what is queued and end; what is posted meanwhile is rejected. */
  lemma ShutdownRunsQueue(s: Runtime)
    requires s.thread.Waiting? && !s.stopping
    ensures After(s, [CloseAcceptance, RaiseStop] + ([Post] + ([Wake, TestStop] + DrainSteps(|s.queue|)))) ==
            s.(accepting := false, stop := true, queue := [], thread := Ended, posts := s.posts + 1,
               rejected := s.rejected + {s.posts}, executed := s.executed + s.queue)
  {
    var drain := DrainSteps(|s.queue|);
    AfterConcat(s, [CloseAcceptance, RaiseStop], [Post] + ([Wake, TestStop] + drain));
    Two(s, CloseAcceptance, RaiseStop);
    var t := Next(Next(s, CloseAcceptance), RaiseStop);
    AfterConcat(t, [Post], [Wake, TestStop] + drain);
    One(t, Post);
    var u := Next(t, Post);
    AfterConcat(u, [Wake, TestStop], drain);
    Two(u, Wake, TestStop);
    DrainRunsQueue(Next(Next(u, Wake), TestStop));
  }

  /** A thread that has ended can be started again: the window is open and the stop flag down. */
  lemma RestartOpensWindow(s: Runtime)
    requires (s.thread.NotStarted? || s.thread.Ended?) && !s.stopping
    ensures After(s, [Start, Post]) ==
            s.(accepting := true, stop := false, thread := Testing, queue := s.queue + [s.posts],
               accepted := s.accepted + [s.posts], posts := s.posts + 1)
  {
    Two(s, Start, Post);
  }

  // ----- the object -----

  type RootId = nat
  type NodeId = nat

  /** The members a ModelRuntime changes: the queue, and what is pending and mapped per presentation root. */
  class ModelRuntime {
    var accepting: bool
    var stop: bool
    var work: seq<nat>
    var executed: seq<nat>
    var pending: map<RootId, set<NodeId>>
    var roots: map<NodeId, seq<RootId>>
    var bound: set<NodeId>

    constructor ()
      ensures accepting && !stop && work == [] && executed == [] && pending == map[] && roots == map[] && bound == {}
    {
      accepting, stop, work, executed := true, false, [], [];
      pending, roots, bound := map[], map[], {};
    }

    method Post(w: nat)
      modifies this`work
      ensures work == if accepting then old(work) + [w] else old(work)
    {
      if accepting {
        work := work + [w];
      }
    }

    method RequestStop()
      modifies this`accepting, this`stop
      ensures !accepting && stop
    {
      accepting := false;
      stop := true;
    }

    /** Run everything that is queued, front first. */
    method DrainWork()
      modifies this`work, this`executed
      ensures work == [] && executed == old(executed) + old(work)
    {
      while work != []
        invariant executed + work == old(executed) + old(work)
        decreases |work|
      {
        var item := work[0];
        assert work == [item] + work[1..];
        work := work[1..];
        executed := executed + [item];
      }
    }

    /**
    Shut down: close the acceptance window, then drain for the last time. Whatever was queued runs; posts
    that come after the window has closed are dropped.
     */
    method Shutdown(late: seq<nat>)
      modifies this`accepting, this`stop, this`work, this`executed
      ensures !accepting && stop && work == []
      ensures executed == old(executed) + old(work)
    {
      RequestStop();
      for i := 0 to |late|
        invariant !accepting && stop && work == old(work) && executed == old(executed)
      {
        Post(late[i]);
      }
      DrainWork();
    }

    function PendingOf(root: RootId): set<NodeId>
      reads this`pending
    {
      if root in pending then pending[root] else {}
    }

    predicate Maps(n: NodeId, root: RootId)
      reads this`roots
    {
      n in roots && root in roots[n]
    }

    /** A changed node becomes pending for exactly the roots it is mapped to. */
    method OnMaterializedChange(n: NodeId)
      modifies this`pending
      ensures forall root :: PendingOf(root) == old(PendingOf(root)) + if Maps(n, root) then {n} else {}
    {
      if n !in roots {
        return;
      }
      for i := 0 to |roots[n]|
        invariant forall root :: PendingOf(root) == old(PendingOf(root)) + if root in roots[n][..i] then {n} else {}
      {
        var root := roots[n][i];
        assert roots[n][..i + 1] == roots[n][..i] + [root];
        pending := pending[root := PendingOf(root) + {n}];
      }
      assert roots[n][..|roots[n]|] == roots[n];
    }

    /** Map the node to the root and bind its notifier; nothing becomes pending. */
    method AttachNode(n: NodeId, root: RootId)
      modifies this`roots, this`bound
      ensures forall m, r :: Maps(m, r) <==> old(Maps(m, r)) || (m == n && r == root)
      ensures bound == old(bound) + {n} && pending == old(pending)
      ensures roots == old(roots)[n := if old(Maps(n, root)) then old(roots)[n]
                                       else (if n in old(roots) then old(roots)[n] else []) + [root]]
    {
      bound := bound + {n};
      var mapped := if n in roots then roots[n] else [];
      roots := roots[n := if root in mapped then mapped else mapped + [root]];
    }

    /**
    Unmap the node from one root and drop what was pending for it there. Other roots keep theirs, and the
    notifier, which goes with the last mapping.
     */
    method DetachNode(n: NodeId, root: RootId)
      requires Maps(n, root)
      modifies this`pending, this`roots, this`bound
      ensures forall r :: PendingOf(r) == old(PendingOf(r)) - if r == root then {n} else {}
      ensures root in pending <==> root in old(pending) && old(pending)[root] != {n} && old(pending)[root] != {}
      ensures forall m, r :: Maps(m, r) <==> old(Maps(m, r)) && !(m == n && r == root)
      ensures bound == if exists r :: Maps(n, r) then old(bound) else old(bound) - {n}
    {
      if root in pending {
        var left := pending[root] - {n};
        pending := if left == {} then pending - {root} else pending[root := left];
      }
      var mapped := Without(roots[n], root);
      if mapped != [] {
        roots := roots[n := mapped];
        assert Maps(n, mapped[0]);
        return;
      }
      roots := roots - {n};
      bound := bound - {n};
    }

    /**
    Offer every non-empty pending set to its channel. A root whose channel still has an unread publication
    keeps its pending set; every other one is published, whole, and cleared.
     */
    method PublishChanged(unread: set<RootId>) returns (published: map<RootId, set<NodeId>>)
      modifies this`pending
      ensures forall root :: root in published <==> old(PendingOf(root)) != {} && root !in unread
      ensures forall root :: root in published ==> published[root] == old(PendingOf(root))
      ensures forall root :: PendingOf(root) == if root in unread then old(PendingOf(root)) else {}
    {
      published := map[];
      var left := pending.Keys;
      while left != {}
        invariant left <= pending.Keys
        invariant forall root :: root in left ==> root in old(pending) && pending[root] == old(pending)[root]
        invariant forall root :: root in published ==> root !in left && root !in unread && root in old(pending)
        invariant forall root :: root in published ==> published[root] == old(pending)[root] && published[root] != {}
        invariant forall root :: root in old(pending) && root !in left ==>
                    if old(pending)[root] == {} then root !in published && root !in pending
                    else if root in unread then root in pending && pending[root] == old(pending)[root]
                    else root in published && root !in pending
        invariant forall root :: root in pending ==> root in old(pending)
        decreases |left|
      {
        var root :| root in left;
        left := left - {root};
        if pending[root] == {} {
          pending := pending - {root};
        } else if root !in unread {
          published := published[root := pending[root]];
          pending := pending - {root};
        }
      }
    }
  }

  function Without(s: seq<RootId>, x: RootId): (r: seq<RootId>)
    ensures x !in r
    ensures forall y :: y != x ==> (y in r <==> y in s)
  {
    if s == [] then [] else if s[0] == x then Without(s[1..], x) else [s[0]] + Without(s[1..], x)
  }
}
