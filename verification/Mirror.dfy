/**
Publication of changed nodes from the model to the UI mirror, for one presentation root. The channel is
the mailbox it refines (module Channels); model and UI thread interleave freely.
 */
module Mirrors {
  import opened Basics

  type NodeId = nat

  /**
  `attached` are the nodes mapped to the root, whose changes are noted; `waiting` is the unread
  publication, `reading` the one the UI has taken, `mirror` the UI's copy.
   */
  datatype Presentation<+V> = Presentation(
    model: map<NodeId, V>,
    attached: set<NodeId>,
    pending: set<NodeId>,
    waiting: Option<map<NodeId, V>>,
    reading: Option<map<NodeId, V>>,
    mirror: map<NodeId, V>)

  datatype Step<+V> =
    | Change(node: NodeId, value: V)
    | Publish(reached: set<NodeId>)
    | Take
    | Apply
    | Attach(node: NodeId)
    | Detach(node: NodeId)

  /** Current values of the given nodes: what one serialization writes. */
  function Snapshot<V>(model: map<NodeId, V>, nodes: set<NodeId>): map<NodeId, V> {
    map n | n in nodes && n in model :: model[n]
  }

  /**
  A step. A publication holds the pending nodes and whatever else their graphs reach, and is refused while
  one is unread. AttachNode records the mapping and marks nothing; DetachNode drops what was pending.
   */
  function Next<V>(s: Presentation<V>, step: Step<V>): Presentation<V> {
    match step
    case Change(n, v) => s.(model := s.model[n := v], pending := if n in s.attached then s.pending + {n} else s.pending)
    case Publish(reached) =>
      if s.pending == {} || s.waiting.Some? then s
      else s.(waiting := Some(Snapshot(s.model, s.pending + reached)), pending := {})
    case Take => if s.waiting.None? || s.reading.Some? then s else s.(waiting := None, reading := s.waiting)
    case Apply => if s.reading.None? then s else s.(mirror := s.mirror + s.reading.value, reading := None)
    case Attach(n) => if n in s.model then s.(attached := s.attached + {n}) else s
    case Detach(n) => s.(attached := s.attached - {n}, pending := s.pending - {n})
  }

  function After<V>(s: Presentation<V>, steps: seq<Step<V>>): Presentation<V> {
    if steps == [] then s else Next(After(s, steps[..|steps| - 1]), steps[|steps| - 1])
  }

  /** The value of the node published last: in the mailbox, with the UI, or in the mirror. */
  function Latest<V>(s: Presentation<V>, n: NodeId): Option<V> {
    if s.waiting.Some? && n in s.waiting.value then Some(s.waiting.value[n])
    else if s.reading.Some? && n in s.reading.value then Some(s.reading.value[n])
    else if n in s.mirror then Some(s.mirror[n])
    else None
  }

  /** The current value is still to be published, or is the one published last. */
  ghost predicate Agrees<V>(s: Presentation<V>, n: NodeId) {
    n in s.model && (n in s.pending || Latest(s, n) == Some(s.model[n]))
  }

  /** The step publishes the node's current value. */
  predicate Publishes<V>(s: Presentation<V>, step: Step<V>, n: NodeId) {
    && step.Publish? && s.pending != {} && s.waiting.None?
    && n in s.pending + step.reached && n in s.model
  }

  ghost predicate Agreement<V>(s: Presentation<V>) {
    && s.pending <= s.attached
    && forall n :: n in s.attached ==> Agrees(s, n)
  }

  /** An attached node that agrees goes on agreeing until it is detached. */
  lemma StepKeepsAgreement<V>(s: Presentation<V>, step: Step<V>, n: NodeId)
    requires n in s.attached && Agrees(s, n) && step != Detach(n)
    ensures n in Next(s, step).attached && Agrees(Next(s, step), n)
  {
  }

  ghost predicate Drained<V>(s: Presentation<V>) {
    s.pending == {} && s.waiting.None? && s.reading.None?
  }

  ghost predicate Shown<V>(s: Presentation<V>, n: NodeId) {
    n in s.model && n in s.mirror && s.mirror[n] == s.model[n]
  }

  // ----- attached nodes -----

  /**
  The nodes attached in the run that neither a change nor a publication has reached since. Attaching marks
  nothing as pending, so their values are owed to the UI.
   */
  ghost function Owed<V>(s: Presentation<V>, steps: seq<Step<V>>): set<NodeId> {
    if steps == [] then {}
    else
      var k := |steps| - 1;
      var s', owed := After(s, steps[..k]), Owed(s, steps[..k]);
      match steps[k]
      case Attach(n) => if n in s'.model && n !in s'.attached then owed + {n} else owed
      case Detach(n) => owed - {n}
      case Change(n, _) => if n in s'.attached then owed - {n} else owed
      case Publish(reached) => if s'.pending == {} || s'.waiting.Some? then owed else owed - (s'.pending + reached)
      case _ => owed
  }

  /** After any run every attached node agrees or is owed. */
  lemma {:induction false} RunKeepsAgreement<V>(s: Presentation<V>, steps: seq<Step<V>>)
    requires Agreement(s)
    ensures var e := After(s, steps);
            && e.pending <= e.attached <= e.model.Keys
            && forall n :: n in e.attached && n !in Owed(s, steps) ==> Agrees(e, n)
  {
    if steps != [] {
      var k := |steps| - 1;
      RunKeepsAgreement(s, steps[..k]);
      var s', e := After(s, steps[..k]), After(s, steps);
      forall n | n in e.attached && n !in Owed(s, steps) ensures Agrees(e, n) {
        if n in s'.attached && Agrees(s', n) {
          StepKeepsAgreement(s', steps[k], n);
        }
      }
    }
  }

  /**
  The mirror shows the model: after any run, with nothing pending or in flight, every node mapped to the
  root has its current value in the mirror, unless it is owed since its attachment.
   */
  lemma MirrorShowsModel<V>(s: Presentation<V>, steps: seq<Step<V>>, n: NodeId)
    requires Agreement(s)
    requires Drained(After(s, steps)) && n in After(s, steps).attached && n !in Owed(s, steps)
    ensures Shown(After(s, steps), n)
  {
    RunKeepsAgreement(s, steps);
  }

  /** Somewhere in the run the node changes or a publication reaches it. */
  ghost predicate Tended<V>(s: Presentation<V>, steps: seq<Step<V>>, n: NodeId) {
    && steps != []
    && var k := |steps| - 1;
       || Tended(s, steps[..k], n)
       || (steps[k].Change? && steps[k].node == n)
       || Publishes(After(s, steps[..k]), steps[k], n)
  }

  /** An attached node comes to agree exactly when it is tended to; otherwise nothing about it moves. */
  lemma {:induction false} AgreesIffTended<V>(s: Presentation<V>, steps: seq<Step<V>>, n: NodeId)
    requires n in s.attached && n in s.model && Detach(n) !in steps
    ensures var e := After(s, steps);
            && n in e.attached && n in e.model
            && (Agrees(e, n) <==> Agrees(s, n) || Tended(s, steps, n))
            && (!Tended(s, steps, n) ==> e.model[n] == s.model[n])
  {
    if steps != [] {
      var k := |steps| - 1;
      AgreesIffTended(s, steps[..k], n);
      var s' := After(s, steps[..k]);
      if Agrees(s', n) {
        StepKeepsAgreement(s', steps[k], n);
      }
    }
  }

  /** What the last publication of the run that reaches the node says of it. */
  ghost function LastSent<V>(s: Presentation<V>, steps: seq<Step<V>>, n: NodeId): Option<V> {
    if steps == [] then Latest(s, n)
    else
      var k := |steps| - 1;
      if Publishes(After(s, steps[..k]), steps[k], n) then Some(After(s, steps[..k]).model[n])
      else LastSent(s, steps[..k], n)
  }

  /** Mailbox, reader and mirror together hold the value sent last, whatever the interleaving. */
  lemma {:induction false} LatestIsLastSent<V>(s: Presentation<V>, steps: seq<Step<V>>, n: NodeId)
    ensures Latest(After(s, steps), n) == LastSent(s, steps, n)
  {
    if steps != [] {
      LatestIsLastSent(s, steps[..|steps| - 1], n);
    }
  }

  /**
  A new node, created and attached, is shown in the end exactly when it changes again or the graph of some
  published node reaches it: the commit of the parent that is to hold it, before or after.
   */
  lemma NewNodeShownIff<V>(s: Presentation<V>, n: NodeId, v: V, steps: seq<Step<V>>)
    requires s.pending <= s.attached && n !in s.attached && Latest(s, n).None?
    requires Detach(n) !in steps && Drained(After(Next(Next(s, Change(n, v)), Attach(n)), steps))
    ensures var attached := Next(Next(s, Change(n, v)), Attach(n));
            Shown(After(attached, steps), n) <==> Tended(attached, steps, n)
  {
    AgreesIffTended(Next(Next(s, Change(n, v)), Attach(n)), steps, n);
  }

  /** While a node is not attached its changes are not noted. */
  lemma {:induction false} DetachedIsNotPending<V>(s: Presentation<V>, steps: seq<Step<V>>, n: NodeId)
    requires n in s.model && n !in s.attached && n !in s.pending && Attach(n) !in steps
    ensures var e := After(s, steps); n in e.model && n !in e.attached && n !in e.pending
    ensures !Tended(s, steps, n) ==> LastSent(s, steps, n) == Latest(s, n) && After(s, steps).model[n] == s.model[n]
  {
    if steps != [] {
      DetachedIsNotPending(s, steps[..|steps| - 1], n);
    }
  }

  /**
  A node detached and attached again is shown in the end exactly when it is tended to after that, or its
  value when it is attached again is the one sent last. It is enough that it was not pending when it was
  detached and was left alone meanwhile.
   */
  lemma ReattachedShownIff<V>(s: Presentation<V>, n: NodeId, apart: seq<Step<V>>, steps: seq<Step<V>>)
    requires n in s.attached && n in s.model
    requires Attach(n) !in apart && Detach(n) !in steps
    requires Drained(After(Next(After(Next(s, Detach(n)), apart), Attach(n)), steps))
    ensures var before := After(Next(s, Detach(n)), apart);
            var attached := Next(before, Attach(n));
            && n in before.model
            && (Shown(After(attached, steps), n) <==>
                  Tended(attached, steps, n) || LastSent(Next(s, Detach(n)), apart, n) == Some(before.model[n]))
    ensures Agrees(s, n) && n !in s.pending && !Tended(Next(s, Detach(n)), apart, n) ==>
              Shown(After(Next(After(Next(s, Detach(n)), apart), Attach(n)), steps), n)
  {
    var detached := Next(s, Detach(n));
    DetachedIsNotPending(detached, apart, n);
    LatestIsLastSent(detached, apart, n);
    AgreesIffTended(Next(After(detached, apart), Attach(n)), steps, n);
    assert Latest(detached, n) == Latest(s, n);
  }

  // ----- draining -----

  /** Publishing, taking and applying drain the presentation from wherever it is. */
  lemma DrainReaches<V>(s: Presentation<V>, reached: set<NodeId>)
    ensures Drained(After(s, [Apply, Take, Apply, Publish(reached), Take, Apply]))
  {
    var steps: seq<Step<V>> := [Apply, Take, Apply, Publish(reached), Take, Apply];
    var s1 := Next(s, Apply);
    var s2 := Next(s1, Take);
    var s3 := Next(s2, Apply);
    var s4 := Next(s3, Publish(reached));
    var s5 := Next(s4, Take);
    assert steps[..5] == [Apply, Take, Apply, Publish(reached), Take];
    assert steps[..5][..4] == [Apply, Take, Apply, Publish(reached)];
    assert steps[..5][..4][..3] == [Apply, Take, Apply];
    assert steps[..5][..4][..3][..2] == [Apply, Take];
    assert steps[..5][..4][..3][..2][..1] == [Apply];
    assert steps[..5][..4][..3][..2][..1][..0] == [];
    assert After(s, steps[..5][..4][..3][..2][..1]) == s1;
    assert After(s, steps[..5][..4][..3][..2]) == s2;
    assert After(s, steps[..5][..4][..3]) == s3;
    assert After(s, steps[..5][..4]) == s4;
    assert After(s, steps[..5]) == s5;
  }

  /**
  Detaching a changed node before it is published and attaching it again leaves the mirror stale for
  good: drained, mapped, and different, until the node happens to change again.
   */
  lemma ReattachLosesChange<V>(s: Presentation<V>, n: NodeId, v: V)
    requires Drained(s) && n in s.attached && n in s.model && n in s.mirror && s.mirror[n] != v
    ensures var s' := Next(Next(Next(s, Change(n, v)), Detach(n)), Attach(n));
            Drained(s') && n in s'.attached && s'.model[n] == v && s'.mirror[n] != v
  {
  }

  // ----- UiMirror::ApplyPublished -----

  /** One record of a publication: a node, and the values its graph carries (its own among them). */
  datatype Published<+V> = Published(node: NodeId, graph: map<NodeId, V>)

  ghost predicate RecordsOk<V>(records: seq<Published<V>>) {
    && (forall i :: 0 <= i < |records| ==> records[i].node in records[i].graph)
    && (forall i, j, n :: 0 <= i < |records| && 0 <= j < |records| && n in records[i].graph && n in records[j].graph ==>
          records[i].graph[n] == records[j].graph[n])
  }

  /** All values a publication carries. */
  function Carried<V>(records: seq<Published<V>>): map<NodeId, V> {
    if records == [] then map[] else Carried(records[..|records| - 1]) + records[|records| - 1].graph
  }

  lemma {:induction false} CarriedHas<V>(records: seq<Published<V>>, n: NodeId)
    requires RecordsOk(records)
    ensures n in Carried(records) <==> exists i :: 0 <= i < |records| && n in records[i].graph
    ensures forall i :: 0 <= i < |records| && n in records[i].graph ==> Carried(records)[n] == records[i].graph[n]
  {
    if records != [] {
      var k := |records| - 1;
      CarriedHas(records[..k], n);
      assert forall i :: 0 <= i < k ==> records[..k][i] == records[i];
      if n in records[k].graph {
      } else if i :| 0 <= i < |records| && n in records[i].graph {
        assert n in records[..k][i].graph;
      }
    }
  }

  /** The UI domain after exactly the records in `applied` have been applied. */
  ghost predicate AppliedExactly<V>(ui: map<NodeId, V>, records: seq<Published<V>>, applied: set<nat>,
        now: map<NodeId, V>) {
    && (forall i :: i in applied ==> i < |records|)
    && (forall i, n :: i in applied && n in records[i].graph ==> n in now && now[n] == records[i].graph[n])
    && (forall n :: n in ui ==> n in now)
    && (forall n :: n in now ==> (n in ui && now[n] == ui[n]) || exists i :: i in applied && n in records[i].graph)
  }

  /** The object that applies a publication to the UI domain. */
  class UiMirror<V> {
    var domain: map<NodeId, V>
    var applied: set<nat>
    var changed: seq<NodeId>

    constructor (domain: map<NodeId, V>)
      ensures this.domain == domain && applied == {} && changed == []
    {
      this.domain, applied, changed := domain, {}, [];
    }

    ghost predicate InProgress(ui: map<NodeId, V>, records: seq<Published<V>>)
      reads this
    {
      && AppliedExactly(ui, records, applied, domain)
      && ChangedOk(records, applied, changed)
    }

    /** Apply record `i` if its object exists and it was not applied before. */
    method ApplyExisting(ghost ui: map<NodeId, V>, records: seq<Published<V>>, i: nat) returns (progress: bool)
      requires RecordsOk(records) && i < |records| && InProgress(ui, records)
      modifies this
      ensures InProgress(ui, records)
      ensures progress <==> i !in old(applied) && records[i].node in old(domain)
      ensures applied == if progress then old(applied) + {i} else old(applied)
      ensures !progress ==> domain == old(domain) && changed == old(changed)
      ensures progress ==> domain == old(domain) + records[i].graph && changed == old(changed) + [records[i].node]
    {
      if i in applied || records[i].node !in domain {
        return false;
      }
      AppliedOneMore(ui, records, applied, domain, i);
      ChangedOneMore(records, applied, changed, i);
      domain := domain + records[i].graph;
      changed := changed + [records[i].node];
      applied := applied + {i};
      progress := true;
    }

    /** One sweep over the records, of the root's only or of all. */
    method Sweep(ghost ui: map<NodeId, V>, records: seq<Published<V>>, onlyRoot: bool, root: NodeId)
          returns (progress: bool)
      requires RecordsOk(records) && InProgress(ui, records)
      modifies this
      ensures InProgress(ui, records)
      ensures old(applied) <= applied && (progress <==> applied != old(applied))
      ensures !progress ==> domain == old(domain) && changed == old(changed)
      ensures old(changed) <= changed && (progress ==> old(changed) != changed)
      ensures onlyRoot ==> forall k :: |old(changed)| <= k < |changed| ==> changed[k] == root
      ensures onlyRoot && root in old(domain) ==> forall i :: 0 <= i < |records| && records[i].node == root ==>
                i in applied
      ensures !progress && !onlyRoot ==> forall i :: 0 <= i < |records| && i !in applied ==> records[i].node !in domain
    {
      hide AppliedExactly, ChangedOk, RecordsOk;
      progress := false;
      for i := 0 to |records|
        invariant InProgress(ui, records)
        invariant old(applied) <= applied && (progress <==> applied != old(applied))
        invariant !progress ==> domain == old(domain) && changed == old(changed)
        invariant old(changed) <= changed && (progress ==> old(changed) != changed)
        invariant onlyRoot ==> forall k :: |old(changed)| <= k < |changed| ==> changed[k] == root
        invariant onlyRoot && root in old(domain) ==>
                    root in domain && forall k :: 0 <= k < i && records[k].node == root ==> k in applied
        invariant !progress && !onlyRoot ==> forall k :: 0 <= k < i && k !in applied ==> records[k].node !in domain
      {
        if !onlyRoot || records[i].node == root {
          var one := ApplyExisting(ui, records, i);
          progress := progress || one;
        }
      }
    }

    /** Sweep until no record makes progress: what is left has no object to apply to. */
    method ApplyReachable(ghost ui: map<NodeId, V>, records: seq<Published<V>>, root: NodeId)
      requires RecordsOk(records) && InProgress(ui, records)
      modifies this
      ensures InProgress(ui, records)
      ensures forall i :: 0 <= i < |records| && i !in applied ==> records[i].node !in domain
      ensures old(applied) == {} ==> RootLeads(old(domain), old(changed), records, root, changed)
    {
      ghost var applied0 := applied;
      var progress := true;
      SizeBelow(applied, |records|);
      while progress
        invariant InProgress(ui, records)
        invariant !progress ==> forall i :: 0 <= i < |records| && i !in applied ==> records[i].node !in domain
        invariant |applied| <= |records|
        invariant old(changed) <= changed
        invariant (applied0 == {} ==> RootLeads(old(domain), old(changed), records, root, changed))
                  || (progress && domain == old(domain) && changed == old(changed) && applied == old(applied))
        decreases |records| - |applied|, progress
      {
        ghost var before := applied;
        var rootMoved := Sweep(ui, records, true, root);
        var anyMoved := Sweep(ui, records, false, root);
        progress := rootMoved || anyMoved;
        if progress {
          ProperSize(before, applied);
          SizeBelow(applied, |records|);
        }
      }
    }

    /** Create a shell for record `i` unless an earlier graph has brought its object, and apply it. */
    method ApplyWithShell(ghost ui: map<NodeId, V>, records: seq<Published<V>>, i: nat, blank: V)
      requires RecordsOk(records) && i < |records| && i !in applied && InProgress(ui, records)
      modifies this
      ensures InProgress(ui, records) && applied == old(applied) + {i} && old(changed) <= changed
    {
      if records[i].node !in domain {
        Overlay(domain, records[i].node, blank, records[i].graph);
        domain := domain[records[i].node := blank];
        AppliedOneMore(ui, records, applied, old(domain), i);
        ChangedOneMore(records, applied, changed, i);
        domain := domain + records[i].graph;
        changed := changed + [records[i].node];
        applied := applied + {i};
      } else {
        var done := ApplyExisting(ui, records, i);
      }
    }

    /**
    Apply a publication: objects that exist first, the root in front, until no record makes progress;
    then shells for the rest. Every record is applied exactly once; afterwards the domain
    holds exactly the carried values on top of what it had.
     */
    method ApplyPublished(records: seq<Published<V>>, root: NodeId, blank: V)
      requires RecordsOk(records) && applied == {} && changed == []
      modifies this
      ensures domain == old(domain) + Carried(records)
      ensures multiset(changed) == multiset(seq(|records|, i requires 0 <= i < |records| => records[i].node))
      ensures RootLeads(old(domain), [], records, root, changed)
    {
      hide AppliedExactly, ChangedOk, RecordsOk, Carried;
      ghost var ui := domain;
      NothingApplied(ui, records);
      ApplyReachable(ui, records, root);
      for i := 0 to |records|
        invariant InProgress(ui, records)
        invariant RootLeads(ui, [], records, root, changed)
        invariant forall k :: 0 <= k < i ==> k in applied
      {
        if i !in applied {
          ApplyWithShell(ui, records, i, blank);
        }
      }
      AllApplied(ui, records, applied, domain);
      AllChanged(records, applied, changed);
    }
  }

  lemma Overlay<V>(now: map<NodeId, V>, n: NodeId, blank: V, graph: map<NodeId, V>)
    requires n in graph
    ensures now[n := blank] + graph == now + graph
  {
  }

  lemma NothingApplied<V>(ui: map<NodeId, V>, records: seq<Published<V>>)
    ensures AppliedExactly(ui, records, {}, ui) && ChangedOk(records, {}, [])
  {
    forall n ensures Times(records, {}, n, |records|) == 0 {
      NoTimes(records, n, |records|);
    }
  }

  lemma {:induction false} NoTimes<V>(records: seq<Published<V>>, n: NodeId, k: nat)
    requires k <= |records|
    ensures Times(records, {}, n, k) == 0
  {
    if k != 0 {
      NoTimes(records, n, k - 1);
    }
  }

  /** If the root's object existed and nothing was applied before, the root's record is the first applied. */
  ghost predicate RootLeads<V>(ui: map<NodeId, V>, was: seq<NodeId>, records: seq<Published<V>>, root: NodeId,
        changed: seq<NodeId>) {
    was == [] && root in ui && (exists i :: 0 <= i < |records| && records[i].node == root) ==>
        changed != [] && changed[0] == root
  }

  lemma {:induction false} SizeBelow(s: set<nat>, n: nat)
    requires forall i :: i in s ==> i < n
    ensures |s| <= n
  {
    if n == 0 {
      assert s == {};
    } else {
      SizeBelow(s - {n - 1}, n - 1);
      assert s <= s - {n - 1} + {n - 1};
      SubsetSize(s, s - {n - 1} + {n - 1});
    }
  }

  lemma ProperSize<T>(a: set<T>, b: set<T>)
    requires a <= b && a != b
    ensures |a| < |b|
  {
    var x :| x in b && x !in a;
    SubsetSize(a, b - {x});
  }

  lemma {:induction false} SubsetSize<T>(a: set<T>, b: set<T>)
    requires a <= b
    ensures |a| <= |b|
  {
    if a != {} {
      var x :| x in a;
      SubsetSize(a - {x}, b - {x});
    }
  }

  lemma AppliedOneMore<V>(ui: map<NodeId, V>, records: seq<Published<V>>, applied: set<nat>, now: map<NodeId, V>,
        i: nat)
    requires RecordsOk(records) && AppliedExactly(ui, records, applied, now) && i < |records|
    ensures AppliedExactly(ui, records, applied + {i}, now + records[i].graph)
  {
    AppliedValues(ui, records, applied, now, i);
    OriginOfValues(ui, records, applied, now, i);
  }

  /** The domain has the values of everything applied, the newest record included. */
  lemma AppliedValues<V>(ui: map<NodeId, V>, records: seq<Published<V>>, applied: set<nat>, now: map<NodeId, V>, i: nat)
    requires RecordsOk(records) && AppliedExactly(ui, records, applied, now) && i < |records|
    ensures forall k :: k in applied + {i} ==> k < |records|
    ensures forall k, n :: k in applied + {i} && n in records[k].graph ==>
              n in now + records[i].graph && (now + records[i].graph)[n] == records[k].graph[n]
  {
    var now' := now + records[i].graph;
    forall k, n | k in applied + {i} && n in records[k].graph ensures n in now' && now'[n] == records[k].graph[n] {
      assert n in records[i].graph ==> records[i].graph[n] == records[k].graph[n];
    }
  }

  /** Whatever the domain holds then was there before or came with an applied record. */
  lemma OriginOfValues<V>(ui: map<NodeId, V>, records: seq<Published<V>>, applied: set<nat>, now: map<NodeId, V>,
        i: nat)
    requires AppliedExactly(ui, records, applied, now) && i < |records|
    ensures forall n :: n in now + records[i].graph ==>
              (n in ui && (now + records[i].graph)[n] == ui[n]) || exists k ::
                  k in applied + {i} && n in records[k].graph
  {
    var applied', now' := applied + {i}, now + records[i].graph;
    forall n | n in now' ensures (n in ui && now'[n] == ui[n]) || exists k :: k in applied' && n in records[k].graph {
      if n in records[i].graph {
        assert i in applied';
      } else if !(n in ui && now'[n] == ui[n]) {
        var k :| k in applied && n in records[k].graph;
        assert k in applied';
      }
    }
  }

  lemma AllApplied<V>(ui: map<NodeId, V>, records: seq<Published<V>>, applied: set<nat>, now: map<NodeId, V>)
    requires RecordsOk(records) && AppliedExactly(ui, records, applied, now)
    requires forall k :: 0 <= k < |records| ==> k in applied
    ensures now == ui + Carried(records)
  {
    hide RecordsOk;
    forall n ensures n in now <==> n in ui + Carried(records) {
      CarriedHas(records, n);
      if i :| 0 <= i < |records| && n in records[i].graph {
        assert i in applied;
      }
    }
    forall n | n in now ensures now[n] == (ui + Carried(records))[n] {
      CarriedHas(records, n);
      if i :| 0 <= i < |records| && n in records[i].graph {
        assert i in applied;
      }
    }
  }

  // ----- each record once -----

  /** `changed` lists the nodes of the applied records, one entry per record, in some order. */
  ghost predicate ChangedOk<V>(records: seq<Published<V>>, applied: set<nat>, changed: seq<NodeId>) {
    && (forall i :: i in applied ==> i < |records|)
    && (forall n {:trigger multiset(changed)[n]} :: multiset(changed)[n] == Times(records, applied, n, |records|))
  }

  /** How many of the first `k` records are applied ones of node `n`. */
  ghost function Times<V>(records: seq<Published<V>>, applied: set<nat>, n: NodeId, k: nat): nat
    requires k <= |records|
  {
    if k == 0 then 0
    else Times(records, applied, n, k - 1) + if k - 1 in applied && records[k - 1].node == n then 1 else 0
  }

  lemma {:induction false} OneMoreTime<V>(records: seq<Published<V>>, applied: set<nat>, i: nat, n: NodeId, k: nat)
    requires k <= |records| && i < |records| && i !in applied
    ensures Times(records, applied + {i}, n, k)
         == Times(records, applied, n, k) + if i < k && records[i].node == n then 1 else 0
  {
    if k != 0 {
      OneMoreTime(records, applied, i, n, k - 1);
    }
  }

  lemma ChangedOneMore<V>(records: seq<Published<V>>, applied: set<nat>, changed: seq<NodeId>, i: nat)
    requires ChangedOk(records, applied, changed) && i < |records| && i !in applied
    ensures ChangedOk(records, applied + {i}, changed + [records[i].node])
  {
    forall n ensures multiset(changed + [records[i].node])[n] == Times(records, applied + {i}, n, |records|) {
      OneMoreTime(records, applied, i, n, |records|);
    }
  }

  lemma {:induction false} TimesOfAll<V>(records: seq<Published<V>>, applied: set<nat>, n: NodeId, k: nat)
    requires k <= |records| && forall i :: 0 <= i < k ==> i in applied
    ensures Times(records, applied, n, k) == multiset(seq(k, i requires 0 <= i < k => records[i].node))[n]
  {
    if k != 0 {
      TimesOfAll(records, applied, n, k - 1);
      var all := seq(k, i requires 0 <= i < k => records[i].node);
      assert all == seq(k - 1, i requires 0 <= i < k - 1 => records[i].node) + [records[k - 1].node];
    }
  }

  lemma AllChanged<V>(records: seq<Published<V>>, applied: set<nat>, changed: seq<NodeId>)
    requires ChangedOk(records, applied, changed) && forall i :: 0 <= i < |records| ==> i in applied
    ensures multiset(changed) == multiset(seq(|records|, i requires 0 <= i < |records| => records[i].node))
  {
    var all := seq(|records|, i requires 0 <= i < |records| => records[i].node);
    forall n ensures multiset(changed)[n] == multiset(all)[n] {
      TimesOfAll(records, applied, n, |records|);
    }
  }
}
