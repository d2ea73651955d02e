/** State slots under urgent and transition updates, and the queues that schedule renders. */
module StateUpdates {
  import opened Wrappers

  /** A setter's argument: a new value, or a function of the current one. */
  datatype Update<!T> = Replace(value: T) | Modify(f: T -> T)

  function Apply<T>(u: Update<T>, v: T): T {
    match u
    case Replace(x) => x
    case Modify(f) => f(v)
  }

  function Fold<T>(v: T, us: seq<Update<T>>): T {
    if us == [] then v else Apply(us[|us| - 1], Fold(v, us[..|us| - 1]))
  }

  /** The value of a slot, and the updates to replay from its base once deferred work commits. */
  datatype Slot<!T> = Slot(value: T, queue: Option<Queue<T>>)

  datatype Queue<!T> = Queue(base: T, updates: seq<Update<T>>)

  datatype Event<!T> = Issue(deferred: bool, update: Update<T>) | Commit

  /** A deferred update only queues; an urgent one shows at once and is queued behind deferred ones;
      a commit replays the queue from its base. */
  function Step<T>(s: Slot<T>, e: Event<T>): Slot<T> {
    match e
    case Issue(true, u) =>
      var q := if s.queue.None? then Queue(s.value, []) else s.queue.value;
      Slot(s.value, Some(Queue(q.base, q.updates + [u])))
    case Issue(false, u) =>
      Slot(Apply(u, s.value),
           if s.queue.None? then None else Some(Queue(s.queue.value.base, s.queue.value.updates + [u])))
    case Commit =>
      if s.queue.None? then s else Slot(Fold(s.queue.value.base, s.queue.value.updates), None)
  }

  function Run<T>(v: T, es: seq<Event<T>>): Slot<T> {
    if es == [] then Slot(v, None) else Step(Run(v, es[..|es| - 1]), es[|es| - 1])
  }

  // -- independent readings of a run --

  /** Every update, in the order it was issued. */
  function Issued<T>(es: seq<Event<T>>): seq<Update<T>> {
    if es == [] then []
    else Issued(es[..|es| - 1]) + if es[|es| - 1].Issue? then [es[|es| - 1].update] else []
  }

  function Urgent<T>(es: seq<Event<T>>): seq<Update<T>> {
    if es == [] then []
    else Urgent(es[..|es| - 1]) + if es[|es| - 1].Issue? && !es[|es| - 1].deferred then [es[|es| - 1].update] else []
  }

  lemma {:induction false} FoldConcat<T>(v: T, a: seq<Update<T>>, b: seq<Update<T>>)
    ensures Fold(v, a + b) == Fold(Fold(v, a), b)
  {
    if b == [] {
      assert a + b == a;
    } else {
      assert (a + b)[..|a + b| - 1] == a + b[..|b| - 1];
      FoldConcat(v, a, b[..|b| - 1]);
    }
  }

  lemma FoldOne<T>(v: T, u: Update<T>)
    ensures Fold(v, [u]) == Apply(u, v)
  {
    assert [u][..0] == [];
  }

  /** One more event, in each of the readings. */
  lemma OneMore<T>(v: T, init: seq<Event<T>>, e: Event<T>)
    ensures Run(v, init + [e]) == Step(Run(v, init), e)
    ensures Issued(init + [e]) == Issued(init) + if e.Issue? then [e.update] else []
    ensures Urgent(init + [e]) == Urgent(init) + if e.Issue? && !e.deferred then [e.update] else []
  {
    assert (init + [e])[..|init|] == init;
  }

  /** What a slot promises: replaying its queue, or its value when there is none, gives `all`. */
  ghost predicate Holds<T(!new)>(s: Slot<T>, all: T) {
    if s.queue.Some? then Fold(s.queue.value.base, s.queue.value.updates) == all else s.value == all
  }

  lemma StepHolds<T(!new)>(s: Slot<T>, all: T, u: Update<T>, deferred: bool)
    requires Holds(s, all)
    ensures Holds(Step(s, Issue(deferred, u)), Apply(u, all))
  {
    FoldOne(all, u);
    if s.queue.Some? {
      FoldConcat(s.queue.value.base, s.queue.value.updates, [u]);
    } else {
      FoldOne(s.value, u);
      assert [] + [u] == [u];
    }
  }

  /** Whatever has happened, committing now would give every update applied in issue order. */
  lemma {:induction false} RunHolds<T(!new)>(v: T, es: seq<Event<T>>)
    ensures Holds(Run(v, es), Fold(v, Issued(es)))
  {
    if es != [] {
      var init, e := es[..|es| - 1], es[|es| - 1];
      assert es == init + [e];
      RunHolds(v, init);
      OneMore(v, init, e);
      if e.Issue? {
        StepHolds(Run(v, init), Fold(v, Issued(init)), e.update, e.deferred);
        FoldConcat(v, Issued(init), [e.update]);
        FoldOne(Fold(v, Issued(init)), e.update);
      } else {
        assert Issued(es) == Issued(init);
      }
    }
  }

  /** Once the deferred work commits, the state is every update applied in issue order. */
  lemma CommitReplaysAll<T(!new)>(v: T, es: seq<Event<T>>)
    ensures Run(v, es + [Commit]) == Slot(Fold(v, Issued(es)), None)
  {
    OneMore(v, es, Commit);
    RunHolds(v, es);
  }

  /** Before it does, the visible state is the last committed one with only the urgent updates applied. */
  lemma {:induction false} VisibleIsUrgentOnly<T(!new)>(v: T, committed: seq<Event<T>>, es: seq<Event<T>>)
    requires forall i :: 0 <= i < |es| ==> es[i].Issue?
    ensures Run(v, committed + [Commit] + es).value == Fold(Fold(v, Issued(committed)), Urgent(es))
    decreases |es|
  {
    var done, base := committed + [Commit], Fold(v, Issued(committed));
    if es == [] {
      CommitReplaysAll(v, committed);
      assert done + es == done;
    } else {
      var init, e := es[..|es| - 1], es[|es| - 1];
      assert es == init + [e] && done + es == (done + init) + [e];
      VisibleIsUrgentOnly(v, committed, init);
      OneMore(v, done + init, e);
      UrgentFold(base, init, e);
    }
  }

  lemma UrgentFold<T>(base: T, init: seq<Event<T>>, e: Event<T>)
    requires e.Issue?
    ensures Fold(base, Urgent(init + [e])) ==
              if e.deferred then Fold(base, Urgent(init)) else Apply(e.update, Fold(base, Urgent(init)))
  {
    OneMore(base, init, e);
    if e.deferred {
      assert Urgent(init + [e]) == Urgent(init);
    } else {
      FoldConcat(base, Urgent(init), [e.update]);
      FoldOne(Fold(base, Urgent(init)), e.update);
    }
  }

  // -- the same, update by update --

  /** `after` is the argument of a setter, or what its function makes of `before`. */
  ghost predicate Updates<T(!new)>(u: Update<T>, before: T, after: T) {
    (u.Replace? ==> after == u.value) && (u.Modify? ==> after == u.f(before))
  }

  /** One event in two histories of a slot: with every update, and as seen. Deferred updates are not seen before a
      commit, and a commit shows them all. */
  ghost predicate Happens<T(!new)>(e: Event<T>, all: T, seen: T, all': T, seen': T) {
    match e
    case Issue(deferred, u) => Updates(u, all, all') && if deferred then seen' == seen else Updates(u, seen, seen')
    case Commit => all' == all && seen' == all
  }

  ghost predicate Histories<T(!new)>(v: T, es: seq<Event<T>>, all: seq<T>, seen: seq<T>) {
    && |all| == |es| + 1 && |seen| == |es| + 1 && all[0] == v && seen[0] == v
    && forall i :: 0 <= i < |es| ==> Happens(es[i], all[i], seen[i], all[i + 1], seen[i + 1])
  }

  lemma OneMoreHappens<T(!new)>(v: T, init: seq<Event<T>>, e: Event<T>)
    ensures Happens(e, Fold(v, Issued(init)), Run(v, init).value, Fold(v, Issued(init + [e])), Run(v, init + [e]).value)
  {
    OneMore(v, init, e);
    if e.Issue? {
      FoldConcat(v, Issued(init), [e.update]);
      FoldOne(Fold(v, Issued(init)), e.update);
    } else {
      assert Issued(init + [e]) == Issued(init);
      RunHolds(v, init);
    }
  }

  lemma HistoriesMore<T(!new)>(v: T, es: seq<Event<T>>, all: seq<T>, seen: seq<T>, e: Event<T>, a: T, s: T)
    requires Histories(v, es, all, seen) && Happens(e, all[|es|], seen[|es|], a, s)
    ensures Histories(v, es + [e], all + [a], seen + [s])
  {
    var es', all', seen' := es + [e], all + [a], seen + [s];
    forall i | 0 <= i < |es'| ensures Happens(es'[i], all'[i], seen'[i], all'[i + 1], seen'[i + 1]) {
      if i < |es| { assert Happens(es[i], all[i], seen[i], all[i + 1], seen[i + 1]); }
    }
  }

  /** A slot's value is the last one of its seen history. */
  lemma {:induction false} ValueSeen<T(!new)>(v: T, es: seq<Event<T>>) returns (all: seq<T>, seen: seq<T>)
    ensures Histories(v, es, all, seen)
    ensures Run(v, es).value == seen[|es|] && all[|es|] == Fold(v, Issued(es))
  {
    if es == [] {
      all, seen := [v], [v];
    } else {
      var init, e := es[..|es| - 1], es[|es| - 1];
      all, seen := ValueSeen(v, init);
      OneMoreHappens(v, init, e);
      assert es == init + [e];
      HistoriesMore(v, init, all, seen, e, Fold(v, Issued(es)), Run(v, es).value);
      all, seen := all + [Fold(v, Issued(es))], seen + [Run(v, es).value];
    }
  }

  // -- the component and the queues around it --

  datatype Trigger = FlushSlot(index: nat) | RequestRender

  ghost predicate NoRepeats(ts: seq<Trigger>) {
    forall i, j :: 0 <= i < j < |ts| ==> ts[i] != ts[j]
  }

  /** One render request, in a batch made at most once and put off to its end. */
  ghost predicate RenderRequested(depth: nat, ran: seq<Trigger>, pending: seq<Trigger>, ran': seq<Trigger>, pending': seq<Trigger>) {
    if depth == 0 then ran' == ran + [RequestRender] && pending' == pending
    else ran' == ran && pending' == if RequestRender in pending then pending else pending + [RequestRender]
  }

  /** What a flush makes of a slot: its queue is replayed, or dropped when the component is gone. */
  function Flushed<T>(s: Slot<T>, closed: bool): Slot<T> {
    if closed then Slot(s.value, None) else Step(s, Commit)
  }

  class Component<T(==)> {
    const owned: bool               // mounted under an owner, which renders it
    var states: seq<T>
    var queues: map<nat, Queue<T>>
    var dirty: bool
    var closed: bool
    var triggers: seq<Trigger>      // the transition queue's deferred triggers
    var scheduled: bool             // a flush is due on a later turn of the loop
    var depth: nat                  // nesting of `batch_updates`
    var pending: seq<Trigger>       // triggers put off to the end of the outermost batch
    var batch: nat                  // which outermost batch that is, or was last
    var batches: nat                 // how many there have been
    var takenDepth: nat             // the nesting, and the batch, in which the flush was scheduled
    var takenBatch: nat
    var ran: seq<Trigger>           // render requests actually made

    ghost predicate Valid()
      reads this
    {
      && (forall i <- queues :: i < |states| && FlushSlot(i) in triggers)
      && (forall t :: t in triggers ==> t.FlushSlot?) && NoRepeats(triggers)
      && (triggers != [] ==> scheduled)
      && NoRepeats(pending) && (depth == 0 ==> pending == []) && batch <= batches
    }

    function SlotAt(i: nat): Slot<T>
      reads this
      requires i < |states|
    {
      Slot(states[i], if i in queues then Some(queues[i]) else None)
    }

    constructor (initial: seq<T>, owned: bool)
      ensures this.owned == owned
      ensures Valid() && states == initial && queues == map[] && !closed && ran == [] && depth == 0 && !scheduled
      ensures forall i :: 0 <= i < |initial| ==> SlotAt(i) == Slot(initial[i], None)
    {
      this.owned := owned;
      states, queues, dirty, closed := initial, map[], false, false;
      triggers, scheduled, depth, pending, ran := [], false, 0, [], [];
      batch, batches, takenDepth, takenBatch := 0, 0, 0, 0;
    }

    /** Runs a trigger now, or once at the end of the outermost batch. */
    method ScheduleTrigger(t: Trigger)
      modifies `pending, `ran
      ensures depth == 0 ==> ran == old(ran) + [t] && pending == old(pending)
      ensures depth > 0 ==> ran == old(ran) && pending == if t in old(pending) then old(pending) else old(pending) + [t]
    {
      if depth > 0 {
        if t !in pending {
          pending := pending + [t];
        }
      } else {
        ran := ran + [t];
      }
    }

    /** An outermost batch is a new one, with its own list of triggers. */
    method EnterBatch()
      modifies `depth, `batch, `batches
      ensures depth == old(depth) + 1
      ensures if old(depth) == 0 then batch == batches == old(batches) + 1 else batch == old(batch) && batches == old(batches)
    {
      if depth == 0 {
        batches := batches + 1;
        batch := batches;
      }
      depth := depth + 1;
    }

    /** Leaving the outermost batch runs what was put off, each trigger once, in order of first request. */
    method LeaveBatch()
      requires depth > 0
      modifies `depth, `pending, `ran
      ensures depth == old(depth) - 1
      ensures ran == if depth == 0 then old(ran) + old(pending) else old(ran)
      ensures pending == if depth == 0 then [] else old(pending)
    {
      depth := depth - 1;
      if depth == 0 {
        var due := pending;
        pending := [];
        for i := 0 to |due|
          modifies `ran
          invariant ran == old(ran) + due[..i]
        {
          assert due[..i + 1] == due[..i] + [due[i]];
          ran := ran + [due[i]];
        }
        assert due[..|due|] == due;
      }
    }

    /** Queues a trigger; a flush not yet scheduled will run in a copy of the present context. */
    method Defer(t: Trigger)
      modifies `triggers, `scheduled, `takenDepth, `takenBatch
      ensures scheduled && triggers == if t in old(triggers) then old(triggers) else old(triggers) + [t]
      ensures if old(scheduled) then takenDepth == old(takenDepth) && takenBatch == old(takenBatch)
              else takenDepth == depth && takenBatch == batch
    {
      if t !in triggers {
        triggers := triggers + [t];
      }
      if !scheduled {
        scheduled, takenDepth, takenBatch := true, depth, batch;
      }
    }

    /** Marks the component dirty and asks its owner for a render: now, at the end of the outermost batch, or,
        inside a transition, with the deferred work. */
    method NotifyStateChanged(inTransition: bool)
      modifies `dirty, `pending, `ran, `triggers, `scheduled, `takenDepth, `takenBatch
      ensures dirty
      ensures !owned ==> ran == old(ran) && pending == old(pending)
      ensures owned && !inTransition ==> RenderRequested(depth, old(ran), old(pending), ran, pending)
      ensures owned && inTransition ==> scheduled && ran == old(ran) && pending == old(pending)
      ensures owned && inTransition ==>
                triggers == if RequestRender in old(triggers) then old(triggers) else old(triggers) + [RequestRender]
      ensures !(owned && inTransition) ==> triggers == old(triggers) && scheduled == old(scheduled)
      ensures !(owned && inTransition) ==> takenDepth == old(takenDepth) && takenBatch == old(takenBatch)
    {
      dirty := true;
      if !owned {
        return;
      }
      if inTransition {
        Defer(RequestRender);
      } else {
        ScheduleTrigger(RequestRender);
      }
    }

    /** A setter call. A transition update needs an owner to flush it; after unmount nothing happens. */
    method Set(i: nat, update: Update<T>, inTransition: bool)
      requires Valid() && i < |states|
      modifies this
      ensures Valid() && closed == old(closed) && |states| == |old(states)|
      ensures depth == old(depth) && batch == old(batch) && batches == old(batches)
      ensures if old(scheduled) || closed || !(inTransition && owned)
              then takenDepth == old(takenDepth) && takenBatch == old(takenBatch) && scheduled == old(scheduled)
              else takenDepth == depth && takenBatch == batch && scheduled
      ensures forall j :: 0 <= j < |states| ==>
                SlotAt(j) == if j == i && !closed then Step(old(SlotAt(j)), Issue(inTransition && owned, update)) else old(SlotAt(j))
      ensures states[i] == old(states)[i] ==> ran == old(ran) && pending == old(pending) && dirty == old(dirty)
      ensures states[i] != old(states)[i] ==> dirty
      ensures states[i] != old(states)[i] && owned ==> RenderRequested(depth, old(ran), old(pending), ran, pending)
      ensures !owned ==> ran == old(ran) && pending == old(pending)
    {
      if closed {
        return;
      }
      if inTransition && owned {
        SetDeferred(i, update);
      } else {
        SetUrgent(i, update, inTransition);
      }
    }

    /** Queues the update, and schedules the slot's flush when it is the first. */
    method SetDeferred(i: nat, update: Update<T>)
      requires Valid() && i < |states| && !closed
      modifies `queues, `triggers, `scheduled, `takenDepth, `takenBatch
      ensures Valid() && scheduled
      ensures if old(scheduled) then takenDepth == old(takenDepth) && takenBatch == old(takenBatch)
              else takenDepth == depth && takenBatch == batch
      ensures forall j :: 0 <= j < |states| ==>
                SlotAt(j) == if j == i then Step(old(SlotAt(j)), Issue(true, update)) else old(SlotAt(j))
    {
      var q := if i in queues then queues[i] else Queue(states[i], []);
      if i !in queues {
        Defer(FlushSlot(i));
      }
      queues := queues[i := Queue(q.base, q.updates + [update])];
    }

    /** Shows the update at once; behind deferred work it is also queued, to keep its place in the order. */
    method SetUrgent(i: nat, update: Update<T>, inTransition: bool)
      requires Valid() && i < |states| && !closed && !(inTransition && owned)
      modifies `states, `queues, `dirty, `pending, `ran, `triggers, `scheduled, `takenDepth, `takenBatch
      ensures Valid() && triggers == old(triggers) && scheduled == old(scheduled) && |states| == |old(states)|
      ensures takenDepth == old(takenDepth) && takenBatch == old(takenBatch)
      ensures forall j :: 0 <= j < |states| ==>
                SlotAt(j) == if j == i then Step(old(SlotAt(j)), Issue(false, update)) else old(SlotAt(j))
      ensures states[i] == old(states)[i] ==> ran == old(ran) && pending == old(pending) && dirty == old(dirty)
      ensures states[i] != old(states)[i] ==> dirty
      ensures states[i] != old(states)[i] && owned ==> RenderRequested(depth, old(ran), old(pending), ran, pending)
      ensures !owned ==> ran == old(ran) && pending == old(pending)
    {
      if i in queues {
        queues := queues[i := Queue(queues[i].base, queues[i].updates + [update])];
      }
      var value := Apply(update, states[i]);
      if states[i] != value {
        states := states[i := value];
        NotifyStateChanged(inTransition);
      }
    }

    /** One deferred flush, outside any transition: replays the slot's queue from its base, or drops it after unmount. */
    method FlushOne(i: nat)
      requires i < |states| && depth > 0
      modifies `states, `queues, `dirty, `pending, `ran, `triggers, `scheduled, `takenDepth, `takenBatch
      ensures triggers == old(triggers) && scheduled == old(scheduled)
      ensures |states| == |old(states)| && ran == old(ran) && queues == old(queues) - {i}
      ensures forall j :: 0 <= j < |states| ==> SlotAt(j) == if j == i then Flushed(old(SlotAt(j)), closed) else old(SlotAt(j))
      ensures pending == if states == old(states) || !owned || RequestRender in old(pending) then old(pending)
                         else old(pending) + [RequestRender]
      ensures states != old(states) ==> dirty && states[i] != old(states)[i]
      ensures forall j :: 0 <= j < |states| && j != i ==> states[j] == old(states)[j]
    {
      if i !in queues {
        return;
      }
      var q := queues[i];
      queues := queues - {i};
      if closed {
        return;
      }
      var value := q.base;
      for k := 0 to |q.updates|
        invariant value == Fold(q.base, q.updates[..k])
      {
        assert q.updates[..k + 1][..k] == q.updates[..k];
        value := Apply(q.updates[k], value);
      }
      assert q.updates[..|q.updates|] == q.updates;
      if states[i] != value {
        states := states[i := value];
        NotifyStateChanged(false);
      }
    }

    /** Every slot's flush in `due`, inside a batch. */
    method RunTriggers(due: seq<Trigger>)
      requires depth > 0 && NoRepeats(due)
      requires (forall t :: t in due ==> t.FlushSlot?) && forall i <- queues :: i < |states|
      modifies `states, `queues, `dirty, `pending, `ran, `triggers, `scheduled, `takenDepth, `takenBatch
      ensures triggers == old(triggers) && scheduled == old(scheduled)
      ensures |states| == |old(states)| && ran == old(ran)
      ensures pending == if states == old(states) || !owned || RequestRender in old(pending) then old(pending)
                         else old(pending) + [RequestRender]
      ensures forall j :: 0 <= j < |states| ==>
                SlotAt(j) == if FlushSlot(j) in due then Flushed(old(SlotAt(j)), closed) else old(SlotAt(j))
      ensures forall j <- queues :: j in old(queues) && FlushSlot(j) !in due
    {
      ghost var changed := 0;
      for k := 0 to |due|
        invariant |states| == |old(states)| && ran == old(ran) && triggers == old(triggers) && scheduled == old(scheduled)
        invariant pending == if states == old(states) || !owned || RequestRender in old(pending) then old(pending)
                             else old(pending) + [RequestRender]
        invariant states != old(states) ==>
                    changed < |states| && FlushSlot(changed) in due[..k] && states[changed] != old(states)[changed]
        invariant forall j :: 0 <= j < |states| ==>
                    SlotAt(j) == if FlushSlot(j) in due[..k] then Flushed(old(SlotAt(j)), closed) else old(SlotAt(j))
        invariant forall j <- queues :: j in old(queues) && FlushSlot(j) !in due[..k]
      {
        assert due[..k + 1] == due[..k] + [due[k]];
        assert due[k] in due && due[k] !in due[..k];
        var i := due[k].index;
        if i < |states| {
          assert SlotAt(i) == old(SlotAt(i));
          FlushOne(i);
          changed := if states[i] != old(states)[i] then i else changed;
        }
      }
      assert due[..|due|] == due;
    }

    /**
     * The scheduled flush of all deferred work, on a later turn of the loop: every queue is replayed, or dropped after
     * unmount. It runs in the context it was scheduled in. When that was outside any batch, one render follows if
     * something visible changed. When it was inside a batch, the request joins that batch's list, as long as the batch
     * is open, and is lost with the list once the batch has ended.
     */
    method Flush()
      requires Valid()
      modifies this
      ensures Valid() && queues == map[] && triggers == [] && !scheduled && closed == old(closed)
      ensures |states| == |old(states)| && depth == old(depth) && batch == old(batch)
      ensures forall j :: 0 <= j < |states| ==> SlotAt(j) == Flushed(old(SlotAt(j)), closed)
      ensures ran == old(ran) + if states == old(states) || !owned || old(takenDepth) > 0 then [] else [RequestRender]
      ensures states == old(states) || !owned || old(takenDepth) == 0 || depth == 0 || batch != old(takenBatch) ==>
                pending == old(pending)
      ensures states != old(states) && owned && old(takenDepth) > 0 && depth > 0 && batch == old(takenBatch) ==>
                pending == if RequestRender in old(pending) then old(pending) else old(pending) + [RequestRender]
    {
      var due := triggers;
      scheduled, triggers := false, [];
      assert forall j :: 0 <= j < |states| ==> SlotAt(j) == old(SlotAt(j));
      label taken:
      ReplayInContext(due, takenDepth > 0 && depth > 0 && batch == takenBatch);
      assert forall j :: 0 <= j < |states| ==> old@taken(SlotAt(j)) == old(SlotAt(j));
    }

    /** The replay in the context that the flush was scheduled in; `joins` says whether its batch is the one still open. */
    method ReplayInContext(due: seq<Trigger>, joins: bool)
      requires NoRepeats(due) && (forall t :: t in due ==> t.FlushSlot?)
      requires (forall i <- queues :: i < |states| && FlushSlot(i) in due) && (joins ==> takenDepth > 0)
      modifies `states, `queues, `dirty, `pending, `ran, `triggers, `scheduled, `takenDepth, `takenBatch, `depth, `batch, `batches
      ensures depth == old(depth) && batch == old(batch) && batches >= old(batches)
      ensures triggers == old(triggers) && scheduled == old(scheduled)
      ensures |states| == |old(states)| && queues == map[]
      ensures forall j :: 0 <= j < |states| ==> SlotAt(j) == Flushed(old(SlotAt(j)), closed)
      ensures ran == old(ran) + if states == old(states) || !owned || old(takenDepth) > 0 then [] else [RequestRender]
      ensures pending == if !joins || states == old(states) || !owned || RequestRender in old(pending) then old(pending)
                         else old(pending) + [RequestRender]
    {
      var outerDepth, outer, outerBatch := depth, pending, batch;
      depth, pending := takenDepth, if joins then pending else [];
      assert forall j :: 0 <= j < |states| ==> SlotAt(j) == old(SlotAt(j));
      label taken:
      Replay(due);
      assert forall j :: 0 <= j < |states| ==> old@taken(SlotAt(j)) == old(SlotAt(j));
      depth, batch := outerDepth, outerBatch;
      if !joins {
        pending := outer;
      }
    }

    /** Replays every queue in a batch of its own, which the present context may be inside another one of. */
    method Replay(due: seq<Trigger>)
      requires NoRepeats(due) && (forall t :: t in due ==> t.FlushSlot?)
      requires (forall i <- queues :: i < |states| && FlushSlot(i) in due) && (depth == 0 ==> pending == [])
      modifies `states, `queues, `dirty, `pending, `ran, `triggers, `scheduled, `takenDepth, `takenBatch, `depth, `batch, `batches
      ensures depth == old(depth) && triggers == old(triggers) && scheduled == old(scheduled) && batches >= old(batches)
      ensures |states| == |old(states)| && queues == map[]
      ensures forall j :: 0 <= j < |states| ==> SlotAt(j) == Flushed(old(SlotAt(j)), closed)
      ensures ran == old(ran) + if states == old(states) || !owned || depth > 0 then [] else [RequestRender]
      ensures pending == if depth == 0 || states == old(states) || !owned || RequestRender in old(pending) then old(pending)
                         else old(pending) + [RequestRender]
    {
      EnterBatch();
      assert forall j :: 0 <= j < |states| ==> SlotAt(j) == old(SlotAt(j));
      label taken:
      RunTriggers(due);
      LeaveBatch();
      forall j | 0 <= j < |states|
        ensures SlotAt(j) == Flushed(old(SlotAt(j)), closed)
      {
        assert old@taken(SlotAt(j)) == old(SlotAt(j));
        if FlushSlot(j) !in due { assert j !in old(queues); }
      }
    }

    /** Unmounting closes the component's scope: later updates and flushes are dropped. */
    method Unmount()
      requires Valid()
      modifies `closed
      ensures Valid() && closed
    {
      closed := true;
    }
  }

  /** A transition begun inside a batch that ends at once leaves its update queued, and a flush due inside that batch. */
  method BeginInBatch<T(==)>(before: T, after: T) returns (c: Component<T>)
    ensures fresh(c) && c.Valid() && c.owned && !c.closed && |c.states| == 1
    ensures c.SlotAt(0) == Slot(before, Some(Queue(before, [] + [Replace(after)])))
    ensures c.ran == [] && c.pending == [] && c.takenDepth == 1 && c.depth == 0
  {
    c := new Component([before], true);
    c.EnterBatch();
    assert c.SlotAt(0) == Slot(before, None);
    c.Set(0, Replace(after), true);
    label queued:
    c.LeaveBatch();
    assert c.SlotAt(0) == old@queued(c.SlotAt(0));
  }

  /** Its update commits, and no render is asked for, then or later. */
  method RenderLost<T(==)>(before: T, after: T) returns (c: Component<T>)
    ensures fresh(c) && c.Valid() && c.owned && !c.closed && c.states == [after] && c.queues == map[]
    ensures c.ran == [] && c.pending == [] && c.triggers == [] && !c.scheduled
  {
    c := BeginInBatch(before, after);
    FoldOne(before, Replace(after));
    assert [] + [Replace(after)] == [Replace(after)];
    c.Flush();
    assert c.SlotAt(0).value == after;
  }
}
