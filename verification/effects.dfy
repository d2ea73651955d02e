/** One phase of a component's effects: queueing during renders, running after them, cleaning up. */
module Effects {
  import opened Wrappers

  /** A dependency list; `Never` marks a slot whose effect has not run yet. */
  datatype Deps<T> = Never | EveryRender | Listed(values: seq<T>)

  /** What an effect callback does when it runs; a cleanup it returns may raise in its turn. */
  datatype Outcome = ReturnsCleanup(fails: bool) | ReturnsNothing | Raises

  datatype Effect = Effect(id: nat, outcome: Outcome)

  /** A cleanup callback, by identity: every run of an effect makes a new one. */
  datatype Token = Token(id: nat, fails: bool)

  datatype Slot<T> = Slot(deps: Deps<T>, cleanup: Option<Token>)

  /** One `use_effect` call of a render; its position is its slot. */
  datatype Call<T> = Call(effect: Effect, deps: Deps<T>)

  datatype Pending<T> = Pending(index: nat, effect: Effect, deps: Deps<T>)

  /** What happened, in order: an effect ran and left a cleanup or not, or a cleanup ran. */
  datatype Happened = Ran(index: nat, effect: Effect, left: Option<Token>) | Cleaned(index: nat, token: Token)

  function DepsChanged<T(==)>(prev: Deps<T>, current: Deps<T>): bool {
    !(prev.Listed? && current.Listed? && prev.values == current.values)
  }

  // -- balance: effects and cleanups of a slot alternate --

  /** The cleanup a slot still owes. */
  function Owed(log: seq<Happened>, i: nat): Option<Token> {
    if log == [] then None else
    var last := log[|log| - 1];
    if last.index != i then Owed(log[..|log| - 1], i)
    else if last.Ran? then last.left
    else None
  }

  /** No effect of the slot runs while a cleanup is owed, and only the cleanup owed ever runs. */
  ghost predicate Balanced(log: seq<Happened>, i: nat) {
    log == [] ||
    var init, last := log[..|log| - 1], log[|log| - 1];
    && Balanced(init, i)
    && (last.index == i ==>
          if last.Ran? then Owed(init, i) == None else Owed(init, i) == Some(last.token))
  }

  function Left(log: seq<Happened>, i: nat, t: Token): nat {
    if log == [] then 0
    else Left(log[..|log| - 1], i, t) +
         if log[|log| - 1].Ran? && log[|log| - 1].index == i && log[|log| - 1].left == Some(t) then 1 else 0
  }

  function Cleanups(log: seq<Happened>, i: nat, t: Token): nat {
    if log == [] then 0
    else Cleanups(log[..|log| - 1], i, t) + if log[|log| - 1] == Cleaned(i, t) then 1 else 0
  }

  /** Conservation: every cleanup left has run once, except the one still owed. */
  lemma {:induction false} BalancedConserves(log: seq<Happened>, i: nat, t: Token)
    requires Balanced(log, i)
    ensures Left(log, i, t) == Cleanups(log, i, t) + if Owed(log, i) == Some(t) then 1 else 0
  {
    if log != [] {
      BalancedConserves(log[..|log| - 1], i, t);
    }
  }

  /** Between an effect that left a cleanup and the next effect of its slot, that cleanup runs. */
  lemma {:induction false} CleanedBetween(log: seq<Happened>, i: nat, a: nat, b: nat, t: Token)
    requires Balanced(log, i) && a < b < |log|
    requires log[a].Ran? && log[a].index == i && log[a].left == Some(t)
    requires log[b].Ran? && log[b].index == i
    ensures exists c :: a < c < b && log[c] == Cleaned(i, t)
    decreases |log|
  {
    var init := log[..|log| - 1];
    if b < |log| - 1 {
      CleanedBetween(init, i, a, b, t);
      var c :| a < c < b && init[c] == Cleaned(i, t);
      assert log[c] == Cleaned(i, t);
    } else {
      OwedUntilCleaned(init, i, a, t);
      var c :| a < c < |init| && init[c] == Cleaned(i, t);
      assert log[c] == Cleaned(i, t);
    }
  }

  lemma {:induction false} OwedUntilCleaned(log: seq<Happened>, i: nat, a: nat, t: Token)
    requires Balanced(log, i) && a < |log| && log[a].Ran? && log[a].index == i && log[a].left == Some(t)
    ensures Owed(log, i) == Some(t) || exists c :: a < c < |log| && log[c] == Cleaned(i, t)
  {
    if a < |log| - 1 {
      var init, last := log[..|log| - 1], log[|log| - 1];
      OwedUntilCleaned(init, i, a, t);
      if Owed(init, i) == Some(t) {
        if last.index == i { assert log[|log| - 1] == Cleaned(i, t); }
      } else {
        var c :| a < c < |init| && init[c] == Cleaned(i, t);
        assert log[c] == Cleaned(i, t);
      }
    }
  }

  lemma LogStep(log: seq<Happened>, e: Happened, i: nat)
    ensures Owed(log + [e], i) == if e.index != i then Owed(log, i) else if e.Ran? then e.left else None
    ensures Balanced(log + [e], i) <==>
              Balanced(log, i) &&
              (e.index == i ==> if e.Ran? then Owed(log, i) == None else Owed(log, i) == Some(e.token))
    ensures EffectsRun(log + [e]) == EffectsRun(log) + if e.Ran? then [(e.index, e.effect)] else []
    ensures Failures(log + [e]) == Failures(log) + if e.Cleaned? && e.token.fails then [e.token] else []
  {
    assert (log + [e])[..|log|] == log;
  }

  // -- every cleanup returned is left, under an identity of its own --

  /** An effect leaves a cleanup exactly when it returns one. */
  predicate Honest(e: Happened) {
    e.Ran? ==> if e.effect.outcome.ReturnsCleanup? then e.left.Some? && e.left.value.fails == e.effect.outcome.fails
               else e.left.None?
  }

  /** Honest events whose cleanups are all different, and made before `next`. */
  ghost predicate Recorded(log: seq<Happened>, next: nat) {
    && (forall a :: 0 <= a < |log| ==> Honest(log[a]))
    && (forall a :: 0 <= a < |log| && log[a].Ran? && log[a].left.Some? ==> log[a].left.value.id < next)
    && (forall a, b :: 0 <= a < b < |log| && log[a].Ran? && log[b].Ran? && log[a].left.Some? ==> log[a].left != log[b].left)
  }

  lemma {:induction false} NotLeft(log: seq<Happened>, i: nat, t: Token)
    requires forall a :: 0 <= a < |log| && log[a].Ran? && log[a].index == i ==> log[a].left != Some(t)
    ensures Left(log, i, t) == 0
  {
    if log != [] { NotLeft(log[..|log| - 1], i, t); }
  }

  /** A cleanup is left once, and in one slot. */
  lemma {:induction false} LeftOnce(log: seq<Happened>, next: nat, a: nat, i: nat)
    requires Recorded(log, next) && a < |log| && log[a].Ran? && log[a].left.Some?
    ensures Left(log, i, log[a].left.value) == if i == log[a].index then 1 else 0
  {
    var init := log[..|log| - 1];
    if a < |init| {
      LeftOnce(init, next, a, i);
    } else {
      NotLeft(init, i, log[a].left.value);
    }
  }

  /** Once nothing is owed, each cleanup an effect returned has run exactly once, in its own slot. */
  lemma EachCleanedOnce(log: seq<Happened>, next: nat, a: nat, i: nat)
    requires Recorded(log, next) && a < |log| && log[a].Ran? && log[a].effect.outcome.ReturnsCleanup?
    requires Balanced(log, i) && Owed(log, i) == None
    ensures log[a].left.Some?
    ensures Cleanups(log, i, log[a].left.value) == if i == log[a].index then 1 else 0
  {
    assert Honest(log[a]);
    LeftOnce(log, next, a, i);
    BalancedConserves(log, i, log[a].left.value);
  }

  /** The cleanups that raised. */
  function Failures(log: seq<Happened>): seq<Token> {
    if log == [] then []
    else Failures(log[..|log| - 1]) +
         if log[|log| - 1].Cleaned? && log[|log| - 1].token.fails then [log[|log| - 1].token] else []
  }

  /** The effects that ran, with their slots. */
  function EffectsRun(log: seq<Happened>): seq<(nat, Effect)> {
    if log == [] then []
    else EffectsRun(log[..|log| - 1]) + if log[|log| - 1].Ran? then [(log[|log| - 1].index, log[|log| - 1].effect)] else []
  }

  // -- what a render should queue --

  /** The calls whose effects must run: new slots, slots that never ran, and changed dependencies. */
  function Due<T(==)>(slots: seq<Slot<T>>, calls: seq<Call<T>>): seq<Pending<T>> {
    if calls == [] then [] else
    var k := |calls| - 1;
    Due(slots, calls[..k]) +
    if k >= |slots| || DepsChanged(slots[k].deps, calls[k].deps) then [Pending(k, calls[k].effect, calls[k].deps)] else []
  }

  /** The slots after a render: new ones have no dependencies and owe nothing. */
  function Grown<T>(slots: seq<Slot<T>>, n: nat): seq<Slot<T>> {
    if n <= |slots| then slots else slots + seq(n - |slots|, _ => Slot(Never, None))
  }

  lemma GrownNext<T>(slots: seq<Slot<T>>, k: nat)
    ensures Grown(Grown(slots, k), k + 1) == Grown(slots, k + 1)
    ensures k < |slots| <==> k < |Grown(slots, k)|
    ensures k < |slots| ==> Grown(slots, k)[k] == slots[k]
  {
  }

  lemma DueNext<T>(slots: seq<Slot<T>>, calls: seq<Call<T>>, k: nat)
    requires k < |calls|
    ensures Due(slots, calls[..k + 1]) == Due(slots, calls[..k]) +
              if k >= |slots| || DepsChanged(slots[k].deps, calls[k].deps) then [Pending(k, calls[k].effect, calls[k].deps)] else []
  {
    assert calls[..k + 1][..k] == calls[..k];
  }

  /** Slots that an aborted render added are still due: they have never run. */
  lemma {:induction false} DueGrown<T>(slots: seq<Slot<T>>, n: nat, calls: seq<Call<T>>)
    ensures Due(Grown(slots, n), calls) == Due(slots, calls)
  {
    if calls != [] {
      DueGrown(slots, n, calls[..|calls| - 1]);
    }
  }

  /** Exactly the calls that must run are queued, in call order and once each. */
  lemma {:induction false} DueOrder<T>(slots: seq<Slot<T>>, calls: seq<Call<T>>)
    ensures forall a, b :: 0 <= a < b < |Due(slots, calls)| ==> Due(slots, calls)[a].index < Due(slots, calls)[b].index
    ensures forall p :: p in Due(slots, calls) ==>
              p.index < |calls| && p == Pending(p.index, calls[p.index].effect, calls[p.index].deps)
    ensures forall k :: 0 <= k < |calls| ==>
              (Pending(k, calls[k].effect, calls[k].deps) in Due(slots, calls) <==>
               k >= |slots| || DepsChanged(slots[k].deps, calls[k].deps))
  {
    if calls != [] {
      var init := calls[..|calls| - 1];
      DueOrder(slots, init);
      var d := Due(slots, init);
      assert forall a :: 0 <= a < |d| ==> d[a] in d;
      forall k | 0 <= k < |calls|
        ensures Pending(k, calls[k].effect, calls[k].deps) in Due(slots, calls) <==>
                (k >= |slots| || DepsChanged(slots[k].deps, calls[k].deps))
      {
        if k < |init| { assert init[k] == calls[k]; }
      }
    }
  }

  ghost predicate AllBalanced(log: seq<Happened>) {
    forall i: nat :: Balanced(log, i)
  }

  /** Each slot holds exactly the cleanup it owes. */
  ghost predicate Owes<T(!new)>(log: seq<Happened>, slots: seq<Slot<T>>) {
    forall i: nat :: Owed(log, i) == if i < |slots| then slots[i].cleanup else None
  }

  lemma OneMore<T(!new)>(log: seq<Happened>, slots: seq<Slot<T>>, e: Happened, s: Slot<T>)
    requires AllBalanced(log) && Owes(log, slots) && e.index < |slots|
    requires if e.Ran? then slots[e.index].cleanup == None && s.cleanup == e.left
             else slots[e.index].cleanup == Some(e.token) && s.cleanup == None
    ensures AllBalanced(log + [e]) && Owes(log + [e], slots[e.index := s])
    ensures EffectsRun(log + [e]) == EffectsRun(log) + if e.Ran? then [(e.index, e.effect)] else []
    ensures Failures(log + [e]) == Failures(log) + if e.Cleaned? && e.token.fails then [e.token] else []
  {
    LogStep(log, e, 0);
    forall j: nat
      ensures Balanced(log + [e], j)
      ensures Owed(log + [e], j) == if j < |slots| then slots[e.index := s][j].cleanup else None
    {
      LogStep(log, e, j);
    }
  }

  /** The first queued effect that raises. */
  function FirstError<T>(due: seq<Pending<T>>): Option<nat> {
    if due == [] then None
    else if FirstError(due[..|due| - 1]).Some? then FirstError(due[..|due| - 1])
    else if due[|due| - 1].effect.outcome.Raises? then Some(due[|due| - 1].effect.id) else None
  }

  /** No later effect was queued for the same slot. */
  ghost predicate LastOfSlot<T>(due: seq<Pending<T>>, k: nat)
    requires k < |due|
  {
    forall l :: k < l < |due| ==> due[l].index != due[k].index
  }

  /** A slot as its effect leaves it. */
  ghost predicate Holds<T>(slots: seq<Slot<T>>, p: Pending<T>) {
    p.index < |slots| && slots[p.index].deps == p.deps &&
    (slots[p.index].cleanup.Some? <==> p.effect.outcome.ReturnsCleanup?)
  }

  /** Each slot is as the last effect queued for it leaves it, or as it was when none was queued. */
  ghost predicate Flushed<T(!new)>(before: seq<Slot<T>>, due: seq<Pending<T>>, after: seq<Slot<T>>) {
    && |after| == |before|
    && (forall i :: 0 <= i < |before| && (forall p <- due :: p.index != i) ==> after[i] == before[i])
    && (forall k :: 0 <= k < |due| && LastOfSlot(due, k) ==> Holds(after, due[k]))
  }

  lemma FlushedMore<T(!new)>(before: seq<Slot<T>>, due: seq<Pending<T>>, mid: seq<Slot<T>>, p: Pending<T>, after: seq<Slot<T>>)
    requires Flushed(before, due, mid) && |after| == |mid| && Holds(after, p)
    requires forall i :: 0 <= i < |mid| && i != p.index ==> after[i] == mid[i]
    ensures Flushed(before, due + [p], after)
  {
    var more := due + [p];
    assert more[|due|] == p;
    forall i | 0 <= i < |before| && (forall q <- more :: q.index != i)
      ensures after[i] == before[i]
    {
      assert p in more && forall q <- due :: q in more;
    }
    forall k | 0 <= k < |more| && LastOfSlot(more, k)
      ensures Holds(after, more[k])
    {
      if k < |due| {
        assert forall l :: 0 <= l < |due| ==> more[l] == due[l];
        assert LastOfSlot(due, k);
      }
    }
  }

  /** After a render and the flush of what it queued, each call's slot holds that call's dependencies. */
  lemma DepsStored<T(!new)>(slots: seq<Slot<T>>, calls: seq<Call<T>>, grown: seq<Slot<T>>, after: seq<Slot<T>>)
    requires grown == Grown(slots, |calls|) && Flushed(grown, Due(slots, calls), after)
    ensures forall k :: 0 <= k < |calls| ==> after[k].deps == calls[k].deps
  {
    var due := Due(slots, calls);
    DueOrder(slots, calls);
    forall k | 0 <= k < |calls|
      ensures after[k].deps == calls[k].deps
    {
      var p := Pending(k, calls[k].effect, calls[k].deps);
      if p in due {
        var j :| 0 <= j < |due| && due[j] == p;
        assert LastOfSlot(due, j);
      } else {
        assert forall q <- due :: q.index != k;
        assert after[k] == grown[k] == slots[k];
      }
    }
  }

  function Indexed<T>(due: seq<Pending<T>>): seq<(nat, Effect)> {
    seq(|due|, k requires 0 <= k < |due| => (due[k].index, due[k].effect))
  }

  lemma QueuedMore<T>(due: seq<Pending<T>>, k: nat)
    requires k < |due|
    ensures due[..k + 1] == due[..k] + [due[k]]
    ensures Indexed(due[..k + 1]) == Indexed(due[..k]) + [(due[k].index, due[k].effect)]
    ensures FirstError(due[..k + 1]) == if FirstError(due[..k]).Some? then FirstError(due[..k])
                                        else if due[k].effect.outcome.Raises? then Some(due[k].effect.id) else None
  {
    assert due[..k + 1] == due[..k] + [due[k]] && due[..k + 1][..k] == due[..k];
  }

  lemma NothingOwed<T(!new)>(log: seq<Happened>, slots: seq<Slot<T>>)
    requires Owes(log, slots) && forall i :: 0 <= i < |slots| ==> slots[i].cleanup == None
    ensures forall i: nat :: Owed(log, i) == None
  {
  }

  /** Every cleanup an effect returned has run exactly once, in that effect's slot. */
  ghost predicate CleanedOnce(log: seq<Happened>) {
    forall i: nat, a :: 0 <= a < |log| && log[a].Ran? && log[a].effect.outcome.ReturnsCleanup? ==>
      log[a].left.Some? && Cleanups(log, i, log[a].left.value) == if i == log[a].index then 1 else 0
  }

  lemma AllCleanedOnce(log: seq<Happened>, next: nat)
    requires Recorded(log, next) && AllBalanced(log) && forall i: nat :: Owed(log, i) == None
    ensures CleanedOnce(log)
  {
    forall i: nat, a | 0 <= a < |log| && log[a].Ran? && log[a].effect.outcome.ReturnsCleanup?
      ensures log[a].left.Some? && Cleanups(log, i, log[a].left.value) == if i == log[a].index then 1 else 0
    {
      EachCleanedOnce(log, next, a, i);
    }
  }

  class EffectLane<T(==, !new)> {
    var slots: seq<Slot<T>>
    var pending: seq<Pending<T>>
    var mark: nat               // length of `pending` when the render began
    var cursor: nat
    var log: seq<Happened>
    var nextToken: nat
    var reported: seq<Token>    // the cleanups whose errors were reported

    /** Slots owe exactly what the log says, and the log is balanced. */
    ghost predicate Valid()
      reads this
    {
      && mark <= |pending| && (forall p :: p in pending ==> p.index < |slots|)
      && AllBalanced(log) && Owes(log, slots)
      && Recorded(log, nextToken) && reported == Failures(log)
    }

    constructor ()
      ensures Valid() && slots == [] && pending == [] && log == []
    {
      slots, pending, mark, cursor, log, nextToken, reported := [], [], 0, 0, [], 0, [];
    }

    method BeginRender()
      requires Valid()
      modifies `cursor, `mark
      ensures Valid() && cursor == 0 && mark == |pending|
    {
      cursor, mark := 0, |pending|;
    }

    method UseEffect(effect: Effect, deps: Deps<T>)
      requires Valid() && cursor <= |slots|
      modifies `slots, `pending, `cursor
      ensures Valid() && cursor == old(cursor) + 1 && slots == Grown(old(slots), cursor)
      ensures pending == old(pending) +
                if old(cursor) >= |old(slots)| || DepsChanged(old(slots)[old(cursor)].deps, deps)
                then [Pending(old(cursor), effect, deps)] else []
    {
      var index := cursor;
      cursor := cursor + 1;
      if index >= |slots| {
        slots := slots + [Slot(Never, None)];
        pending := pending + [Pending(index, effect, deps)];
        return;
      }
      if DepsChanged(slots[index].deps, deps) {
        pending := pending + [Pending(index, effect, deps)];
      }
    }

    /** Forgets what the suspended render queued. */
    method AbortRender()
      requires Valid()
      modifies `pending
      ensures Valid() && pending == old(pending)[..mark]
    {
      pending := pending[..mark];
    }

    /** One attempt at a render, completed or suspended after `calls`. */
    method Render(calls: seq<Call<T>>, completes: bool)
      requires Valid()
      modifies `slots, `pending, `cursor, `mark
      ensures Valid() && slots == Grown(old(slots), |calls|)
      ensures pending == if completes then old(pending) + Due(old(slots), calls) else old(pending)
    {
      BeginRender();
      RunBody(calls);
      if !completes {
        AbortRender();
        assert (old(pending) + Due(old(slots), calls))[..|old(pending)|] == old(pending);
      }
    }

    /** The effect calls of one body. */
    method RunBody(calls: seq<Call<T>>)
      requires Valid() && cursor == 0
      modifies `slots, `pending, `cursor
      ensures Valid() && slots == Grown(old(slots), |calls|)
      ensures pending == old(pending) + Due(old(slots), calls)
    {
      for k := 0 to |calls|
        invariant Valid() && cursor == k && slots == Grown(old(slots), k)
        invariant pending == old(pending) + Due(old(slots), calls[..k])
      {
        UseNext(old(slots), old(pending), calls, k);
      }
      assert calls[..|calls|] == calls;
    }

    method UseNext(ghost first: seq<Slot<T>>, ghost before: seq<Pending<T>>, calls: seq<Call<T>>, k: nat)
      requires Valid() && k < |calls| && cursor == k && slots == Grown(first, k)
      requires pending == before + Due(first, calls[..k])
      modifies `slots, `pending, `cursor
      ensures Valid() && cursor == k + 1 && slots == Grown(first, k + 1)
      ensures pending == before + Due(first, calls[..k + 1])
    {
      DueNext(first, calls, k);
      GrownNext(first, k);
      UseEffect(calls[k].effect, calls[k].deps);
    }

    /** Any number of suspended attempts and then a completed render queue each due effect once, in call order. */
    method RenderRetrying(attempts: seq<seq<Call<T>>>, calls: seq<Call<T>>)
      requires Valid()
      modifies `slots, `pending, `cursor, `mark
      ensures Valid() && pending == old(pending) + Due(old(slots), calls)
    {
      ghost var n: nat := 0;
      for k := 0 to |attempts|
        invariant Valid() && pending == old(pending) && slots == Grown(old(slots), n)
      {
        Render(attempts[k], false);
        n := if n < |attempts[k]| then |attempts[k]| else n;
      }
      DueGrown(old(slots), n, calls);
      Render(calls, true);
    }

    /** Runs a slot's cleanup, if it has one; when that raises, the error is reported and goes no further. */
    method RunCleanup(i: nat)
      requires Valid() && i < |slots|
      modifies `log, `slots, `reported
      ensures Valid() && slots == old(slots)[i := old(slots)[i].(cleanup := None)]
      ensures log == old(log) + if old(slots)[i].cleanup.Some? then [Cleaned(i, old(slots)[i].cleanup.value)] else []
      ensures EffectsRun(log) == EffectsRun(old(log))
    {
      if slots[i].cleanup.Some? {
        var e := Cleaned(i, slots[i].cleanup.value);
        OneMore(log, slots, e, slots[i].(cleanup := None));
        log := log + [e];
        slots := slots[i := slots[i].(cleanup := None)];
        if e.token.fails {
          reported := reported + [e.token];
        }
      }
    }

    /** Runs one effect whose slot owes nothing; the slot then owes the cleanup it returned, a new one. */
    method Activate(p: Pending<T>) returns (raised: bool)
      requires Valid() && p.index < |slots| && slots[p.index] == Slot(p.deps, None)
      modifies `log, `slots, `nextToken
      ensures Valid() && raised == p.effect.outcome.Raises? && |slots| == |old(slots)|
      ensures slots[p.index].deps == p.deps
      ensures slots[p.index].cleanup == if p.effect.outcome.ReturnsCleanup? then Some(Token(old(nextToken), p.effect.outcome.fails)) else None
      ensures log == old(log) + [Ran(p.index, p.effect, slots[p.index].cleanup)]
      ensures forall i :: 0 <= i < |slots| && i != p.index ==> slots[i] == old(slots)[i]
      ensures EffectsRun(log) == EffectsRun(old(log)) + [(p.index, p.effect)]
    {
      raised := p.effect.outcome.Raises?;
      var left := if p.effect.outcome.ReturnsCleanup? then Some(Token(nextToken, p.effect.outcome.fails)) else None;
      nextToken := nextToken + 1;
      var e := Ran(p.index, p.effect, left);
      OneMore(log, slots, e, Slot(p.deps, left));
      log := log + [e];
      slots := slots[p.index := Slot(p.deps, left)];
    }

    /** One queued effect: the slot's previous cleanup runs, and is cleared, before the effect does. */
    method RunEffect(p: Pending<T>) returns (raised: bool)
      requires Valid() && p.index < |slots|
      modifies `log, `slots, `nextToken, `reported
      ensures Valid() && raised == p.effect.outcome.Raises? && |slots| == |old(slots)|
      ensures slots[p.index].deps == p.deps
      ensures slots[p.index].cleanup.Some? <==> p.effect.outcome.ReturnsCleanup?
      ensures forall i :: 0 <= i < |slots| && i != p.index ==> slots[i] == old(slots)[i]
      ensures EffectsRun(log) == EffectsRun(old(log)) + [(p.index, p.effect)]
    {
      RunCleanup(p.index);
      slots := slots[p.index := Slot(p.deps, None)];
      raised := Activate(p);
    }

    /** Runs every queued effect once, in order, each after its slot's previous cleanup; the first error,
        if any, comes out at the end. */
    method Flush() returns (error: Option<nat>)
      requires Valid()
      modifies this
      ensures Valid() && pending == []
      ensures EffectsRun(log) == EffectsRun(old(log)) + Indexed(old(pending))
      ensures error == FirstError(old(pending))
      ensures Flushed(old(slots), old(pending), slots)
    {
      var due := pending;
      pending, mark := [], 0;
      error := None;
      for k := 0 to |due|
        invariant Valid() && pending == []
        invariant EffectsRun(log) == EffectsRun(old(log)) + Indexed(due[..k])
        invariant error == FirstError(due[..k])
        invariant Flushed(old(slots), due[..k], slots)
      {
        var p := due[k];
        assert p in due;
        QueuedMore(due, k);
        ghost var mid := slots;
        var raised := RunEffect(p);
        FlushedMore(old(slots), due[..k], mid, p, slots);
        if raised && error.None? {
          error := Some(p.effect.id);
        }
      }
      assert due[..|due|] == due;
    }

    /** A completed render and the flush after it: every call's slot then holds that call's dependencies. */
    method Commit(calls: seq<Call<T>>) returns (error: Option<nat>)
      requires Valid() && pending == []
      modifies this
      ensures Valid() && pending == [] && |calls| <= |slots|
      ensures forall k :: 0 <= k < |calls| ==> slots[k].deps == calls[k].deps
    {
      Render(calls, true);
      ghost var due, before := pending, slots;
      assert due == Due(old(slots), calls);
      error := Flush();
      DepsStored(old(slots), calls, before, slots);
    }

    /** Rendered again after a flush, a call is queued exactly when it has no dependency list, had none the last
        time, or has a different one. */
    method RenderAgain(first: seq<Call<T>>, second: seq<Call<T>>)
      requires Valid() && pending == []
      modifies this
      ensures Valid() && forall p <- pending :: p.index < |second| && p == Pending(p.index, second[p.index].effect, second[p.index].deps)
      ensures forall k :: 0 <= k < |first| && k < |second| ==>
                (Pending(k, second[k].effect, second[k].deps) in pending <==>
                 !(first[k].deps.Listed? && second[k].deps.Listed? && first[k].deps.values == second[k].deps.values))
    {
      var error := Commit(first);
      DueOrder(slots, second);
      Render(second, true);
    }

    /** Unmounting runs every outstanding cleanup and drops what was queued: nothing is owed any more. */
    method CleanupAll()
      requires Valid()
      modifies this
      ensures Valid() && pending == [] && |slots| == |old(slots)|
      ensures forall i: nat :: Owed(log, i) == None
      ensures forall i :: 0 <= i < |slots| ==> slots[i] == Slot(Never, None)
      ensures EffectsRun(log) == EffectsRun(old(log))
      ensures CleanedOnce(log)
    {
      CleanSlots();
      pending, mark := [], 0;
      NothingOwed(log, slots);
      AllCleanedOnce(log, nextToken);
    }

    method CleanSlots()
      requires Valid()
      modifies `log, `slots, `reported
      ensures Valid() && |slots| == |old(slots)| && EffectsRun(log) == EffectsRun(old(log))
      ensures forall k :: 0 <= k < |slots| ==> slots[k] == Slot(Never, None)
    {
      for i := 0 to |slots|
        invariant Valid() && |slots| == |old(slots)| && EffectsRun(log) == EffectsRun(old(log))
        invariant forall k :: 0 <= k < i ==> slots[k] == Slot(Never, None)
      {
        CleanSlot(i);
      }
    }

    method CleanSlot(i: nat)
      requires Valid() && i < |slots|
      modifies `log, `slots, `reported
      ensures Valid() && slots == old(slots)[i := Slot(Never, None)] && EffectsRun(log) == EffectsRun(old(log))
    {
      RunCleanup(i);
      slots := slots[i := Slot(Never, None)];
    }
  }
}
