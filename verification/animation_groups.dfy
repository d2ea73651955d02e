/** Completion of native animations: groups of drivers, their owner values, and who hears how they end. */
module AnimationGroups {
  import opened Wrappers

  type AnimId = nat
  type GroupId = nat
  type ValueId = nat
  type WaiterId = nat

  /** An animated value: its number and the group that owns it. */
  datatype Cell = Cell(current: real, owner: Option<GroupId>)

  /** One animation fanned out to several drivers; `result` says whether it finished, once it is settled. */
  datatype Group = Group(value: ValueId, finalValue: real, targets: seq<AnimId>, pending: set<AnimId>,
                         allFinished: bool, waiters: seq<WaiterId>, result: Option<bool>)

  /** Where messages about a driver go: to its group, or to what is left of a cancelled one. */
  datatype Route = ToGroup(group: GroupId) | Stopped(value: ValueId)

  type Registry = map<AnimId, Route>

  // -- how a group ends, read off what happened since it started --

  datatype Event = Completion(anim: AnimId, finished: bool) | CancelCall(group: GroupId)

  datatype Verdict = Verdict(pending: set<AnimId>, allFinished: bool, result: Option<bool>)

  function JudgeStep(g: GroupId, s: Verdict, e: Event): Verdict {
    if s.result.Some? then s
    else
      match e
      case CancelCall(h) => if h == g then Verdict({}, s.allFinished, Some(false)) else s
      case Completion(a, finished) =>
        if a !in s.pending then s
        else
          var rest := s.pending - {a};
          var all := s.allFinished && finished;
          Verdict(rest, all, if rest == {} then Some(all) else None)
  }

  function Judge(g: GroupId, targets: seq<AnimId>, events: seq<Event>): Verdict {
    if events == [] then Verdict(set a | a in targets, true, None)
    else JudgeStep(g, Judge(g, targets, events[..|events| - 1]), events[|events| - 1])
  }

  /** What a driver's first completion said. */
  function FirstReport(events: seq<Event>, a: AnimId): (r: Option<bool>)
    ensures r.None? <==> forall f :: Completion(a, f) !in events
  {
    if events == [] then None
    else
      var e := events[|events| - 1];
      var before := FirstReport(events[..|events| - 1], a);
      assert events == events[..|events| - 1] + [e];
      if before.Some? then before
      else if e.Completion? && e.anim == a then Some(e.finished)
      else None
  }

  ghost predicate AllReported(targets: seq<AnimId>, events: seq<Event>) {
    forall a :: a in targets ==> FirstReport(events, a).Some?
  }

  ghost predicate AllFinished(targets: seq<AnimId>, events: seq<Event>) {
    forall a :: a in targets ==> FirstReport(events, a) == Some(true)
  }

  /** While a group runs: nobody cancelled it, and it knows which drivers have not reported and how the others did. */
  lemma {:induction false} JudgeRunning(g: GroupId, targets: seq<AnimId>, events: seq<Event>)
    requires Judge(g, targets, events).result.None?
    ensures CancelCall(g) !in events
    ensures var s := Judge(g, targets, events);
            && (forall a :: a in s.pending <==> a in targets && FirstReport(events, a).None?)
            && (s.allFinished <==> forall a :: a in targets ==> FirstReport(events, a) != Some(false))
  {
    if events != [] {
      var before, e := events[..|events| - 1], events[|events| - 1];
      assert events == before + [e];
      JudgeRunning(g, targets, before);
      JudgeRunningStep(g, targets, before, e);
    }
  }

  lemma FirstReportStep(before: seq<Event>, e: Event, a: AnimId)
    ensures FirstReport(before + [e], a) ==
            if FirstReport(before, a).None? && e.Completion? && e.anim == a then Some(e.finished) else FirstReport(before, a)
  {
    assert (before + [e])[..|before|] == before;
  }

  lemma JudgeRunningStep(g: GroupId, targets: seq<AnimId>, before: seq<Event>, e: Event)
    requires Judge(g, targets, before).result.None?
    requires JudgeStep(g, Judge(g, targets, before), e).result.None?
    requires var s := Judge(g, targets, before);
             && (forall a :: a in s.pending <==> a in targets && FirstReport(before, a).None?)
             && (s.allFinished <==> forall a :: a in targets ==> FirstReport(before, a) != Some(false))
    ensures var s := JudgeStep(g, Judge(g, targets, before), e);
            && (forall a :: a in s.pending <==> a in targets && FirstReport(before + [e], a).None?)
            && (s.allFinished <==> forall a :: a in targets ==> FirstReport(before + [e], a) != Some(false))
  {
    forall a ensures FirstReport(before + [e], a) ==
      if FirstReport(before, a).None? && e.Completion? && e.anim == a then Some(e.finished) else FirstReport(before, a)
    {
      FirstReportStep(before, e, a);
    }
  }

  /** A group is settled once and for all. */
  lemma {:induction false} SettlesOnce(g: GroupId, targets: seq<AnimId>, events: seq<Event>, k: nat)
    requires k <= |events| && Judge(g, targets, events[..k]).result.Some?
    ensures Judge(g, targets, events).result == Judge(g, targets, events[..k]).result
  {
    if k < |events| {
      assert events[..|events| - 1][..k] == events[..k];
      SettlesOnce(g, targets, events[..|events| - 1], k);
    } else {
      assert events[..k] == events;
    }
  }

  /** The completion that settles a group is the last one missing. */
  lemma LastReport(g: GroupId, targets: seq<AnimId>, before: seq<Event>, e: Event)
    requires Judge(g, targets, before).result.None? && JudgeStep(g, Judge(g, targets, before), e).result.Some?
    requires e.Completion?
    ensures AllReported(targets, before + [e]) && CancelCall(g) !in before + [e]
    ensures JudgeStep(g, Judge(g, targets, before), e).result == Some(true) ==> AllFinished(targets, before + [e])
  {
    var s := Judge(g, targets, before);
    JudgeRunning(g, targets, before);
    assert (before + [e])[..|before|] == before;
    forall a | a in targets
      ensures FirstReport(before + [e], a).Some?
      ensures s.allFinished && e.finished ==> FirstReport(before + [e], a) == Some(true)
    {
      FirstReportStep(before, e, a);
      assert a in s.pending - {e.anim} || a == e.anim || FirstReport(before, a).Some?;
      if s.allFinished && e.finished && a != e.anim {
        assert FirstReport(before, a) != Some(false);
        assert FirstReport(before, a).value;
      }
    }
  }

  /** Unsettled exactly while not cancelled and some driver is still to report. */
  lemma {:induction false} UnsettledMeans(g: GroupId, targets: seq<AnimId>, events: seq<Event>)
    requires targets != []
    ensures Judge(g, targets, events).result.None? <==> CancelCall(g) !in events && !AllReported(targets, events)
  {
    if events == [] {
      assert targets[0] in targets && FirstReport(events, targets[0]).None?;
    } else {
      var before, e := events[..|events| - 1], events[|events| - 1];
      assert events == before + [e];
      UnsettledMeans(g, targets, before);
      var s := Judge(g, targets, before);
      if s.result.Some? {
        assert AllReported(targets, before) ==> AllReported(targets, events);
      } else {
        JudgeRunning(g, targets, before);
        if Judge(g, targets, events).result.None? {
          JudgeRunning(g, targets, events);
          StillWaiting(g, targets, events);
        } else if e.Completion? {
          LastReport(g, targets, before, e);
        }
      }
    }
  }

  lemma {:induction false} StillWaiting(g: GroupId, targets: seq<AnimId>, events: seq<Event>)
    requires targets != [] && Judge(g, targets, events).result.None?
    ensures Judge(g, targets, events).pending != {}
  {
    if events == [] {
      assert targets[0] in Judge(g, targets, events).pending;
    } else {
      StillWaiting(g, targets, events[..|events| - 1]);
    }
  }

  /** Finished exactly when every driver reported that it finished before anybody cancelled the group. */
  lemma {:induction false} FinishedMeans(g: GroupId, targets: seq<AnimId>, events: seq<Event>)
    requires targets != []
    ensures Judge(g, targets, events).result == Some(true) <==>
            exists k :: 0 <= k <= |events| && CancelCall(g) !in events[..k] && AllFinished(targets, events[..k])
  {
    if k :| 0 <= k <= |events| && CancelCall(g) !in events[..k] && AllFinished(targets, events[..k]) {
      FinishedByThen(g, targets, events[..k]);
      SettlesOnce(g, targets, events, k);
    }
    if Judge(g, targets, events).result == Some(true) {
      var k := FinishPoint(g, targets, events);
      assert CancelCall(g) !in events[..k] && AllFinished(targets, events[..k]);
    }
  }

  lemma {:induction false} FinishedByThen(g: GroupId, targets: seq<AnimId>, events: seq<Event>)
    requires targets != [] && CancelCall(g) !in events && AllFinished(targets, events)
    ensures Judge(g, targets, events).result == Some(true)
  {
    UnsettledMeans(g, targets, events);
    assert targets[0] in targets;
    var before, e := events[..|events| - 1], events[|events| - 1];
    assert events == before + [e];
    if AllFinished(targets, before) {
      FinishedByThen(g, targets, before);
    } else {
      UnsettledMeans(g, targets, before);
      JudgeRunning(g, targets, before);
    }
  }

  lemma {:induction false} FinishPoint(g: GroupId, targets: seq<AnimId>, events: seq<Event>) returns (k: nat)
    requires targets != [] && Judge(g, targets, events).result == Some(true)
    ensures k <= |events| && CancelCall(g) !in events[..k] && AllFinished(targets, events[..k])
  {
    var before, e := events[..|events| - 1], events[|events| - 1];
    assert events == before + [e];
    if Judge(g, targets, before).result.Some? {
      k := FinishPoint(g, targets, before);
      assert before[..k] == events[..k];
    } else {
      k := |events|;
      assert events[..k] == events;
      LastReport(g, targets, before, e);
    }
  }

  // -- invariants --

  ghost predicate OwnerOk(cells: seq<Cell>, groups: seq<Group>, g: GroupId)
    requires g < |groups|
  {
    groups[g].value < |cells| && (groups[g].result.None? <==> cells[groups[g].value].owner == Some(g))
  }

  /** Outside a changeover, a group is unsettled exactly while its value is owned by it. */
  ghost predicate OwnersOk(cells: seq<Cell>, groups: seq<Group>, superseded: Option<GroupId>) {
    && (forall g: GroupId :: g < |groups| && superseded != Some(g) ==> OwnerOk(cells, groups, g))
    && (forall v: ValueId :: v < |cells| && cells[v].owner.Some? ==>
          cells[v].owner.value < |groups| && groups[cells[v].owner.value].value == v)
    && (superseded.Some? ==>
          superseded.value < |groups| && groups[superseded.value].value < |cells| &&
          groups[superseded.value].result.None? && cells[groups[superseded.value].value].owner != superseded)
  }

  ghost predicate RouteOk(valueCount: nat, groups: seq<Group>, registry: Registry, a: AnimId)
    requires a in registry
  {
    match registry[a]
    case ToGroup(g) => g < |groups| && a in groups[g].pending
    case Stopped(v) => v < valueCount
  }

  /** A group's drivers are its own: those still running are routed to it, the others to nobody else. */
  ghost predicate PendingOk(groups: seq<Group>, registry: Registry, nextAnim: AnimId, g: GroupId)
    requires g < |groups|
  {
    && (forall a :: a in groups[g].targets ==>
          a < nextAnim && (a in registry ==> registry[a] == ToGroup(g) || registry[a] == Stopped(groups[g].value)))
    && (forall a :: a in groups[g].pending ==> a in groups[g].targets && a in registry && registry[a] == ToGroup(g))
    && (groups[g].result.Some? ==> groups[g].pending == {})
    && groups[g].targets != []
  }

  ghost predicate RoutesOk(valueCount: nat, groups: seq<Group>, registry: Registry, nextAnim: AnimId) {
    && (forall a <- registry :: a < nextAnim && RouteOk(valueCount, groups, registry, a))
    && (forall g: GroupId :: g < |groups| ==> PendingOk(groups, registry, nextAnim, g))
  }

  /** What a waiter has been told is nothing while its group runs, and then its group's result, once. */
  predicate ToldOk(groups: seq<Group>, group: GroupId, told: seq<bool>) {
    group < |groups| && told == (if groups[group].result.None? then [] else [groups[group].result.value])
  }

  ghost predicate WaitersOk(groups: seq<Group>, waits: seq<GroupId>, g: GroupId)
    requires g < |groups|
  {
    && (forall i, j :: 0 <= i < j < |groups[g].waiters| ==> groups[g].waiters[i] != groups[g].waiters[j])
    && (forall w: WaiterId :: w in groups[g].waiters <==> w < |waits| && waits[w] == g && groups[g].result.None?)
  }

  ghost predicate WaitsOk(groups: seq<Group>, waits: seq<GroupId>, told: seq<seq<bool>>) {
    && |told| == |waits|
    && (forall w: WaiterId :: w < |waits| ==> ToldOk(groups, waits[w], told[w]))
    && (forall g: GroupId :: g < |groups| ==> WaitersOk(groups, waits, g))
  }

  /** A group stands where the events since its start put it. */
  ghost predicate JudgedOk(group: Group, g: GroupId, since: nat, log: seq<Event>) {
    since <= |log| && Judge(g, group.targets, log[since..]) == Verdict(group.pending, group.allFinished, group.result)
  }

  ghost predicate AllJudged(groups: seq<Group>, since: seq<nat>, log: seq<Event>) {
    |since| == |groups| && forall g: GroupId :: g < |groups| ==> JudgedOk(groups[g], g, since[g], log)
  }

  // -- consequences --

  /** A value has at most one unsettled group. */
  lemma OneUnsettledGroup(cells: seq<Cell>, groups: seq<Group>, g: GroupId, h: GroupId)
    requires OwnersOk(cells, groups, None) && g < |groups| && h < |groups|
    requires groups[g].value == groups[h].value && groups[g].result.None? && groups[h].result.None?
    ensures g == h
  {
    assert OwnerOk(cells, groups, g) && OwnerOk(cells, groups, h);
  }

  /** One more event moves every group by one step. */
  lemma JudgeExtends(g: GroupId, targets: seq<AnimId>, since: nat, log: seq<Event>, e: Event)
    requires since <= |log|
    ensures Judge(g, targets, (log + [e])[since..]) == JudgeStep(g, Judge(g, targets, log[since..]), e)
  {
    var events := (log + [e])[since..];
    assert events[..|events| - 1] == log[since..];
  }

  /** Drivers of different groups differ, so a completion reaches one group at most, and a cancellation exactly one. */
  lemma OthersUnmoved(groups: seq<Group>, since: seq<nat>, log: seq<Event>, registry: Registry, nextAnim: AnimId,
                      e: Event, g: GroupId)
    requires AllJudged(groups, since, log) && forall h: GroupId :: h < |groups| ==> PendingOk(groups, registry, nextAnim, h)
    requires e.CancelCall? ==> e.group == g
    requires e.Completion? && e.anim in registry ==> registry[e.anim] == ToGroup(g) || registry[e.anim].Stopped?
    ensures forall h: GroupId :: h < |groups| && h != g ==> JudgedOk(groups[h], h, since[h], log + [e])
  {
    forall h: GroupId | h < |groups| && h != g ensures JudgedOk(groups[h], h, since[h], log + [e]) {
      assert JudgedOk(groups[h], h, since[h], log) && PendingOk(groups, registry, nextAnim, h);
      JudgeExtends(h, groups[h].targets, since[h], log, e);
    }
  }

  lemma CompletionIgnored(groups: seq<Group>, since: seq<nat>, log: seq<Event>, registry: Registry, nextAnim: AnimId, e: Event)
    requires AllJudged(groups, since, log) && forall h: GroupId :: h < |groups| ==> PendingOk(groups, registry, nextAnim, h)
    requires e.Completion? && (e.anim in registry ==> registry[e.anim].Stopped?)
    ensures AllJudged(groups, since, log + [e])
  {
    forall h: GroupId | h < |groups| ensures JudgedOk(groups[h], h, since[h], log + [e]) {
      OthersUnmoved(groups, since, log, registry, nextAnim, e, |groups|);
    }
  }

  /** The group an event is about moves by the same step as its verdict. */
  lemma GroupMoved(groups: seq<Group>, since: seq<nat>, log: seq<Event>, registry: Registry, nextAnim: AnimId,
                   e: Event, g: GroupId, x: Group)
    requires AllJudged(groups, since, log) && forall h: GroupId :: h < |groups| ==> PendingOk(groups, registry, nextAnim, h)
    requires if e.CancelCall? then e.group == g else e.anim in registry && registry[e.anim] == ToGroup(g)
    requires g < |groups| && x.targets == groups[g].targets
    requires Verdict(x.pending, x.allFinished, x.result) ==
             JudgeStep(g, Verdict(groups[g].pending, groups[g].allFinished, groups[g].result), e)
    ensures AllJudged(groups[g := x], since, log + [e])
  {
    OthersUnmoved(groups, since, log, registry, nextAnim, e, g);
    JudgeExtends(g, groups[g].targets, since[g], log, e);
    assert JudgedOk(groups[g], g, since[g], log);
  }

  /** A value when its group `g` settles: released, and moved to the end value if there is one. */
  function Landed(c: Cell, g: GroupId, end: Option<real>): Cell {
    Cell(if end.Some? then end.value else c.current, if c.owner == Some(g) then None else c.owner)
  }

  function Ended(x: Group, finished: bool): Group {
    x.(result := Some(finished), waiters := [])
  }

  /** Telling each waiter of a group its result, once, is what settling it asks for. */
  lemma SettleTells(groups: seq<Group>, waits: seq<GroupId>, told: seq<seq<bool>>, g: GroupId, finished: bool, told': seq<seq<bool>>)
    requires WaitsOk(groups, waits, told) && g < |groups| && groups[g].result.None? && |told'| == |told|
    requires forall w: WaiterId :: w < |told| ==>
               told'[w] == if w in groups[g].waiters then told[w] + [finished] else told[w]
    ensures WaitsOk(groups[g := Ended(groups[g], finished)], waits, told')
  {
    var groups' := groups[g := Ended(groups[g], finished)];
    assert WaitersOk(groups, waits, g);
    forall w: WaiterId | w < |waits| ensures ToldOk(groups', waits[w], told'[w]) {
      assert ToldOk(groups, waits[w], told[w]);
    }
    forall h: GroupId | h < |groups'| ensures WaitersOk(groups', waits, h) {
      assert WaitersOk(groups, waits, h);
    }
  }

  /** The registry once every driver of a group was told to stop; a core that raises drops the driver. */
  ghost predicate Disconnected(registry: Registry, registry': Registry, g: GroupId, value: ValueId,
                               targets: seq<AnimId>, failing: set<AnimId>) {
    && (forall a :: a in registry' <==> a in registry && !(a in targets && a in failing))
    && (forall a <- registry' :: registry'[a] == if a in targets && registry[a] == ToGroup(g) then Stopped(value) else registry[a])
  }

  lemma DisconnectedRoutes(valueCount: nat, groups: seq<Group>, registry: Registry, registry': Registry, nextAnim: AnimId,
                           g: GroupId, failing: set<AnimId>, x: Group)
    requires RoutesOk(valueCount, groups, registry, nextAnim) && g < |groups| && groups[g].value < valueCount
    requires Disconnected(registry, registry', g, groups[g].value, groups[g].targets, failing)
    requires x.value == groups[g].value && x.targets == groups[g].targets && x.pending == {}
    ensures RoutesOk(valueCount, groups[g := x], registry', nextAnim)
  {
    var groups' := groups[g := x];
    assert PendingOk(groups, registry, nextAnim, g);
    forall a | a in registry' ensures RouteOk(valueCount, groups', registry', a) {
      assert RouteOk(valueCount, groups, registry, a);
    }
    forall h: GroupId | h < |groups'| ensures PendingOk(groups', registry', nextAnim, h) {
      assert PendingOk(groups, registry, nextAnim, h);
    }
  }

  /** A group whose driver `a` reported the end of its run. */
  function Reported(x: Group, a: AnimId, finished: bool): Group {
    x.(pending := x.pending - {a}, allFinished := x.allFinished && finished)
  }

  lemma ReportedRoutes(valueCount: nat, groups: seq<Group>, registry: Registry, nextAnim: AnimId, a: AnimId, finished: bool)
    requires RoutesOk(valueCount, groups, registry, nextAnim) && a in registry && registry[a].ToGroup?
    ensures var g := registry[a].group;
            g < |groups| && RoutesOk(valueCount, groups[g := Reported(groups[g], a, finished)], registry - {a}, nextAnim)
  {
    assert RouteOk(valueCount, groups, registry, a);
    var g := registry[a].group;
    var groups' := groups[g := Reported(groups[g], a, finished)];
    forall b | b in registry - {a} ensures RouteOk(valueCount, groups', registry - {a}, b) {
      assert RouteOk(valueCount, groups, registry, b);
    }
    forall h: GroupId | h < |groups'| ensures PendingOk(groups', registry - {a}, nextAnim, h) {
      assert PendingOk(groups, registry, nextAnim, h);
    }
  }

  /** A group after a cancellation. */
  function Dropped(x: Group): Group {
    if x.result.None? then Ended(x, false).(pending := {}) else x.(pending := {})
  }

  lemma CancelledOwners(cells: seq<Cell>, groups: seq<Group>, g: GroupId, x: Group)
    requires g < |groups| && OwnersOk(cells, groups, if groups[g].result.None? then Some(g) else None)
    requires x.value == groups[g].value && x.result.Some?
    ensures OwnersOk(cells, groups[g := x], None)
  {
    var groups' := groups[g := x];
    forall h: GroupId | h < |groups'| ensures OwnerOk(cells, groups', h) {
      assert h != g || groups[g].result.Some? ==> OwnerOk(cells, groups, h);
    }
  }

  /** Edits that leave a group's waiters and result as they are. */
  lemma SameWaits(groups: seq<Group>, waits: seq<GroupId>, told: seq<seq<bool>>, g: GroupId, x: Group)
    requires WaitsOk(groups, waits, told) && g < |groups|
    requires x.waiters == groups[g].waiters && x.result == groups[g].result
    ensures WaitsOk(groups[g := x], waits, told)
  {
    var groups' := groups[g := x];
    forall w: WaiterId | w < |waits| ensures ToldOk(groups', waits[w], told[w]) {
      assert ToldOk(groups, waits[w], told[w]);
    }
    forall h: GroupId | h < |groups'| ensures WaitersOk(groups', waits, h) {
      assert WaitersOk(groups, waits, h);
    }
  }

  class Animations {
    var cells: seq<Cell>
    var groups: seq<Group>
    var registry: Registry
    var nextAnim: AnimId
    var told: seq<seq<bool>>        // by waiter: every result it was given, in order
    ghost var waits: seq<GroupId>   // by waiter: the group it waits for
    ghost var since: seq<nat>       // by group: how long the log was when it started
    ghost var log: seq<Event>

    ghost predicate Valid()
      reads this
    {
      && OwnersOk(cells, groups, None) && RoutesOk(|cells|, groups, registry, nextAnim)
      && WaitsOk(groups, waits, told) && AllJudged(groups, since, log)
    }

    constructor ()
      ensures Valid() && cells == [] && groups == [] && log == []
    {
      cells, groups, registry, nextAnim, told, waits, since, log := [], [], map[], 0, [], [], [], [];
    }

    method Settle(g: GroupId, end: Option<real>, finished: bool)
      requires g < |groups| && groups[g].value < |cells| && WaitsOk(groups, waits, told)
      modifies `cells, `groups, `told
      ensures WaitsOk(groups, waits, told)
      ensures old(groups)[g].result.Some? ==> groups == old(groups) && cells == old(cells) && told == old(told)
      ensures old(groups)[g].result.None? ==> groups == old(groups)[g := Ended(old(groups)[g], finished)]
      ensures old(groups)[g].result.None? ==>
                cells == old(cells)[groups[g].value := Landed(old(cells)[groups[g].value], g, end)]
      ensures old(groups)[g].result.None? ==>
                var v := groups[g].value;
                && cells[v].current == (if end.Some? then end.value else old(cells)[v].current)
                && (old(cells)[v].owner == Some(g) ==> cells[v].owner == None)
    {
      if groups[g].result.Some? { return; }
      ghost var was := groups;
      var v, waiting := groups[g].value, groups[g].waiters;
      groups := groups[g := Ended(groups[g], finished)];
      cells := cells[v := Landed(cells[v], g, end)];
      assert WaitersOk(was, waits, g);
      for i := 0 to |waiting|
        modifies `told
        invariant |told| == |old(told)|
        invariant forall w: WaiterId :: w < |told| ==> told[w] == if w in waiting[..i] then old(told)[w] + [finished] else old(told)[w]
      {
        var w := waiting[i];
        assert w in was[g].waiters;
        assert waiting[..i + 1] == waiting[..i] + [w];
        told := told[w := told[w] + [finished]];
      }
      assert waiting[..|waiting|] == waiting;
      SettleTells(was, waits, old(told), g, finished, told);
    }

    /** Tells every driver of a group to stop; the ones whose core raises are forgotten. */
    method Disconnect(g: GroupId, failing: set<AnimId>)
      requires g < |groups|
      modifies `registry
      ensures Disconnected(old(registry), registry, g, groups[g].value, groups[g].targets, failing)
    {
      var targets := groups[g].targets;
      for i := 0 to |targets|
        invariant Disconnected(old(registry), registry, g, groups[g].value, targets[..i], failing)
      {
        var a := targets[i];
        assert targets[..i + 1] == targets[..i] + [a];
        if a in registry && registry[a] == ToGroup(g) {
          registry := registry[a := Stopped(groups[g].value)];
        }
        if a in failing {
          registry := registry - {a};
        }
      }
      assert targets[..|targets|] == targets;
    }

    /** Cancels a group its value no longer belongs to; a settled one stays as it ended. */
    method Cancel(g: GroupId, failing: set<AnimId>)
      requires g < |groups| && OwnersOk(cells, groups, if groups[g].result.None? then Some(g) else None)
      requires RoutesOk(|cells|, groups, registry, nextAnim) && WaitsOk(groups, waits, told) && AllJudged(groups, since, log)
      modifies `cells, `groups, `registry, `told, `log
      ensures Valid() && cells == old(cells) && log == old(log) + [CancelCall(g)]
      ensures old(groups)[g].result.Some? ==> groups == old(groups) && told == old(told)
      ensures old(groups)[g].result.None? ==> groups == old(groups)[g := Ended(old(groups)[g], false).(pending := {})]
      ensures Disconnected(old(registry), registry, g, groups[g].value, groups[g].targets, failing)
    {
      ghost var x := Dropped(groups[g]);
      assert groups[g].value < |cells| by { assert groups[g].result.Some? ==> OwnerOk(cells, groups, g); }
      assert PendingOk(groups, registry, nextAnim, g);
      CancelledOwners(cells, groups, g, x);
      GroupMoved(groups, since, log, registry, nextAnim, CancelCall(g), g, x);
      Disconnect(g, failing);
      DisconnectedRoutes(|cells|, groups, old(registry), registry, nextAnim, g, failing, x);
      Drop(g);
      log := log + [CancelCall(g)];
    }

    /** A group that nobody waits for any more ends where it is. */
    method Drop(g: GroupId)
      requires g < |groups| && groups[g].value < |cells| && WaitsOk(groups, waits, told)
      requires groups[g].result.None? ==> cells[groups[g].value].owner != Some(g)
      modifies `cells, `groups, `told
      ensures cells == old(cells) && groups == old(groups)[g := Dropped(old(groups)[g])] && WaitsOk(groups, waits, told)
      ensures old(groups)[g].result.Some? ==> told == old(told)
    {
      SameWaits(groups, waits, told, g, groups[g].(pending := {}));
      groups := groups[g := groups[g].(pending := {})];
      Settle(g, None, false);
    }

    method NewValue(x: real) returns (v: ValueId)
      requires Valid()
      modifies `cells
      ensures Valid() && v == |old(cells)| && cells == old(cells) + [Cell(x, None)]
    {
      v := |cells|;
      assert forall g: GroupId :: g < |groups| ==> OwnerOk(cells, groups, g);
      assert forall a <- registry :: RouteOk(|cells|, groups, registry, a);
      cells := cells + [Cell(x, None)];
    }

    /** Gives a value to a group, or to nobody, and cancels the group it belonged to. */
    method Adopt(v: ValueId, group: Option<GroupId>, failing: set<AnimId>)
      requires v < |cells| && OwnersOk(cells, groups, group) && (group.Some? ==> groups[group.value].value == v)
      requires RoutesOk(|cells|, groups, registry, nextAnim) && WaitsOk(groups, waits, told) && AllJudged(groups, since, log)
      modifies `cells, `groups, `registry, `told, `log
      ensures Valid() && cells == old(cells)[v := old(cells)[v].(owner := group)]
      ensures old(cells)[v].owner.None? ==> groups == old(groups) && log == old(log) && registry == old(registry)
      ensures old(cells)[v].owner.Some? ==> GroupCancelled(old(groups), groups, old(cells)[v].owner.value)
      ensures old(cells)[v].owner.Some? ==> log == old(log) + [CancelCall(old(cells)[v].owner.value)]
      ensures old(cells)[v].owner.Some? ==>
                Disconnected(old(registry), registry, old(cells)[v].owner.value, v, groups[old(cells)[v].owner.value].targets, failing)
    {
      var previous := cells[v].owner;
      Changeover(cells, groups, v, group);
      cells := cells[v := cells[v].(owner := group)];
      if previous.Some? {
        Cancel(previous.value, failing);
      }
    }

    method StopAnimation(v: ValueId, failing: set<AnimId>)
      requires Valid() && v < |cells|
      modifies `cells, `groups, `registry, `told, `log
      ensures Valid() && cells == old(cells)[v := Cell(old(cells)[v].current, None)]
      ensures forall g: GroupId :: g < |groups| && groups[g].value == v ==> groups[g].result.Some?
    {
      Adopt(v, None, failing);
      OthersSettled(cells, groups, v);
    }

    /** Starts a driver in the core for every target; when it refuses one, none of them is left behind. */
    method StartNative(count: nat, refused: Option<nat>) returns (targets: seq<AnimId>, ok: bool)
      requires forall a <- registry :: a < nextAnim
      modifies `registry, `nextAnim
      ensures ok <==> !(refused.Some? && refused.value < count)
      ensures !ok ==> registry == old(registry) && nextAnim >= old(nextAnim)
      ensures ok ==> |targets| == count && forall a :: a in targets ==> old(nextAnim) <= a < nextAnim
      ensures ok ==> nextAnim >= old(nextAnim) && forall a :: a in registry <==> a in old(registry) || a in targets
      ensures ok ==> forall a <- registry :: registry[a] == if a in old(registry) then old(registry)[a] else ToGroup(|groups|)
    {
      targets, ok := [], true;
      for i := 0 to count
        invariant |targets| == i && nextAnim >= old(nextAnim) && ok && !(refused.Some? && refused.value < i)
        invariant forall a :: a in targets ==> old(nextAnim) <= a < nextAnim
        invariant forall a :: a in registry <==> a in old(registry) || a in targets
        invariant forall a <- registry :: registry[a] == if a in old(registry) then old(registry)[a] else ToGroup(|groups|)
      {
        var a := nextAnim;
        nextAnim := nextAnim + 1;
        registry := registry[a := ToGroup(|groups|)];
        if refused == Some(i) {
          registry := registry - (set b | b in targets) - {a};
          targets, ok := [], false;
          return;
        }
        targets := targets + [a];
      }
    }

    /** Starts an animation on a value: its new group owns it, and the one that did is cancelled. */
    method Start(v: ValueId, finalValue: real, count: nat, refused: Option<nat>, failing: set<AnimId>) returns (g: GroupId, ok: bool)
      requires Valid() && v < |cells| && count > 0
      modifies this
      ensures Valid() && ok == !(refused.Some? && refused.value < count)
      ensures !ok ==> cells == old(cells) && groups == old(groups) && registry == old(registry) && told == old(told) && log == old(log)
      ensures ok ==> g == |old(groups)| && |groups| == g + 1 && cells == old(cells)[v := old(cells)[v].(owner := Some(g))]
      ensures ok ==> groups[g].value == v && groups[g].finalValue == finalValue && |groups[g].targets| == count
      ensures ok ==> groups[g].result.None? && SettledStay(old(groups), groups)
      ensures ok ==> forall h: GroupId :: h < g && groups[h].value == v ==> groups[h].result.Some?
      ensures ok ==> forall h: GroupId :: h < g && old(cells)[v].owner != Some(h) ==> groups[h] == old(groups)[h]
      ensures ok ==> log == old(log) + if old(cells)[v].owner.Some? then [CancelCall(old(cells)[v].owner.value)] else []
    {
      var targets;
      targets, ok := StartNative(count, refused);
      g := |groups|;
      if ok {
        StartedFits(cells, groups, v, finalValue, targets);
        StartedRoutes(|cells|, groups, old(registry), registry, old(nextAnim), nextAnim, v, finalValue, targets);
        StartedWaits(groups, waits, told, since, log, v, finalValue, targets);
        groups := groups + [Started(v, finalValue, targets)];
        since := since + [|log|];
        Adopt(v, Some(g), failing);
        OthersSettled(cells, groups, v);
      } else {
        RoutesLater(|cells|, groups, registry, old(nextAnim), nextAnim);
      }
    }

    /** Stops one animation: its value is released first, if it still owns it. */
    method StopGroup(g: GroupId, failing: set<AnimId>)
      requires Valid() && g < |groups|
      modifies `cells, `groups, `registry, `told, `log
      ensures Valid() && groups[g].result.Some? && |groups| == |old(groups)| && SettledStay(old(groups), groups)
      ensures |cells| == |old(cells)| && forall v: ValueId :: v < |cells| ==>
                cells[v].current == old(cells)[v].current &&
                cells[v].owner == (if old(cells)[v].owner == Some(g) then None else old(cells)[v].owner)
      ensures forall h: GroupId :: h < |groups| && h != g ==> groups[h] == old(groups)[h]
      ensures log == old(log) + [CancelCall(g)]
      ensures Disconnected(old(registry), registry, g, groups[g].value, groups[g].targets, failing)
    {
      var v := groups[g].value;
      assert OwnerOk(cells, groups, g);
      if cells[v].owner == Some(g) {
        assert forall h: GroupId :: h < |groups| ==> OwnerOk(cells, groups, h);
        cells := cells[v := cells[v].(owner := None)];
      }
      Cancel(g, failing);
    }

    /** A running driver reported its end; the last one to do so settles the group. */
    method TargetCompleted(a: AnimId, g: GroupId, finished: bool, value: Option<real>)
      requires Valid() && a in registry && registry[a] == ToGroup(g)
      modifies `cells, `groups, `registry, `told, `log
      ensures Valid() && log == old(log) + [Completion(a, finished)] && registry == old(registry) - {a}
      ensures g < |old(groups)| && groups == old(groups)[g := AfterReport(old(groups)[g], a, finished)]
      ensures old(groups)[g].result.None? && a in groups[g].targets && |cells| == |old(cells)|
      ensures groups[g].result.Some? ==>
                var v := groups[g].value;
                v < |cells| && cells[v].current == if groups[g].result == Some(true) then groups[g].finalValue
                                                   else if value.Some? then value.value else old(cells)[v].current
      ensures SettledLand(old(cells), cells, old(groups), groups, value)
      ensures cells == CellsAfter(old(cells), groups[g], g, value)
      ensures Lands(old(cells), cells, groups[g], value)
      ensures g < |since| && since[g] <= |log| && Settles(groups[g], log[since[g]..])
    {
      CompletionSettles(cells, groups, registry, nextAnim, since, log, a, finished, value);
      CompletionFits(cells, groups, registry, nextAnim, since, log, a, finished, value);
      var x := Reported(groups[g], a, finished);
      SameWaits(groups, waits, told, g, x);
      groups := groups[g := x];
      registry := registry - {a};
      if x.pending == {} {
        Settle(g, if x.allFinished then Some(x.finalValue) else value, x.allFinished);
      }
      assert groups == old(groups)[g := AfterReport(old(groups)[g], a, finished)];
      log := log + [Completion(a, finished)];
    }

    /**
     * Routes a message of the core: a completion when it says whether the driver finished, a frame
     * report otherwise. A value owned by a group only moves for messages of that group's own
     * drivers; an unknown driver's message, or a repeated completion, changes nothing.
     */
    method Message(a: AnimId, finished: Option<bool>, value: Option<real>)
      requires Valid()
      modifies `cells, `groups, `registry, `told, `log
      ensures Valid() && SettledStay(old(groups), groups) && |groups| == |old(groups)| && |cells| == |old(cells)|
      ensures log == old(log) + if finished.Some? then [Completion(a, finished.value)] else []
      ensures OwnedUnmoved(old(cells), cells, groups, a)
      ensures a in old(registry) ==>
                MessageHandled(old(cells), old(groups), old(registry), cells, groups, registry, a, finished, value)
      ensures a !in old(registry) ==> cells == old(cells) && groups == old(groups) && told == old(told) && registry == old(registry)
      ensures finished.Some? ==> a !in registry
      ensures SettledLand(old(cells), cells, old(groups), groups, value)
    {
      if a in registry {
        assert RouteOk(|cells|, groups, registry, a);
        if finished.Some? {
          match registry[a] {
            case ToGroup(g) =>
              OwnedElsewhere(cells, groups, g);
              TargetCompleted(a, g, finished.value, value);
            case Stopped(v) =>
              StoppedCompleted(a, v, finished.value, value);
          }
        } else if value.Some? {
          Report(a, value.value);
        }
      } else if finished.Some? {
        CompletionIgnored(groups, since, log, registry, nextAnim, Completion(a, finished.value));
        log := log + [Completion(a, finished.value)];
      }
    }

    /** A cancelled driver ended: its last value counts only while nobody else owns the value. */
    method StoppedCompleted(a: AnimId, v: ValueId, finished: bool, value: Option<real>)
      requires Valid() && a in registry && registry[a] == Stopped(v) && v < |cells|
      modifies `cells, `registry, `log
      ensures Valid() && registry == old(registry) - {a} && log == old(log) + [Completion(a, finished)]
      ensures cells == if value.Some? && old(cells)[v].owner.None?
                       then old(cells)[v := Cell(value.value, None)] else old(cells)
    {
      CompletionIgnored(groups, since, log, registry, nextAnim, Completion(a, finished));
      DroppedRoute(|cells|, groups, registry, nextAnim, a);
      registry := registry - {a};
      log := log + [Completion(a, finished)];
      if value.Some? && cells[v].owner.None? {
        SetValue(v, value.value);
      }
    }

    /** A frame report moves the value of the group that owns it. */
    method Report(a: AnimId, value: real)
      requires Valid() && a in registry
      modifies `cells
      ensures Valid() && |cells| == |old(cells)|
      ensures registry[a].Stopped? ==> cells == old(cells)
      ensures registry[a].ToGroup? ==> registry[a].group < |groups| && a in groups[registry[a].group].targets
      ensures forall v: ValueId :: v < |cells| ==> cells[v] == Reporting(old(cells)[v], registry[a], value)
      ensures registry[a].ToGroup? ==>
                var v := groups[registry[a].group].value;
                v < |cells| && cells == old(cells)[v := Cell(value, Some(registry[a].group))]
    {
      assert RouteOk(|cells|, groups, registry, a);
      if registry[a].ToGroup? {
        var g := registry[a].group;
        var v := groups[g].value;
        assert OwnerOk(cells, groups, g) && PendingOk(groups, registry, nextAnim, g);
        if groups[g].result.None? && cells[v].owner == Some(g) {
          SetValue(v, value);
        }
      }
    }

    /** Moving a value leaves its animation running. */
    method SetValue(v: ValueId, value: real)
      requires Valid() && v < |cells|
      modifies `cells
      ensures Valid() && cells == old(cells)[v := Cell(value, old(cells)[v].owner)]
    {
      assert forall g: GroupId :: g < |groups| ==> OwnerOk(cells, groups, g);
      cells := cells[v := Cell(value, cells[v].owner)];
    }

    /** A future or callback joins: told at once when the group is settled, and otherwise when it settles. */
    method AddWaiter(g: GroupId) returns (w: WaiterId)
      requires Valid() && g < |groups|
      modifies `groups, `told, `waits
      ensures Valid() && w == |old(told)| && waits == old(waits) + [g]
      ensures told == old(told) + [if old(groups)[g].result.None? then [] else [old(groups)[g].result.value]]
      ensures |groups| == |old(groups)| && forall h: GroupId :: h < |groups| ==> groups[h].result == old(groups)[h].result
    {
      w := |told|;
      var done := groups[g].result;
      var x := if done.None? then groups[g].(waiters := groups[g].waiters + [w]) else groups[g];
      WaiterJoins(groups, waits, told, g);
      assert forall h: GroupId :: h < |groups| ==> OwnerOk(cells, groups, h);
      SameRoutes(|cells|, groups, registry, nextAnim, g, x);
      assert forall h: GroupId :: h < |groups| ==> JudgedOk(groups[h], h, since[h], log);
      groups := groups[g := x];
      waits := waits + [g];
      told := told + [if done.None? then [] else [done.value]];
    }
  }

  /** Settling a group that has no driver left leaves the routes as they are. */
  lemma SettledRoutes(valueCount: nat, groups: seq<Group>, registry: Registry, nextAnim: AnimId, g: GroupId, finished: bool)
    requires RoutesOk(valueCount, groups, registry, nextAnim) && g < |groups| && groups[g].pending == {}
    ensures RoutesOk(valueCount, groups[g := Ended(groups[g], finished)], registry, nextAnim)
  {
    var groups' := groups[g := Ended(groups[g], finished)];
    forall b | b in registry ensures RouteOk(valueCount, groups', registry, b) {
      assert RouteOk(valueCount, groups, registry, b);
    }
    forall h: GroupId | h < |groups'| ensures PendingOk(groups', registry, nextAnim, h) {
      assert PendingOk(groups, registry, nextAnim, h);
    }
  }

  /** A settled group's value is free. */
  lemma SettledOwners(cells: seq<Cell>, groups: seq<Group>, g: GroupId, x: Group, c: Cell)
    requires OwnersOk(cells, groups, None) && g < |groups| && groups[g].result.None?
    requires x.value == groups[g].value && x.result.Some? && c.owner.None?
    ensures groups[g].value < |cells| && OwnersOk(cells[groups[g].value := c], groups[g := x], None)
  {
    assert OwnerOk(cells, groups, g);
    var cells', groups' := cells[groups[g].value := c], groups[g := x];
    forall h: GroupId | h < |groups'| ensures OwnerOk(cells', groups', h) {
      assert OwnerOk(cells, groups, h);
    }
  }

  /** A group after a driver's completion. */
  function AfterReport(x: Group, a: AnimId, finished: bool): Group {
    var r := Reported(x, a, finished);
    if r.pending == {} then Ended(r, r.allFinished) else r
  }

  /** The values after a report left group `g` as `x`: a settled group's value lands at the projected
      end when all drivers finished, and otherwise where the core stopped it. */
  function CellsAfter(cells: seq<Cell>, x: Group, g: GroupId, value: Option<real>): seq<Cell> {
    if x.result.None? || x.value >= |cells| then cells
    else cells[x.value := Landed(cells[x.value], g, if x.result.value then Some(x.finalValue) else value)]
  }

  lemma CompletionFits(cells: seq<Cell>, groups: seq<Group>, registry: Registry, nextAnim: AnimId, since: seq<nat>, log: seq<Event>,
                       a: AnimId, finished: bool, value: Option<real>)
    requires OwnersOk(cells, groups, None) && RoutesOk(|cells|, groups, registry, nextAnim) && AllJudged(groups, since, log)
    requires a in registry && registry[a].ToGroup?
    ensures var g := registry[a].group;
            && g < |groups| && groups[g].result.None? && groups[g].value < |cells| && a in groups[g].targets
            && var x := AfterReport(groups[g], a, finished);
               && OwnersOk(CellsAfter(cells, x, g, value), groups[g := x], None)
               && RoutesOk(|cells|, groups[g := x], registry - {a}, nextAnim)
               && AllJudged(groups[g := x], since, log + [Completion(a, finished)])
  {
    var g := registry[a].group;
    assert RouteOk(|cells|, groups, registry, a) && PendingOk(groups, registry, nextAnim, g) && OwnerOk(cells, groups, g);
    ReportedRoutes(|cells|, groups, registry, nextAnim, a, finished);
    var r, x := Reported(groups[g], a, finished), AfterReport(groups[g], a, finished);
    GroupMoved(groups, since, log, registry, nextAnim, Completion(a, finished), g, x);
    assert groups[g := r][g := x] == groups[g := x];
    if r.pending == {} {
      SettledRoutes(|cells|, groups[g := r], registry - {a}, nextAnim, g, r.allFinished);
      SettledOwners(cells, groups, g, x, Landed(cells[x.value], g, if x.allFinished then Some(x.finalValue) else value));
    } else {
      var groups' := groups[g := x];
      forall h: GroupId | h < |groups'| ensures OwnerOk(cells, groups', h) {
        assert OwnerOk(cells, groups, h);
      }
    }
  }

  /** A group that has just settled leaves its value at its final value when it finished, and otherwise at the number
      reported, or where it was when there is none. */
  ghost predicate SettledLand(cells: seq<Cell>, cells': seq<Cell>, groups: seq<Group>, groups': seq<Group>, value: Option<real>) {
    |groups'| == |groups| && |cells'| == |cells| &&
    forall g: GroupId :: g < |groups| && groups[g].result.None? && groups'[g].result.Some? ==>
      var v := groups'[g].value;
      v < |cells| && cells'[v].current == if groups'[g].result == Some(true) then groups'[g].finalValue
                                          else if value.Some? then value.value else cells[v].current
  }

  ghost predicate Settles(x: Group, events: seq<Event>) {
    && (x.result.Some? <==> AllReported(x.targets, events))
    && (x.result == Some(true) <==> AllFinished(x.targets, events))
  }

  /** A finished group's value is at the projected end, one that ended otherwise where the core stopped it, if it says;
      either way it is free. Nothing else moves. */
  ghost predicate Lands(cells: seq<Cell>, cells': seq<Cell>, x: Group, value: Option<real>) {
    && |cells'| == |cells| && x.value < |cells|
    && (forall v: ValueId :: v < |cells| && v != x.value ==> cells'[v] == cells[v])
    && (x.result == None ==> cells'[x.value] == cells[x.value])
    && (x.result == Some(true) ==> cells'[x.value] == Cell(x.finalValue, None))
    && (x.result == Some(false) ==> cells'[x.value] == Cell(if value.Some? then value.value else cells[x.value].current, None))
  }

  /** A completion settles its group when it is the last one missing, as finished when all drivers finished. */
  lemma CompletionSettles(cells: seq<Cell>, groups: seq<Group>, registry: Registry, nextAnim: AnimId, since: seq<nat>,
                          log: seq<Event>, a: AnimId, finished: bool, value: Option<real>)
    requires OwnersOk(cells, groups, None) && RoutesOk(|cells|, groups, registry, nextAnim) && AllJudged(groups, since, log)
    requires a in registry && registry[a].ToGroup?
    ensures var g := registry[a].group;
            && g < |groups| && g < |since| && since[g] <= |log|
            && var x := AfterReport(groups[g], a, finished);
               Settles(x, (log + [Completion(a, finished)])[since[g]..]) && Lands(cells, CellsAfter(cells, x, g, value), x, value)
  {
    var g := registry[a].group;
    assert RouteOk(|cells|, groups, registry, a) && OwnerOk(cells, groups, g);
    CompletionVerdict(groups, registry, nextAnim, since, log, a, g, finished);
  }

  lemma CompletionVerdict(groups: seq<Group>, registry: Registry, nextAnim: AnimId, since: seq<nat>, log: seq<Event>,
                          a: AnimId, g: GroupId, finished: bool)
    requires g < |groups| && PendingOk(groups, registry, nextAnim, g) && AllJudged(groups, since, log)
    requires groups[g].result.None? && a in groups[g].pending
    ensures since[g] <= |log| && Settles(AfterReport(groups[g], a, finished), (log + [Completion(a, finished)])[since[g]..])
  {
    var e := Completion(a, finished);
    assert JudgedOk(groups[g], g, since[g], log) && PendingOk(groups, registry, nextAnim, g);
    JudgeExtends(g, groups[g].targets, since[g], log, e);
    assert (log + [e])[since[g]..] == log[since[g]..] + [e];
    SettledBy(g, groups[g].targets, log[since[g]..], e);
  }

  lemma SettledBy(g: GroupId, targets: seq<AnimId>, before: seq<Event>, e: Event)
    requires targets != [] && Judge(g, targets, before).result.None? && e.Completion?
    ensures var r := JudgeStep(g, Judge(g, targets, before), e).result;
            (r.Some? <==> AllReported(targets, before + [e])) && (r == Some(true) <==> AllFinished(targets, before + [e]))
  {
    assert (before + [e])[..|before|] == before;
    JudgeRunning(g, targets, before);
    UnsettledMeans(g, targets, before + [e]);
    if JudgeStep(g, Judge(g, targets, before), e).result.Some? { LastReport(g, targets, before, e); }
    if AllFinished(targets, before + [e]) { FinishedByThen(g, targets, before + [e]); }
  }

  /** A value whose current owner gets a frame report. */
  function Reporting(c: Cell, route: Route, value: real): Cell {
    if route.ToGroup? && c.owner == Some(route.group) then Cell(value, c.owner) else c
  }

  /** What a message about a known driver does: a completion goes to the driver's group or to what is left of
      it, and a report moves the value its group owns. */
  ghost predicate MessageHandled(cells: seq<Cell>, groups: seq<Group>, registry: Registry,
                                 cells': seq<Cell>, groups': seq<Group>, registry': Registry,
                                 a: AnimId, finished: Option<bool>, value: Option<real>)
    requires a in registry
  {
    match registry[a]
    case ToGroup(g) =>
      g < |groups| &&
      (if finished.Some? then
         registry' == registry - {a} && groups' == groups[g := AfterReport(groups[g], a, finished.value)] &&
         cells' == CellsAfter(cells, groups'[g], g, value)
       else registry' == registry && groups' == groups && AllReporting(cells, cells', registry[a], value))
    case Stopped(v) =>
      v < |cells| && groups' == groups && registry' == (if finished.Some? then registry - {a} else registry) &&
      cells' == if finished.Some? && value.Some? && cells[v].owner.None? then cells[v := Cell(value.value, None)] else cells
  }

  /** A message of a group that has ended moves a value in one case only: a cancelled driver's first completion
      carries a number, and nobody owns the value any more, be it that a newer group came and went. */
  lemma SupersededMoves(cells: seq<Cell>, groups: seq<Group>, registry: Registry, nextAnim: AnimId,
                        cells': seq<Cell>, groups': seq<Group>, registry': Registry,
                        a: AnimId, g: GroupId, finished: Option<bool>, value: Option<real>)
    requires OwnersOk(cells, groups, None) && RoutesOk(|cells|, groups, registry, nextAnim)
    requires g < |groups| && groups[g].result.Some? && a in groups[g].targets
    requires if a in registry then MessageHandled(cells, groups, registry, cells', groups', registry', a, finished, value)
             else cells' == cells
    ensures groups[g].value < |cells|
    ensures var v := groups[g].value;
            cells' == if a in registry && finished.Some? && value.Some? && cells[v].owner.None?
                      then cells[v := Cell(value.value, None)] else cells
  {
    assert OwnerOk(cells, groups, g) && PendingOk(groups, registry, nextAnim, g);
    if a in registry { assert RouteOk(|cells|, groups, registry, a); }
  }

  ghost predicate AllReporting(cells: seq<Cell>, cells': seq<Cell>, route: Route, value: Option<real>) {
    |cells'| == |cells| && forall v: ValueId :: v < |cells| ==>
      cells'[v] == if value.Some? then Reporting(cells[v], route, value.value) else cells[v]
  }

  /** The values owned by groups that have no driver `a` are as before. */
  ghost predicate OwnedUnmoved(cells: seq<Cell>, cells': seq<Cell>, groups: seq<Group>, a: AnimId) {
    |cells| == |cells'| && forall v: ValueId :: v < |cells| && cells[v].owner.Some? ==>
      cells[v].owner.value < |groups| && (a in groups[cells[v].owner.value].targets || cells'[v] == cells[v])
  }

  /** A value that another group owns is not this group's. */
  lemma OwnedElsewhere(cells: seq<Cell>, groups: seq<Group>, g: GroupId)
    requires OwnersOk(cells, groups, None) && g < |groups|
    ensures groups[g].value < |cells|
    ensures forall v: ValueId :: v < |cells| && v != groups[g].value ==> cells[v].owner != Some(g)
    ensures groups[g].result.None? ==> cells[groups[g].value].owner == Some(g)
  {
    assert OwnerOk(cells, groups, g);
  }

  lemma DroppedRoute(valueCount: nat, groups: seq<Group>, registry: Registry, nextAnim: AnimId, a: AnimId)
    requires RoutesOk(valueCount, groups, registry, nextAnim) && a in registry && registry[a].Stopped?
    ensures RoutesOk(valueCount, groups, registry - {a}, nextAnim)
  {
    forall b | b in registry - {a} ensures RouteOk(valueCount, groups, registry - {a}, b) {
      assert RouteOk(valueCount, groups, registry, b);
    }
    forall h: GroupId | h < |groups| ensures PendingOk(groups, registry - {a}, nextAnim, h) {
      assert PendingOk(groups, registry, nextAnim, h);
    }
  }

  lemma SameRoutes(valueCount: nat, groups: seq<Group>, registry: Registry, nextAnim: AnimId, g: GroupId, x: Group)
    requires RoutesOk(valueCount, groups, registry, nextAnim) && g < |groups|
    requires x.(waiters := groups[g].waiters) == groups[g]
    ensures RoutesOk(valueCount, groups[g := x], registry, nextAnim)
  {
    var groups' := groups[g := x];
    forall b | b in registry ensures RouteOk(valueCount, groups', registry, b) {
      assert RouteOk(valueCount, groups, registry, b);
    }
    forall h: GroupId | h < |groups'| ensures PendingOk(groups', registry, nextAnim, h) {
      assert PendingOk(groups, registry, nextAnim, h);
    }
  }

  lemma WaiterJoins(groups: seq<Group>, waits: seq<GroupId>, told: seq<seq<bool>>, g: GroupId)
    requires WaitsOk(groups, waits, told) && g < |groups|
    ensures var x := groups[g];
            var told' := told + [if x.result.None? then [] else [x.result.value]];
            WaitsOk(groups[g := if x.result.None? then x.(waiters := x.waiters + [|told|]) else x], waits + [g], told')
  {
    var x := groups[g];
    var groups' := groups[g := if x.result.None? then x.(waiters := x.waiters + [|told|]) else x];
    var told' := told + [if x.result.None? then [] else [x.result.value]];
    forall w: WaiterId | w < |told'| ensures ToldOk(groups', (waits + [g])[w], told'[w]) {
      if w < |told| { assert ToldOk(groups, waits[w], told[w]); }
    }
    forall h: GroupId | h < |groups'| ensures WaitersOk(groups', waits + [g], h) {
      assert WaitersOk(groups, waits, h);
      assert forall i :: 0 <= i < |groups[h].waiters| ==> groups[h].waiters[i] in groups[h].waiters;
    }
  }

  /** A reusable handle: each start is a fresh run, and stops the one before. */
  class AnimationHandle {
    const core: Animations
    const value: ValueId
    var group: Option<GroupId>

    ghost predicate Valid()
      reads this, core
    {
      core.Valid() && value < |core.cells| &&
      (group.Some? ==> group.value < |core.groups| && core.groups[group.value].value == value)
    }

    constructor (core: Animations, value: ValueId)
      requires core.Valid() && value < |core.cells|
      ensures Valid() && this.core == core && this.value == value && group == None
    {
      this.core, this.value, group := core, value, None;
    }

    method Stop(failing: set<AnimId>)
      requires Valid()
      modifies this, core`cells, core`groups, core`registry, core`told, core`log
      ensures Valid() && group == None && SettledStay(old(core.groups), core.groups)
      ensures old(group).Some? ==> core.groups[old(group).value].result.Some?
      ensures |core.groups| == |old(core.groups)| && |core.cells| == |old(core.cells)|
      ensures forall h: GroupId :: h < |core.groups| && old(group) != Some(h) ==> core.groups[h] == old(core.groups)[h]
      ensures forall v: ValueId :: v < |core.cells| ==>
                core.cells[v].current == old(core.cells)[v].current &&
                core.cells[v].owner == (if old(group).Some? && old(core.cells)[v].owner == old(group) then None
                                        else old(core.cells)[v].owner)
      ensures core.log == old(core.log) + if old(group).Some? then [CancelCall(old(group).value)] else []
    {
      if group.Some? {
        var g := group.value;
        group := None;
        core.StopGroup(g, failing);
      }
    }

    /** Afterwards the new run owns the value and every other run on it has ended; or the core refused, and this handle runs nothing. */
    method Start(finalValue: real, count: nat, refused: Option<nat>, failing: set<AnimId>) returns (ok: bool)
      requires Valid() && count > 0
      modifies this, core
      ensures Valid() && ok == !(refused.Some? && refused.value < count) && ok == group.Some?
      ensures ok ==> group.value >= |old(core.groups)| && core.cells[value].owner == group
      ensures ok ==> forall h: GroupId :: h < |core.groups| && core.groups[h].value == value ==>
                (core.groups[h].result.None? <==> h == group.value)
      ensures ok ==> core.groups[group.value].finalValue == finalValue && |core.groups[group.value].targets| == count
      ensures |core.cells| == |old(core.cells)|
      ensures forall v: ValueId :: v < |core.cells| ==> core.cells[v].current == old(core.cells)[v].current
      ensures SettledStay(old(core.groups), core.groups)
      ensures old(group).Some? ==> core.groups[old(group).value].result.Some?
    {
      Stop(failing);
      var g;
      g, ok := core.Start(value, finalValue, count, refused, failing);
      if ok {
        group := Some(g);
      }
    }
  }

  function Started(v: ValueId, finalValue: real, targets: seq<AnimId>): Group {
    Group(v, finalValue, targets, set a | a in targets, true, [], None)
  }

  /** Settled groups keep their results. */
  ghost predicate SettledStay(groups: seq<Group>, groups': seq<Group>) {
    |groups| <= |groups'| && forall g: GroupId :: g < |groups| && groups[g].result.Some? ==> groups'[g].result == groups[g].result
  }

  ghost predicate GroupCancelled(groups: seq<Group>, groups': seq<Group>, g: GroupId) {
    g < |groups| && groups' == groups[g := Ended(groups[g], false).(pending := {})]
  }

  lemma Changeover(cells: seq<Cell>, groups: seq<Group>, v: ValueId, group: Option<GroupId>)
    requires OwnersOk(cells, groups, group) && v < |cells| && (group.Some? ==> groups[group.value].value == v)
    ensures OwnersOk(cells[v := cells[v].(owner := group)], groups, cells[v].owner)
    ensures cells[v].owner.Some? ==> cells[v].owner != group && groups[cells[v].owner.value].result.None?
  {
    var cells' := cells[v := cells[v].(owner := group)];
    if cells[v].owner.Some? { assert OwnerOk(cells, groups, cells[v].owner.value); }
    forall g: GroupId | g < |groups| && cells[v].owner != Some(g) ensures OwnerOk(cells', groups, g) {
      if group != Some(g) { assert OwnerOk(cells, groups, g); }
    }
  }

  lemma OthersSettled(cells: seq<Cell>, groups: seq<Group>, v: ValueId)
    requires OwnersOk(cells, groups, None) && v < |cells|
    ensures forall g: GroupId :: g < |groups| && groups[g].value == v && cells[v].owner != Some(g) ==> groups[g].result.Some?
  {
    forall g: GroupId | g < |groups| && groups[g].value == v && cells[v].owner != Some(g) ensures groups[g].result.Some? {
      assert OwnerOk(cells, groups, g);
    }
  }

  lemma RoutesLater(valueCount: nat, groups: seq<Group>, registry: Registry, nextAnim: AnimId, nextAnim': AnimId)
    requires RoutesOk(valueCount, groups, registry, nextAnim) && nextAnim <= nextAnim'
    ensures RoutesOk(valueCount, groups, registry, nextAnim')
  {
    forall g: GroupId | g < |groups| ensures PendingOk(groups, registry, nextAnim', g) {
      assert PendingOk(groups, registry, nextAnim, g);
    }
  }

  /** A started group fits in, except that its value does not belong to it yet. */
  lemma StartedFits(cells: seq<Cell>, groups: seq<Group>, v: ValueId, finalValue: real, targets: seq<AnimId>)
    requires OwnersOk(cells, groups, None) && v < |cells|
    ensures OwnersOk(cells, groups + [Started(v, finalValue, targets)], Some(|groups|))
  {
    var groups' := groups + [Started(v, finalValue, targets)];
    forall g: GroupId | g < |groups| ensures OwnerOk(cells, groups', g) {
      assert OwnerOk(cells, groups, g);
    }
  }

  /** Its drivers are routed to it and to nobody else. */
  lemma StartedRoutes(valueCount: nat, groups: seq<Group>, registry: Registry, registry': Registry,
                      nextAnim: AnimId, nextAnim': AnimId, v: ValueId, finalValue: real, targets: seq<AnimId>)
    requires RoutesOk(valueCount, groups, registry, nextAnim) && nextAnim <= nextAnim' && targets != []
    requires forall a :: a in targets ==> nextAnim <= a < nextAnim'
    requires forall a :: a in registry' <==> a in registry || a in targets
    requires forall a <- registry' :: registry'[a] == if a in registry then registry[a] else ToGroup(|groups|)
    ensures RoutesOk(valueCount, groups + [Started(v, finalValue, targets)], registry', nextAnim')
  {
    var groups' := groups + [Started(v, finalValue, targets)];
    forall a | a in registry' ensures a < nextAnim' && RouteOk(valueCount, groups', registry', a) {
      if a in registry { assert RouteOk(valueCount, groups, registry, a); }
    }
    forall g: GroupId | g < |groups'| ensures PendingOk(groups', registry', nextAnim', g) {
      if g < |groups| { assert PendingOk(groups, registry, nextAnim, g); }
    }
  }

  /** Nobody waits for it yet, and nothing has happened to it. */
  lemma StartedWaits(groups: seq<Group>, waits: seq<GroupId>, told: seq<seq<bool>>, since: seq<nat>, log: seq<Event>,
                     v: ValueId, finalValue: real, targets: seq<AnimId>)
    requires WaitsOk(groups, waits, told) && AllJudged(groups, since, log)
    ensures WaitsOk(groups + [Started(v, finalValue, targets)], waits, told)
    ensures AllJudged(groups + [Started(v, finalValue, targets)], since + [|log|], log)
  {
    var groups' := groups + [Started(v, finalValue, targets)];
    forall w: WaiterId | w < |waits| ensures ToldOk(groups', waits[w], told[w]) {
      assert ToldOk(groups, waits[w], told[w]);
    }
    forall g: GroupId | g < |groups'|
      ensures WaitersOk(groups', waits, g)
      ensures JudgedOk(groups'[g], g, (since + [|log|])[g], log)
    {
      if g < |groups| {
        assert WaitersOk(groups, waits, g) && JudgedOk(groups[g], g, since[g], log);
      }
    }
  }
}
