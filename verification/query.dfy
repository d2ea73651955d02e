/** The shared query cache: one fetch per key, no stale results, bounded by evicting idle entries. */
module Query {
  import opened Wrappers

  type EntryId = nat
  type TaskId = nat

  datatype Snapshot<D> = Snapshot(data: Option<D>, loading: bool, error: Option<nat>, revision: nat)

  /** A cache entry, by identity: an evicted one lives on in the closures of its subscribers. */
  datatype Entry<K, D> = Entry(key: K, snapshot: Snapshot<D>, listeners: set<nat>, hasFetcher: bool,
                               task: Option<TaskId>, expires: int, generation: nat)

  datatype Phase = Live | Cancelled | Finished

  /** A fetch remembers its entry and the generation it was started for. */
  datatype Task = Task(entry: EntryId, generation: nat, phase: Phase)

  /** How a fetcher ends; a cancelled one may still end in any of these ways. */
  datatype Outcome<D> = Result(data: D) | Failed(error: nat) | CancelledError

  // Every entry and every fetch ever made; an id is the position at which it was made.
  type Entries<K, D> = seq<Entry<K, D>>
  type Tasks = seq<Task>

  // -- invariants --

  ghost predicate TasksOk<K(!new), D(!new)>(entries: Entries<K, D>, tasks: Tasks, table: map<K, EntryId>) {
    && (forall t: TaskId :: t < |tasks| ==> TaskOk(entries, tasks, table, t))
    && (forall e: EntryId :: e < |entries| && entries[e].task.Some? ==> OwnsTask(entries, tasks, e))
  }

  /** A live fetch is its entry's own, for its current generation, and the entry is in the cache; a cancelled one is superseded. */
  ghost predicate TaskOk<K, D>(entries: Entries<K, D>, tasks: Tasks, table: map<K, EntryId>, t: TaskId)
    requires t < |tasks|
  {
    var e := tasks[t].entry;
    && e < |entries| && tasks[t].generation <= entries[e].generation
    && (tasks[t].phase == Cancelled ==> tasks[t].generation < entries[e].generation)
    && (tasks[t].phase == Live ==>
          entries[e].task == Some(t) && entries[e].generation == tasks[t].generation &&
          entries[e].key in table && table[entries[e].key] == e)
  }

  ghost predicate OwnsTask<K, D>(entries: Entries<K, D>, tasks: Tasks, e: EntryId)
    requires e < |entries| && entries[e].task.Some?
  {
    var t := entries[e].task.value;
    t < |tasks| && tasks[t].entry == e && tasks[t].phase != Cancelled
  }

  ghost predicate TableOk<K(!new), D(!new)>(entries: Entries<K, D>, table: map<K, EntryId>, order: seq<K>) {
    && (forall k <- table :: table[k] < |entries| && entries[table[k]].key == k)
    && (forall i, j :: 0 <= i < j < |order| ==> order[i] != order[j])
    && (forall k :: k in order <==> k in table)
  }

  /** Each key has at most one live fetch. */
  lemma OneLiveFetch<K(!new), D(!new)>(entries: Entries<K, D>, tasks: Tasks, table: map<K, EntryId>, t: TaskId, u: TaskId)
    requires TasksOk(entries, tasks, table) && t < |tasks| && u < |tasks|
    requires tasks[t].phase == Live && tasks[u].phase == Live
    requires tasks[t].entry < |entries| && tasks[u].entry < |entries|
    requires entries[tasks[t].entry].key == entries[tasks[u].entry].key
    ensures t == u
  {
    assert TaskOk(entries, tasks, table, t) && TaskOk(entries, tasks, table, u);
  }

  /** The entry has moved on since this fetch began. */
  predicate Superseded<K, D>(entries: Entries<K, D>, tasks: Tasks, t: TaskId) {
    t < |tasks| && tasks[t].entry < |entries| && tasks[t].generation < entries[tasks[t].entry].generation
  }

  // -- superseded is forever --

  /** What every operation keeps of entries and tasks. */
  ghost predicate Evolves<K, D>(entries: Entries<K, D>, tasks: Tasks, entries': Entries<K, D>, tasks': Tasks) {
    && |entries| <= |entries'| && |tasks| <= |tasks'|
    && (forall e: EntryId :: e < |entries| ==>
          entries'[e].key == entries[e].key && entries[e].generation <= entries'[e].generation)
    && (forall t: TaskId :: t < |tasks| ==> tasks'[t].entry == tasks[t].entry && tasks'[t].generation == tasks[t].generation)
  }

  lemma {:induction false} SupersededForever<K, D>(states: seq<(Entries<K, D>, Tasks)>, t: TaskId)
    requires states != [] && Superseded(states[0].0, states[0].1, t)
    requires forall i :: 0 <= i < |states| - 1 ==> Evolves(states[i].0, states[i].1, states[i + 1].0, states[i + 1].1)
    ensures Superseded(states[|states| - 1].0, states[|states| - 1].1, t)
  {
    var n := |states| - 1;
    if n > 0 {
      SupersededForever(states[..n], t);
      assert Evolves(states[n - 1].0, states[n - 1].1, states[n - 1 + 1].0, states[n - 1 + 1].1);
    }
  }

  // -- what a fetch's end does --

  function Published<K, D>(e: Entry<K, D>, data: Option<D>, loading: bool, error: Option<nat>): Entry<K, D> {
    e.(snapshot := Snapshot(data, loading, error, e.snapshot.revision + 1))
  }

  /** The entries after fetch `t` ended with `outcome`; a result is good until `expires`. */
  function Settled<K, D>(entries: Entries<K, D>, tasks: Tasks, t: TaskId, outcome: Outcome<D>, expires: int): Entries<K, D>
    requires t < |tasks| && tasks[t].entry < |entries|
  {
    var e := tasks[t].entry;
    var x := entries[e];
    if tasks[t].generation != x.generation then entries
    else
      match outcome
      case Result(data) => entries[e := Published(x.(expires := expires), Some(data), false, None)]
      case Failed(error) => entries[e := Published(x, x.snapshot.data, false, Some(error))]
      case CancelledError => entries
  }

  /**
   * No stale results: once a fetch is superseded, then however long the run goes on before it
   * ends and however it ends, it leaves every snapshot and every expiry time as they are.
   */
  lemma NoStaleResult<K, D>(states: seq<(Entries<K, D>, Tasks)>, t: TaskId, outcome: Outcome<D>, expires: int)
    requires states != [] && Superseded(states[0].0, states[0].1, t)
    requires forall i :: 0 <= i < |states| - 1 ==> Evolves(states[i].0, states[i].1, states[i + 1].0, states[i + 1].1)
    ensures var (entries, tasks) := states[|states| - 1];
            && t < |tasks| && tasks[t].entry < |entries|
            && Settled(entries, tasks, t, outcome, expires) == entries
  {
    SupersededForever(states, t);
  }

  /** Marks a fetch cancelled, unless it is already done. */
  function WithCancelled(tasks: Tasks, task: Option<TaskId>): Tasks {
    if task.Some? && task.value < |tasks| && tasks[task.value].phase == Live
    then tasks[task.value := tasks[task.value].(phase := Cancelled)]
    else tasks
  }

  function Retired<K, D>(e: Entry<K, D>): Entry<K, D> {
    e.(generation := e.generation + 1, task := None)
  }

  /** Starting a new generation supersedes every fetch the entry ever had, and keeps everything in order. */
  lemma RetireMeans<K(!new), D(!new)>(entries: Entries<K, D>, tasks: Tasks, table: map<K, EntryId>, e: EntryId)
    requires TasksOk(entries, tasks, table) && e < |entries|
    ensures var entries' := entries[e := Retired(entries[e])];
            var tasks' := WithCancelled(tasks, entries[e].task);
            && TasksOk(entries', tasks', table) && Evolves(entries, tasks, entries', tasks')
            && forall t: TaskId :: t < |tasks| && tasks[t].entry == e ==>
                 Superseded(entries', tasks', t) && tasks'[t].phase != Live
  {
    var entries' := entries[e := Retired(entries[e])];
    var tasks' := WithCancelled(tasks, entries[e].task);
    forall t: TaskId | t < |tasks'|
      ensures TaskOk(entries', tasks', table, t)
      ensures tasks[t].entry == e ==> Superseded(entries', tasks', t) && tasks'[t].phase != Live
    {
      assert TaskOk(entries, tasks, table, t);
      if entries[e].task.Some? { assert OwnsTask(entries, tasks, e); }
    }
    forall o: EntryId | o < |entries'| && entries'[o].task.Some? ensures OwnsTask(entries', tasks', o) {
      assert OwnsTask(entries, tasks, o);
      if entries[e].task.Some? { assert OwnsTask(entries, tasks, e); }
    }
  }

  /** Changes to an entry that touch neither its key, its fetch nor its generation keep everything in order. */
  lemma EditMeans<K(!new), D(!new)>(entries: Entries<K, D>, tasks: Tasks, table: map<K, EntryId>, order: seq<K>,
                                    e: EntryId, x: Entry<K, D>)
    requires TasksOk(entries, tasks, table) && TableOk(entries, table, order) && e < |entries|
    requires x.key == entries[e].key && x.task == entries[e].task && x.generation == entries[e].generation
    ensures TasksOk(entries[e := x], tasks, table) && TableOk(entries[e := x], table, order)
    ensures Evolves(entries, tasks, entries[e := x], tasks)
  {
    var entries' := entries[e := x];
    forall t: TaskId | t < |tasks| ensures TaskOk(entries', tasks, table, t) {
      assert TaskOk(entries, tasks, table, t);
    }
    forall o: EntryId | o < |entries'| && entries'[o].task.Some? ensures OwnsTask(entries', tasks, o) {
      assert OwnsTask(entries, tasks, o);
    }
  }

  lemma FinishMeans<K(!new), D(!new)>(entries: Entries<K, D>, tasks: Tasks, table: map<K, EntryId>, t: TaskId)
    requires TasksOk(entries, tasks, table) && t < |tasks|
    ensures TasksOk(entries, tasks[t := tasks[t].(phase := Finished)], table)
  {
    var tasks' := tasks[t := tasks[t].(phase := Finished)];
    forall u: TaskId | u < |tasks'| ensures TaskOk(entries, tasks', table, u) {
      assert TaskOk(entries, tasks, table, u);
    }
    forall o: EntryId | o < |entries| && entries[o].task.Some? ensures OwnsTask(entries, tasks', o) {
      assert OwnsTask(entries, tasks, o);
    }
  }

  /** An entry asked to fetch: it shows that it is loading, when that starts fetch number `next`. */
  function Asked<K, D>(x: Entry<K, D>, starts: bool, next: TaskId): Entry<K, D> {
    if starts then Published(x, x.snapshot.data, true, None).(task := Some(next)) else x
  }

  /** An invalidated entry: stale, of a new generation, and fetched again when somebody listens. */
  function Invalidated<K, D>(x: Entry<K, D>, next: TaskId): Entry<K, D> {
    Asked(Retired(x.(expires := 0)), x.listeners != {} && x.hasFetcher, next)
  }

  /** The entries once a key was looked up, which makes a missing one. */
  function Looked<K, D>(entries: Entries<K, D>, table: map<K, EntryId>, key: K): Entries<K, D> {
    if key in table then entries else entries + [Fresh(key, None)]
  }

  /** Different keys have different entries. */
  lemma EntriesApart<K(!new), D(!new)>(entries: Entries<K, D>, table: map<K, EntryId>, order: seq<K>)
    requires TableOk(entries, table, order)
    ensures forall i, j :: 0 <= i < j < |order| ==> table[order[i]] != table[order[j]]
  {
    forall i, j | 0 <= i < j < |order| ensures table[order[i]] != table[order[j]] {
      assert order[i] in order && order[j] in order && order[i] != order[j];
    }
  }

  /** The entries invalidated so far are refreshed, and no other has changed. */
  ghost predicate RefreshedOnly<K, D>(entries: Entries<K, D>, entries': Entries<K, D>, done: set<EntryId>) {
    |entries'| == |entries| && forall e: EntryId :: e < |entries| ==>
      if e in done then Refreshed(entries, entries', e) else entries'[e] == entries[e]
  }

  ghost predicate Refreshed<K, D>(entries: Entries<K, D>, entries': Entries<K, D>, e: EntryId) {
    e < |entries| <= |entries'| &&
    entries'[e] == Invalidated(entries[e], if entries'[e].task.Some? then entries'[e].task.value else 0)
  }

  /** Whether asking for a fetch starts one. */
  predicate CanFetch<K, D>(entries: Entries<K, D>, tasks: Tasks, e: EntryId) {
    e < |entries| && entries[e].hasFetcher &&
    (entries[e].task.None? || (entries[e].task.value < |tasks| && tasks[entries[e].task.value].phase == Finished))
  }

  lemma FetchMeans<K(!new), D(!new)>(entries: Entries<K, D>, tasks: Tasks, table: map<K, EntryId>, e: EntryId)
    requires TasksOk(entries, tasks, table) && CanFetch(entries, tasks, e)
    requires entries[e].key in table && table[entries[e].key] == e
    ensures TasksOk(entries[e := entries[e].(task := Some(|tasks|))], tasks + [Task(e, entries[e].generation, Live)], table)
  {
    var entries' := entries[e := entries[e].(task := Some(|tasks|))];
    var tasks' := tasks + [Task(e, entries[e].generation, Live)];
    forall t: TaskId | t < |tasks'| ensures TaskOk(entries', tasks', table, t) {
      if t < |tasks| { assert TaskOk(entries, tasks, table, t); }
    }
    forall o: EntryId | o < |entries'| && entries'[o].task.Some? ensures OwnsTask(entries', tasks', o) {
      if o != e { assert OwnsTask(entries, tasks, o); }
    }
  }

  // -- eviction --

  /** An entry nobody listens to and no running fetch belongs to. */
  predicate Idle<K, D>(entries: Entries<K, D>, tasks: Tasks, e: EntryId) {
    e < |entries| && entries[e].listeners == {} &&
    (entries[e].task.None? || (entries[e].task.value < |tasks| && tasks[entries[e].task.value].phase == Finished))
  }

  function IdleKeys<K, D>(entries: Entries<K, D>, tasks: Tasks, table: map<K, EntryId>): set<K> {
    set k | k in table && Idle(entries, tasks, table[k])
  }

  /** The keys left have the entries they had; `key` is among them, and those gone were idle. */
  ghost predicate OnlyIdleGone<K(!new), D>(entries: Entries<K, D>, tasks: Tasks, table: map<K, EntryId>, left: map<K, EntryId>, key: K) {
    && (forall k <- left :: k in table && left[k] == table[k])
    && (forall k <- table :: k in left || (k != key && Idle(entries, tasks, table[k])))
  }

  /** Going from the least recently used key, drops idle ones until the excess is gone. */
  function Evict<K(==)>(order: seq<K>, key: K, excess: int, idle: set<K>): seq<K> {
    if order == [] || excess <= 0 then order
    else if order[0] != key && order[0] in idle then Evict(order[1..], key, excess - 1, idle)
    else [order[0]] + Evict(order[1..], key, excess, idle)
  }

  /** What eviction leaves of an order of use. */
  ghost predicate Shrunk<K>(left: seq<K>, order: seq<K>, key: K, capacity: nat, idle: set<K>) {
    left == Evict(order, key, |order| - capacity, idle)
  }

  /** Only idle keys go, the newest stays, and afterwards the excess is gone or nothing idle is left. */
  lemma {:induction false} EvictMeans<K(!new)>(order: seq<K>, key: K, excess: int, idle: set<K>)
    requires forall i, j :: 0 <= i < j < |order| ==> order[i] != order[j]
    ensures var r := Evict(order, key, excess, idle);
            && (forall i, j :: 0 <= i < j < |r| ==> r[i] != r[j])
            && (forall k :: k in r ==> k in order)
            && (forall k :: k in order && k !in r ==> k in idle && k != key)
            && |r| <= |order|
            && (|order| - |r| >= excess || forall k :: k in r && k in idle ==> k == key)
            && (excess >= 0 ==> |order| - |r| <= excess)
  {
    if order != [] && excess > 0 {
      var rest := order[1..];
      assert order == [order[0]] + rest;
      assert forall i :: 0 <= i < |rest| ==> rest[i] == order[i + 1];
      assert order[0] !in rest;
      EvictMeans(rest, key, if order[0] != key && order[0] in idle then excess - 1 else excess, idle);
    }
  }

  /** Least recently used first: an idle key survives only if everything evicted was older. */
  lemma {:induction false} EvictOldestFirst<K(!new)>(order: seq<K>, key: K, excess: int, idle: set<K>, i: nat, j: nat)
    requires forall a, b :: 0 <= a < b < |order| ==> order[a] != order[b]
    requires i < |order| && j < |order|
    requires order[i] !in Evict(order, key, excess, idle)
    requires order[j] in Evict(order, key, excess, idle) && order[j] in idle && order[j] != key
    ensures i < j
  {
    if order != [] && excess > 0 && i > 0 {
      var rest := order[1..];
      var left := if order[0] != key && order[0] in idle then excess - 1 else excess;
      assert forall a :: 0 <= a < |rest| ==> rest[a] == order[a + 1];
      if j > 0 {
        assert order[i] == rest[i - 1] && order[j] == rest[j - 1];
        assert order[i] !in Evict(rest, key, left, idle);
        assert order[j] in Evict(rest, key, left, idle);
        EvictOldestFirst(rest, key, left, idle, i - 1, j - 1);
      } else {
        EvictMeans(rest, key, left, idle);
      }
    }
  }

  /** The order once a key was used: the others keep theirs, and it comes last. */
  function Touched<K(==)>(order: seq<K>, key: K): seq<K> {
    if order == [] then [key]
    else if order[0] == key then order[1..] + [key]
    else [order[0]] + Touched(order[1..], key)
  }

  lemma {:induction false} TouchedMeans<K(!new)>(order: seq<K>, key: K)
    requires forall i, j :: 0 <= i < j < |order| ==> order[i] != order[j]
    ensures var r := Touched(order, key);
            && (forall i, j :: 0 <= i < j < |r| ==> r[i] != r[j])
            && (forall k :: k in r <==> k in order || k == key)
            && r != [] && r[|r| - 1] == key
  {
    if order != [] {
      var rest := order[1..];
      assert order == [order[0]] + rest;
      assert forall i :: 0 <= i < |rest| ==> rest[i] == order[i + 1];
      if order[0] != key {
        TouchedMeans(rest, key);
        var r := Touched(rest, key);
        assert forall i :: 0 <= i < |r| ==> r[i] in r;
      }
    }
  }

  /** The keys that stay keep their order. */
  lemma {:induction false} EvictKeepsOrder<K(!new)>(order: seq<K>, key: K, excess: int, idle: set<K>, a: nat, b: nat)
    returns (i: nat, j: nat)
    requires a < b < |Evict(order, key, excess, idle)|
    ensures i < j < |order| && order[i] == Evict(order, key, excess, idle)[a] && order[j] == Evict(order, key, excess, idle)[b]
  {
    if excess <= 0 {
      i, j := a, b;
    } else if order[0] != key && order[0] in idle {
      i, j := EvictKeepsOrder(order[1..], key, excess - 1, idle, a, b);
      i, j := i + 1, j + 1;
    } else if a > 0 {
      i, j := EvictKeepsOrder(order[1..], key, excess, idle, a - 1, b - 1);
      i, j := i + 1, j + 1;
    } else {
      i := 0;
      var rest := Evict(order[1..], key, excess, idle);
      assert rest[b - 1] in rest;
      j := EvictFrom(order[1..], key, excess, idle, b - 1);
      j := j + 1;
    }
  }

  lemma {:induction false} EvictFrom<K(!new)>(order: seq<K>, key: K, excess: int, idle: set<K>, b: nat) returns (j: nat)
    requires b < |Evict(order, key, excess, idle)|
    ensures j < |order| && order[j] == Evict(order, key, excess, idle)[b]
  {
    if excess <= 0 {
      j := b;
    } else if order[0] != key && order[0] in idle {
      j := EvictFrom(order[1..], key, excess - 1, idle, b);
      j := j + 1;
    } else if b > 0 {
      j := EvictFrom(order[1..], key, excess, idle, b - 1);
      j := j + 1;
    } else {
      j := 0;
    }
  }

  /** The key used moves to the end, past the others in their order. */
  lemma {:induction false} TouchedAt<K>(order: seq<K>, key: K, i: nat)
    requires i < |order| && order[i] == key && key !in order[..i]
    ensures Touched(order, key) == order[..i] + order[i + 1..] + [key]
  {
    if i > 0 {
      var rest := order[1..];
      assert order[0] in order[..i];
      assert rest[..i - 1] == order[1..i];
      assert order[..i] == [order[0]] + order[1..i];
      TouchedAt(rest, key, i - 1);
      assert rest[i..] == order[i + 1..];
    }
  }

  lemma {:induction false} TouchedNew<K>(order: seq<K>, key: K)
    requires key !in order
    ensures Touched(order, key) == order + [key]
  {
    if order != [] {
      assert order == [order[0]] + order[1..];
      TouchedNew(order[1..], key);
    }
  }

  lemma {:induction false} TouchedTwice<K>(order: seq<K>, key: K)
    requires key !in order
    ensures Touched(order + [key], key) == order + [key]
  {
    if order == [] {
      assert (order + [key])[1..] == [];
    } else {
      assert (order + [key])[1..] == order[1..] + [key];
      assert order == [order[0]] + order[1..];
      TouchedTwice(order[1..], key);
    }
  }

  /** Adding an entry, or dropping idle ones from the cache, keeps the fetches in order. */
  lemma TasksStillOk<K(!new), D(!new)>(entries: Entries<K, D>, entries': Entries<K, D>, tasks: Tasks,
                                       table: map<K, EntryId>, table': map<K, EntryId>)
    requires TasksOk(entries, tasks, table)
    requires entries <= entries' && forall e: EntryId :: |entries| <= e < |entries'| ==> entries'[e].task.None?
    requires forall k <- table :: (k in table' && table'[k] == table[k]) || Idle(entries, tasks, table[k])
    ensures TasksOk(entries', tasks, table')
  {
    forall t: TaskId | t < |tasks| ensures TaskOk(entries', tasks, table', t) {
      assert TaskOk(entries, tasks, table, t);
    }
    forall e: EntryId | e < |entries'| && entries'[e].task.Some? ensures OwnsTask(entries', tasks, e) {
      assert OwnsTask(entries, tasks, e);
    }
  }

  function Fresh<K, D>(key: K, initial: Option<D>): Entry<K, D> {
    Entry(key, Snapshot(initial, true, None, 0), {}, false, None, 0, 0)
  }

  class QueryClient<K(==, !new), D(!new)> {
    const capacity: nat
    const staleTime: nat
    var order: seq<K>                // least recently used first
    var table: map<K, EntryId>
    var entries: Entries<K, D>
    var tasks: Tasks

    ghost predicate Valid()
      reads this
    {
      capacity >= 1 && TableOk(entries, table, order) && TasksOk(entries, tasks, table)
    }

    constructor (capacity: nat, staleTime: nat)
      requires capacity >= 1
      ensures Valid() && entries == [] && tasks == []
    {
      this.capacity, this.staleTime := capacity, staleTime;
      order, table, entries, tasks := [], map[], [], [];
    }

    /** Finds or makes the entry of a key, marks it most recently used, and evicts idle entries beyond capacity. */
    method GetEntry(key: K, initial: Option<D>) returns (e: EntryId)
      requires Valid()
      modifies `order, `table, `entries
      ensures Valid() && key in table && table[key] == e && e < |entries|
      ensures key in old(table) ==> e == old(table)[key] && entries == old(entries)
      ensures key !in old(table) ==> e == |old(entries)| && entries == old(entries) + [Fresh(key, initial)]
      ensures key !in old(table) ==> entries[e] == Entry(key, Snapshot(initial, true, None, 0), {}, false, None, 0, 0)
      ensures Shrunk(order, Touched(old(order), key), key, capacity, IdleKeys(entries, tasks, old(table)[key := e]))
      ensures |order| <= capacity || IdleKeys(entries, tasks, table) <= {key}
      ensures OnlyIdleGone(entries, tasks, old(table)[key := e], table, key)
    {
      e := UseEntry(key, initial);
      EvictIdle(key);
    }

    /** The entry of a key, made if need be, and now the most recently used. */
    method UseEntry(key: K, initial: Option<D>) returns (e: EntryId)
      requires Valid()
      modifies `order, `table, `entries
      ensures Valid() && key in table && table[key] == e && e < |entries|
      ensures key in old(table) ==> e == old(table)[key] && entries == old(entries)
      ensures key !in old(table) ==> e == |old(entries)| && entries == old(entries) + [Fresh(key, initial)]
      ensures order == Touched(old(order), key) && table == old(table)[key := e]
    {
      if key !in table {
        TouchedNew(order, key);
        TouchedTwice(order, key);
        AddEntry(key, initial);
      }
      e := table[key];
      assert table == old(table)[key := e];
      MoveToEnd(key);
    }

    method AddEntry(key: K, initial: Option<D>)
      requires Valid() && key !in table
      modifies `order, `table, `entries
      ensures Valid() && table == old(table)[key := |old(entries)|] && order == old(order) + [key]
      ensures entries == old(entries) + [Fresh(key, initial)]
    {
      table := table[key := |entries|];
      entries := entries + [Fresh(key, initial)];
      order := order + [key];
      TasksStillOk(old(entries), entries, tasks, old(table), table);
    }

    method MoveToEnd(key: K)
      requires Valid() && key in table
      modifies `order
      ensures Valid() && order == Touched(old(order), key)
    {
      TouchedMeans(order, key);
      order := Touched(order, key);
    }

    /** The eviction loop over a copy of the table's items. */
    method Survivors(key: K) returns (kept: seq<K>)
      requires forall k :: k in order ==> k in table
      ensures kept == Evict(order, key, |order| - capacity, IdleKeys(entries, tasks, table))
    {
      kept := [];
      var i := 0;
      ghost var idle := IdleKeys(entries, tasks, table);
      ghost var result := Evict(order, key, |order| - capacity, idle);
      assert order[0..] == order;
      while i < |order| && |kept| + |order| - i > capacity
        invariant i <= |order| && Left(result, kept, order, i, key, |kept| + |order| - i - capacity, idle)
      {
        var k := order[i];
        EvictStep(result, kept, order, i, key, |kept| + |order| - i - capacity, idle);
        if k == key || !Idle(entries, tasks, table[k]) {
          kept := kept + [k];
        }
        i := i + 1;
      }
      EvictDone(result, kept, order, i, key, |kept| + |order| - i - capacity, idle);
      kept := kept + order[i..];
    }

    method EvictIdle(key: K)
      requires Valid() && key in table
      modifies `order, `table
      ensures Valid() && key in table
      ensures Shrunk(order, old(order), key, capacity, IdleKeys(entries, tasks, old(table)))
      ensures |order| <= capacity || IdleKeys(entries, tasks, table) <= {key}
      ensures OnlyIdleGone(entries, tasks, old(table), table, key)
    {
      EvictMeans(order, key, |order| - capacity, IdleKeys(entries, tasks, table));
      var kept := Survivors(key);
      table := map k | k in table && k in kept :: table[k];
      order := kept;
      TasksStillOk(entries, entries, tasks, old(table), table);
    }

    predicate Cached(e: EntryId)
      reads this
    {
      e < |entries| && entries[e].key in table && table[entries[e].key] == e
    }

    method Publish(e: EntryId, data: Option<D>, loading: bool, error: Option<nat>)
      requires Valid() && e < |entries|
      modifies `entries
      ensures Valid() && Evolves(old(entries), tasks, entries, tasks)
      ensures entries == old(entries)[e := Published(old(entries)[e], data, loading, error)]
    {
      EditMeans(entries, tasks, table, order, e, Published(entries[e], data, loading, error));
      entries := entries[e := Published(entries[e], data, loading, error)];
    }

    /** The entry of a key, as the operations on it find it. */
    method EntryOf(key: K) returns (e: EntryId)
      requires Valid()
      modifies `order, `table, `entries
      ensures Valid() && Cached(e) && entries[e].key == key && Evolves(old(entries), tasks, entries, tasks)
      ensures e == if key in old(table) then old(table)[key] else |old(entries)|
      ensures entries == Looked(old(entries), old(table), key)
    {
      e := GetEntry(key, None);
    }

    /** Starts a fetch for the current generation, unless the entry has no fetcher or one is running. */
    method Fetch(e: EntryId) returns (started: bool)
      requires Valid() && Cached(e)
      modifies `entries, `tasks
      ensures Valid() && Evolves(old(entries), old(tasks), entries, tasks)
      ensures started == CanFetch(old(entries), old(tasks), e)
      ensures entries == old(entries)[e := Asked(old(entries)[e], started, |old(tasks)|)]
      ensures tasks == old(tasks) + if started then [Task(e, old(entries)[e].generation, Live)] else []
      ensures entries[e].hasFetcher ==> HasLiveFetch(e)
      ensures started <==> old(entries)[e].hasFetcher && !old(HasLiveFetch(e))
      ensures started ==> var x := old(entries)[e];
                entries[e] == x.(snapshot := Snapshot(x.snapshot.data, true, None, x.snapshot.revision + 1), task := Some(|old(tasks)|))
      ensures !started ==> entries == old(entries)
    {
      started := CanFetch(entries, tasks, e);
      assert entries[e].task.Some? ==> OwnsTask(entries, tasks, e);
      if started {
        Publish(e, entries[e].snapshot.data, true, None);
        FetchMeans(entries, tasks, table, e);
        tasks := tasks + [Task(e, entries[e].generation, Live)];
        entries := entries[e := entries[e].(task := Some(|tasks| - 1))];
      }
    }

    /** Subscribes; unless the data is still fresh, exactly the entry's one live fetch is then running. */
    method Subscribe(key: K, listener: nat, now: int) returns (e: EntryId)
      requires Valid()
      modifies `order, `table, `entries, `tasks
      ensures Valid() && Evolves(old(entries), old(tasks), entries, tasks)
      ensures Cached(e) && entries[e].key == key
      ensures e == if key in old(table) then old(table)[key] else |old(entries)|
      ensures var found := Looked(old(entries), old(table), key);
              var x := found[e].(hasFetcher := true, listeners := found[e].listeners + {listener});
              var starts := x.expires <= now && CanFetch([x], old(tasks), 0);
              && entries == found[e := Asked(x, starts, |old(tasks)|)]
              && tasks == old(tasks) + if starts then [Task(e, x.generation, Live)] else []
      ensures entries[e].expires <= now ==> HasLiveFetch(e)
      ensures entries[e].hasFetcher && entries[e].listeners == (if e < |old(entries)| then old(entries)[e].listeners else {}) + {listener}
      ensures entries[e].snapshot.data == if e < |old(entries)| then old(entries)[e].snapshot.data else None
      ensures entries[e].expires > now ==> tasks == old(tasks) && entries[e].task == if e < |old(entries)| then old(entries)[e].task else None
    {
      e := EntryOf(key);
      ghost var found := entries;
      Listen(e, listener);
      ghost var x := entries[e];
      assert entries == found[e := x] && CanFetch([x], tasks, 0) == CanFetch(entries, tasks, e);
      if entries[e].expires <= now {
        var started := Fetch(e);
        assert entries == found[e := Asked(x, started, |old(tasks)|)];
      }
    }

    method Listen(e: EntryId, listener: nat)
      requires Valid() && Cached(e)
      modifies `entries
      ensures Valid() && Evolves(old(entries), tasks, entries, tasks)
      ensures entries == old(entries)[e := old(entries)[e].(hasFetcher := true, listeners := old(entries)[e].listeners + {listener})]
    {
      var x := entries[e].(hasFetcher := true, listeners := entries[e].listeners + {listener});
      EditMeans(entries, tasks, table, order, e, x);
      entries := entries[e := x];
    }

    predicate HasLiveFetch(e: EntryId)
      reads this
    {
      e < |entries| && entries[e].task.Some? && entries[e].task.value < |tasks| &&
      tasks[entries[e].task.value].phase == Live && tasks[entries[e].task.value].entry == e
    }

    /** Supersedes every fetch the entry had: the generation moves on and the running one is cancelled. */
    method Retire(e: EntryId)
      requires Valid() && e < |entries|
      modifies `entries, `tasks
      ensures Valid() && Evolves(old(entries), old(tasks), entries, tasks)
      ensures entries == old(entries)[e := Retired(old(entries)[e])]
      ensures entries[e] == old(entries)[e].(generation := old(entries)[e].generation + 1, task := None)
      ensures tasks == WithCancelled(old(tasks), old(entries)[e].task)
      ensures forall t: TaskId :: t < |tasks| ==>
                tasks[t] == if old(tasks)[t].phase == Live && old(tasks)[t].entry == e then old(tasks)[t].(phase := Cancelled)
                            else old(tasks)[t]
      ensures forall t: TaskId :: t < |tasks| && tasks[t].entry == e ==> Superseded(entries, tasks, t) && tasks[t].phase != Live
    {
      RetireMeans(entries, tasks, table, e);
      tasks := WithCancelled(tasks, entries[e].task);
      entries := entries[e := Retired(entries[e])];
    }

    /** Unsubscribes; when nobody is left, a fetch still running is superseded and cancelled. */
    method Remove(e: EntryId, listener: nat)
      requires Valid() && e < |entries|
      modifies `entries, `tasks
      ensures Valid() && Evolves(old(entries), old(tasks), entries, tasks)
      ensures var x := old(entries)[e].(listeners := old(entries)[e].listeners - {listener});
              var cancels := x.listeners == {} && old(HasLiveFetch(e));
              && entries == old(entries)[e := if cancels then Published(Retired(x), x.snapshot.data, false, None) else x]
              && tasks == if cancels then WithCancelled(old(tasks), x.task) else old(tasks)
      ensures entries[e].listeners == old(entries)[e].listeners - {listener} && entries[e].snapshot.data == old(entries)[e].snapshot.data
      ensures entries[e].listeners == {} && old(HasLiveFetch(e)) ==> !entries[e].snapshot.loading && entries[e].task == None
      ensures entries[e].listeners == {} ==> Idle(entries, tasks, e)
      ensures entries[e].listeners == {} && old(HasLiveFetch(e)) ==>
                forall t: TaskId :: t < |old(tasks)| && old(tasks)[t].entry == e ==> Superseded(entries, tasks, t)
    {
      var x := entries[e].(listeners := entries[e].listeners - {listener});
      EditMeans(entries, tasks, table, order, e, x);
      entries := entries[e := x];
      if x.task.Some? { assert OwnsTask(entries, tasks, e); }
      if x.listeners == {} && x.task.Some? && tasks[x.task.value].phase != Finished {
        Retire(e);
        Publish(e, entries[e].snapshot.data, false, None);
      }
    }

    method InvalidateEntry(e: EntryId)
      requires Valid() && Cached(e)
      modifies `entries, `tasks
      ensures Valid() && Evolves(old(entries), old(tasks), entries, tasks)
      ensures entries == old(entries)[e := Invalidated(old(entries)[e], |old(tasks)|)]
      ensures entries[e].expires == 0 && entries[e].generation == old(entries)[e].generation + 1
      ensures entries[e].snapshot.data == old(entries)[e].snapshot.data && entries[e].listeners == old(entries)[e].listeners
      ensures !(entries[e].listeners != {} && entries[e].hasFetcher) ==>
                entries[e].task == None && entries[e].snapshot == old(entries)[e].snapshot
      ensures forall t: TaskId :: t < |old(tasks)| && old(tasks)[t].entry == e ==> Superseded(entries, tasks, t)
      ensures entries[e].listeners != {} && entries[e].hasFetcher ==> HasLiveFetch(e)
    {
      EditMeans(entries, tasks, table, order, e, entries[e].(expires := 0));
      entries := entries[e := entries[e].(expires := 0)];
      Retire(e);
      if entries[e].listeners != {} {
        var _ := Fetch(e);
      }
    }

    method Invalidate(key: K) returns (e: EntryId)
      requires Valid()
      modifies `order, `table, `entries, `tasks
      ensures Valid() && Evolves(old(entries), old(tasks), entries, tasks)
      ensures Cached(e) && entries[e].key == key && entries[e].expires == 0
      ensures e == if key in old(table) then old(table)[key] else |old(entries)|
      ensures var found := Looked(old(entries), old(table), key);
              entries == found[e := Invalidated(found[e], |old(tasks)|)]
      ensures forall t: TaskId :: t < |old(tasks)| && old(tasks)[t].entry == e ==> Superseded(entries, tasks, t)
      ensures entries[e].listeners != {} && entries[e].hasFetcher ==> HasLiveFetch(e)
    {
      e := EntryOf(key);
      InvalidateEntry(e);
    }

    /** Invalidates every cached entry. */
    method InvalidateAll()
      requires Valid()
      modifies `entries, `tasks
      ensures Valid() && Evolves(old(entries), old(tasks), entries, tasks)
      ensures forall t: TaskId, k :: t < |old(tasks)| && k in table && old(tasks)[t].entry == table[k] ==>
                Superseded(entries, tasks, t)
      ensures RefreshedOnly(old(entries), entries, set k | k in table :: table[k])
    {
      EntriesApart(entries, table, order);
      ghost var done: set<EntryId> := {};
      for i := 0 to |order|
        invariant Valid() && Evolves(old(entries), old(tasks), entries, tasks)
        invariant RefreshedOnly(old(entries), entries, done)
        invariant forall t: TaskId :: t < |old(tasks)| && old(tasks)[t].entry in done ==> Superseded(entries, tasks, t)
        invariant forall j :: 0 <= j < |order| ==> (table[order[j]] in done <==> j < i)
        invariant done <= set k | k in table :: table[k]
      {
        InvalidateNext(table[order[i]], old(entries), old(tasks), done);
        done := done + {table[order[i]]};
      }
      forall k | k in table ensures table[k] in done {
        var j :| 0 <= j < |order| && order[j] == k;
      }
      assert done == set k | k in table :: table[k];
    }

    /** One more of the entries that were cached when this began. */
    method InvalidateNext(e: EntryId, ghost first: Entries<K, D>, ghost running: Tasks, ghost done: set<EntryId>)
      requires Valid() && Cached(e) && e !in done && Evolves(first, running, entries, tasks)
      requires RefreshedOnly(first, entries, done)
      requires forall t: TaskId :: t < |running| && running[t].entry in done ==> Superseded(entries, tasks, t)
      modifies `entries, `tasks
      ensures Valid() && Evolves(first, running, entries, tasks)
      ensures RefreshedOnly(first, entries, done + {e})
      ensures forall t: TaskId :: t < |running| && running[t].entry in done + {e} ==> Superseded(entries, tasks, t)
    {
      InvalidateEntry(e);
      forall t: TaskId | t < |running| && running[t].entry in done + {e} ensures Superseded(entries, tasks, t) {
        if running[t].entry in done {
          SupersededForever([(old(entries), old(tasks)), (entries, tasks)], t);
        }
      }
    }

    /** An optimistic result: published at once, and every fetch before it is superseded. */
    method SetData(key: K, value: D, now: int) returns (e: EntryId)
      requires Valid()
      modifies `order, `table, `entries, `tasks
      ensures Valid() && Evolves(old(entries), old(tasks), entries, tasks)
      ensures Cached(e) && entries[e].key == key && entries[e].expires == now + staleTime
      ensures e == if key in old(table) then old(table)[key] else |old(entries)|
      ensures var found := Looked(old(entries), old(table), key);
              && entries == found[e := Published(Retired(found[e]).(expires := now + staleTime), Some(value), false, None)]
              && tasks == WithCancelled(old(tasks), found[e].task)
      ensures entries[e].snapshot.data == Some(value) && !entries[e].snapshot.loading && entries[e].snapshot.error == None
      ensures e < |old(entries)| ==> entries[e].listeners == old(entries)[e].listeners &&
                                     entries[e].snapshot.revision == old(entries)[e].snapshot.revision + 1
      ensures forall t: TaskId :: t < |tasks| && tasks[t].entry == e ==> Superseded(entries, tasks, t)
    {
      e := EntryOf(key);
      SetEntry(e, value, now + staleTime);
    }

    method SetEntry(e: EntryId, value: D, expires: int)
      requires Valid() && e < |entries|
      modifies `entries, `tasks
      ensures Valid() && Evolves(old(entries), old(tasks), entries, tasks)
      ensures entries == old(entries)[e := Published(Retired(old(entries)[e]).(expires := expires), Some(value), false, None)]
      ensures tasks == WithCancelled(old(tasks), old(entries)[e].task)
      ensures forall t: TaskId :: t < |tasks| && tasks[t].entry == e ==> Superseded(entries, tasks, t)
    {
      Retire(e);
      EditMeans(entries, tasks, table, order, e, entries[e].(expires := expires));
      entries := entries[e := entries[e].(expires := expires)];
      Publish(e, Some(value), false, None);
    }

    /** A fetch ends: its outcome counts only for the generation it was started for. */
    method TaskEnds(t: TaskId, outcome: Outcome<D>, now: int)
      requires Valid() && t < |tasks| && tasks[t].entry < |entries| && tasks[t].phase != Finished
      modifies `entries, `tasks
      ensures Valid() && Evolves(old(entries), old(tasks), entries, tasks)
      ensures entries == Settled(old(entries), old(tasks), t, outcome, now + staleTime)
      ensures old(tasks)[t].phase == Cancelled ==> entries == old(entries)
      ensures var e := tasks[t].entry;
              var x := old(entries)[e];
              var counts := old(tasks)[t].generation == x.generation;
              && (!counts || outcome.CancelledError? ==> entries == old(entries))
              && (counts && outcome.Result? ==> entries == old(entries)[e := x.(expires := now + staleTime,
                    snapshot := Snapshot(Some(outcome.data), false, None, x.snapshot.revision + 1))])
              && (counts && outcome.Failed? ==> entries == old(entries)[e := x.(
                    snapshot := Snapshot(x.snapshot.data, false, Some(outcome.error), x.snapshot.revision + 1))])
      ensures tasks == old(tasks)[t := old(tasks)[t].(phase := Finished)]
    {
      var e := tasks[t].entry;
      assert TaskOk(entries, tasks, table, t);
      if tasks[t].generation == entries[e].generation {
        if outcome.Result? {
          EditMeans(entries, tasks, table, order, e, entries[e].(expires := now + staleTime));
          entries := entries[e := entries[e].(expires := now + staleTime)];
          Publish(e, Some(outcome.data), false, None);
        } else if outcome.Failed? {
          Publish(e, entries[e].snapshot.data, false, Some(outcome.error));
        }
      }
      FinishMeans(entries, tasks, table, t);
      tasks := tasks[t := tasks[t].(phase := Finished)];
    }
  }

  /** The eviction loop at key number `i`: the survivors so far, and what is still to be looked at. */
  ghost predicate Left<K(!new)>(result: seq<K>, kept: seq<K>, order: seq<K>, i: nat, key: K, excess: int, idle: set<K>)
    requires i <= |order|
  {
    result == kept + Evict(order[i..], key, excess, idle)
  }

  lemma EvictStep<K(!new)>(result: seq<K>, kept: seq<K>, order: seq<K>, i: nat, key: K, excess: int, idle: set<K>)
    requires i < |order| && excess > 0 && Left(result, kept, order, i, key, excess, idle)
    ensures if order[i] != key && order[i] in idle then Left(result, kept, order, i + 1, key, excess - 1, idle)
            else Left(result, kept + [order[i]], order, i + 1, key, excess, idle)
  {
    assert order[i..][0] == order[i] && order[i..][1..] == order[i + 1..];
    var later := Evict(order[i + 1..], key, excess, idle);
    assert kept + ([order[i]] + later) == (kept + [order[i]]) + later;
  }

  lemma EvictDone<K(!new)>(result: seq<K>, kept: seq<K>, order: seq<K>, i: nat, key: K, excess: int, idle: set<K>)
    requires i <= |order| && Left(result, kept, order, i, key, excess, idle) && (i == |order| || excess <= 0)
    ensures result == kept + order[i..]
  {
  }
}
