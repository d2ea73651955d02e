/** A keyed list that publishes its edits through a bounded change log. */
module ListChanges {
  import opened Wrappers

  type Key = string

  /** An item under its key, with the number of times it has been set. */
  datatype Entry<T> = Entry(key: Key, item: T, revision: nat)

  datatype Change<T> =
    | Insert(index: nat, entry: Entry<T>)
    | Update(entry: Entry<T>)
    | Delete(key: Key)
    | Move(key: Key, index: nat)
    | Reset

  /** The list as a reader sees it. */
  datatype View<T> = View(keys: seq<Key>, entries: map<Key, Entry<T>>)

  datatype Error = IndexError | ValueError | KeyError

  datatype Outcome<+V> = Done(value: V) | Raised(error: Error)

  ghost predicate Distinct(keys: seq<Key>) {
    forall i, j :: 0 <= i < j < |keys| ==> keys[i] != keys[j]
  }

  /** Every key once, each with an entry under its own name. */
  ghost predicate Consistent<T>(v: View<T>) {
    && Distinct(v.keys)
    && (forall k :: k in v.keys <==> k in v.entries)
    && (forall k <- v.entries :: v.entries[k].key == k && k != "")
  }

  function Without(keys: seq<Key>, k: Key): seq<Key> {
    if keys == [] then []
    else if keys[0] == k then keys[1..]
    else [keys[0]] + Without(keys[1..], k)
  }

  function InsertAt(keys: seq<Key>, i: nat, k: Key): seq<Key> {
    if i <= |keys| then keys[..i] + [k] + keys[i..] else keys
  }

  /** How a subscriber applies one published change to its copy. */
  function Apply<T>(v: View<T>, c: Change<T>): View<T> {
    match c
    case Insert(i, e) => View(InsertAt(v.keys, i, e.key), v.entries[e.key := e])
    case Update(e) => View(v.keys, v.entries[e.key := e])
    case Delete(k) => View(Without(v.keys, k), v.entries - {k})
    case Move(k, i) => View(InsertAt(Without(v.keys, k), i, k), v.entries)
    case Reset => View([], map[])
  }

  function Replay<T>(v: View<T>, changes: seq<Change<T>>): View<T>
    decreases |changes|
  {
    if changes == [] then v else Replay(Apply(v, changes[0]), changes[1..])
  }

  lemma {:induction false} ReplayAppend<T>(v: View<T>, changes: seq<Change<T>>, c: Change<T>)
    ensures Replay(v, changes + [c]) == Apply(Replay(v, changes), c)
    decreases |changes|
  {
    if changes == [] {
      assert (changes + [c])[1..] == [];
    } else {
      assert (changes + [c])[1..] == changes[1..] + [c];
      ReplayAppend(Apply(v, changes[0]), changes[1..], c);
    }
  }

  // -- removing a key from a list of distinct keys --

  lemma {:induction false} WithoutMeans(keys: seq<Key>, k: Key)
    requires Distinct(keys)
    ensures Distinct(Without(keys, k))
    ensures forall x :: x in Without(keys, k) <==> x in keys && x != k
    ensures k in keys ==> |Without(keys, k)| == |keys| - 1
    ensures k !in keys ==> Without(keys, k) == keys
  {
    if keys != [] {
      var rest := keys[1..];
      assert forall i :: 0 <= i < |rest| ==> rest[i] == keys[i + 1];
      assert keys[0] !in rest;
      assert forall x :: x in keys <==> x == keys[0] || x in rest;
      WithoutMeans(rest, k);
    }
  }

  lemma {:induction false} WithoutAt(keys: seq<Key>, i: nat)
    requires Distinct(keys) && i < |keys|
    ensures Without(keys, keys[i]) == keys[..i] + keys[i + 1..]
  {
    if i > 0 {
      var rest := keys[1..];
      assert rest[i - 1] == keys[i] && keys[0] != keys[i];
      WithoutAt(rest, i - 1);
      assert rest[..i - 1] == keys[1..i] && rest[i..] == keys[i + 1..];
      assert keys[..i] == [keys[0]] + keys[1..i];
    }
  }

  lemma InsertMeans(keys: seq<Key>, i: nat, k: Key)
    requires Distinct(keys) && k !in keys && i <= |keys|
    ensures Distinct(InsertAt(keys, i, k)) && InsertAt(keys, i, k)[i] == k
    ensures forall x :: x in InsertAt(keys, i, k) <==> x in keys || x == k
  {
    var r := InsertAt(keys, i, k);
    assert forall j :: 0 <= j < |r| ==> r[j] == if j < i then keys[j] else if j == i then k else keys[j - 1];
    forall x | x in keys
      ensures x in r
    {
      var j :| 0 <= j < |keys| && keys[j] == x;
      assert r[if j < i then j else j + 1] == x;
    }
  }

  /** A change that a mutator may publish in the state `v`. */
  predicate Applicable<T>(v: View<T>, c: Change<T>) {
    match c
    case Insert(i, e) => i <= |v.keys| && e.key !in v.keys && e.key != ""
    case Update(e) => e.key in v.keys
    case Delete(k) => k in v.keys
    case Move(k, i) => k in v.keys && i < |v.keys|
    case Reset => true
  }

  lemma ApplyConsistent<T>(v: View<T>, c: Change<T>)
    requires Consistent(v) && Applicable(v, c)
    ensures Consistent(Apply(v, c))
  {
    match c
    case Insert(i, e) => InsertMeans(v.keys, i, e.key);
    case Update(_) =>
    case Delete(k) => WithoutMeans(v.keys, k);
    case Move(k, i) =>
      WithoutMeans(v.keys, k);
      InsertMeans(Without(v.keys, k), i, k);
    case Reset =>
  }

  /** The first position of a key. */
  function IndexOf(keys: seq<Key>, k: Key): (i: nat)
    requires k in keys
    ensures i < |keys| && keys[i] == k && k !in keys[..i]
  {
    if keys[0] == k then 0 else 1 + IndexOf(keys[1..], k)
  }

  /** `after` is `keys` without `k`, in the same order. */
  ghost predicate Dropped(keys: seq<Key>, k: Key, after: seq<Key>) {
    k in keys && after == keys[..IndexOf(keys, k)] + keys[IndexOf(keys, k) + 1..]
  }

  /** `after` has `k` at `index`, and the other keys in the order of `keys`. */
  ghost predicate Moved(keys: seq<Key>, k: Key, index: nat, after: seq<Key>) {
    |after| == |keys| && index < |keys| && after[index] == k && Dropped(keys, k, after[..index] + after[index + 1..])
  }

  lemma DroppedMeans(keys: seq<Key>, k: Key)
    requires Distinct(keys) && k in keys
    ensures Dropped(keys, k, Without(keys, k))
  {
    WithoutAt(keys, IndexOf(keys, k));
  }

  lemma InsertedOut(rest: seq<Key>, i: nat, k: Key)
    requires i <= |rest|
    ensures var r := InsertAt(rest, i, k); |r| == |rest| + 1 && r[i] == k && r[..i] + r[i + 1..] == rest
  {
    var r := InsertAt(rest, i, k);
    assert r[..i] == rest[..i] && r[i + 1..] == rest[i..];
  }

  lemma MovedMeans(keys: seq<Key>, k: Key, index: nat)
    requires Distinct(keys) && k in keys && index < |keys|
    ensures Moved(keys, k, index, InsertAt(Without(keys, k), index, k))
  {
    WithoutAt(keys, IndexOf(keys, k));
    WithoutMeans(keys, k);
    InsertedOut(Without(keys, k), index, k);
  }

  /** Takes out the key at `before` and puts it back at `index`. */
  method Rearrange(keys: seq<Key>, before: nat, index: nat) returns (moved: seq<Key>)
    requires Distinct(keys) && before < |keys| && index < |keys|
    ensures moved == InsertAt(Without(keys, keys[before]), index, keys[before])
  {
    WithoutAt(keys, before);
    var rest := keys[..before] + keys[before + 1..];
    return rest[..index] + [keys[before]] + rest[index..];
  }

  /** A move puts the key at its final index and keeps the order of all the others. */
  lemma MoveMeans<T>(v: View<T>, k: Key, i: nat)
    requires Consistent(v) && Applicable(v, Move(k, i))
    ensures |Apply(v, Move(k, i)).keys| == |v.keys| && Apply(v, Move(k, i)).keys[i] == k
    ensures Without(Apply(v, Move(k, i)).keys, k) == Without(v.keys, k)
  {
    WithoutMeans(v.keys, k);
    var w := Without(v.keys, k);
    InsertMeans(w, i, k);
    var r := InsertAt(w, i, k);
    assert Without(r, k) == w by {
      WithoutAt(r, i);
      assert r[..i] == w[..i] && r[i + 1..] == w[i..];
    }
  }

  // -- the log as a function of the whole history --

  /** `past[r]` is the list as of revision `r`; `log[r]` is the change from there to `r + 1`. */
  ghost predicate History<T(!new)>(past: seq<View<T>>, log: seq<Change<T>>) {
    && |past| == |log| + 1
    && forall r :: 0 <= r < |log| ==> past[r + 1] == Apply(past[r], log[r])
  }

  lemma HistoryAppend<T(!new)>(past: seq<View<T>>, log: seq<Change<T>>, v: View<T>, c: Change<T>)
    requires History(past, log) && v == Apply(past[|log|], c)
    ensures History(past + [v], log + [c])
  {
  }

  /** The last changes of the log, each with the revision it produced. */
  ghost predicate TailOf<T(!new)>(history: seq<(nat, Change<T>)>, log: seq<Change<T>>) {
    && |history| <= |log|
    && forall i :: 0 <= i < |history| ==> history[i] == (|log| - |history| + i + 1, log[|log| - |history| + i])
  }

  lemma TailAppend<T(!new)>(history: seq<(nat, Change<T>)>, log: seq<Change<T>>, c: Change<T>)
    requires TailOf(history, log)
    ensures TailOf(history + [(|log| + 1, c)], log + [c])
    ensures TailOf((history + [(|log| + 1, c)])[1..], log + [c])
  {
  }

  lemma {:induction false} ReplayHistory<T(!new)>(past: seq<View<T>>, log: seq<Change<T>>, from: nat, upto: nat)
    requires History(past, log) && from <= upto <= |log|
    ensures Replay(past[from], log[from..upto]) == past[upto]
    decreases upto
  {
    if from == upto {
      assert log[from..upto] == [];
    } else {
      var init, last := log[from..upto - 1], log[upto - 1];
      ReplayHistory(past, log, from, upto - 1);
      ReplayAppend(past[from], init, last);
      assert log[from..upto] == init + [last];
      assert upto == upto - 1 + 1;
    }
  }

  lemma SinceReplays<T(!new)>(past: seq<View<T>>, log: seq<Change<T>>, since: nat)
    requires History(past, log) && since <= |log|
    ensures log[since..|log|] == log[since..] && Replay(past[since], log[since..]) == past[|log|]
  {
    assert log[since..|log|] == log[since..];
    ReplayHistory(past, log, since, |log|);
  }

  /** A list with its past: what an operation may have changed. */
  datatype Snapshot<T> = Snapshot(view: View<T>, past: seq<View<T>>, log: seq<Change<T>>, published: seq<nat>, batchDepth: nat)

  lemma AppendConsistent<T>(v: View<T>, e: Entry<T>)
    requires Consistent(v) && e.key != "" && e.key !in v.entries
    ensures Consistent(View(v.keys + [e.key], v.entries[e.key := e]))
  {
  }

  /** The initial contents, in order; refused exactly when some key is empty or comes twice. */
  method Collect<T>(items: seq<T>, keyOf: T -> Key) returns (r: Outcome<View<T>>)
    ensures r == Raised(ValueError) <==> Refused(items, keyOf)
    ensures !Refused(items, keyOf) ==> r.Done? && Consistent(r.value) && |r.value.keys| == |items|
    ensures r.Done? ==> forall i :: 0 <= i < |items| ==>
              r.value.keys[i] == keyOf(items[i]) && r.value.keys[i] in r.value.entries &&
              r.value.entries[r.value.keys[i]] == Entry(r.value.keys[i], items[i], 1)
  {
    var v := View([], map[]);
    for i := 0 to |items|
      invariant Consistent(v) && |v.keys| == i
      invariant forall j :: 0 <= j < i ==>
                  v.keys[j] == keyOf(items[j]) && v.keys[j] != "" && v.entries[v.keys[j]] == Entry(v.keys[j], items[j], 1)
    {
      var name := keyOf(items[i]);
      if name == "" || name in v.entries {
        assert name != "" ==> exists j :: 0 <= j < i && keyOf(items[j]) == keyOf(items[i]);
        return Raised(ValueError);
      }
      AppendConsistent(v, Entry(name, items[i], 1));
      v := View(v.keys + [name], v.entries[name := Entry(name, items[i], 1)]);
    }
    return Done(v);
  }

  predicate Refused<T>(items: seq<T>, keyOf: T -> Key) {
    || (exists i :: 0 <= i < |items| && keyOf(items[i]) == "")
    || (exists i, j :: 0 <= i < j < |items| && keyOf(items[i]) == keyOf(items[j]))
  }

  class ListData<T(!new)> {
    const keyOf: T -> Key
    const limit: nat
    var keys: seq<Key>
    var entries: map<Key, Entry<T>>
    var history: seq<(nat, Change<T>)>
    var revision: nat
    var batchDepth: nat
    var notified: nat
    var published: seq<nat>            // the revision at each notification of the listeners
    ghost var past: seq<View<T>>
    ghost var log: seq<Change<T>>

    ghost function Now(): View<T>
      reads this
    {
      View(keys, entries)
    }

    /** The bounded log is the tail of everything that ever happened. */
    ghost predicate Valid()
      reads this
    {
      && limit >= 1 && Consistent(Now())
      && History(past, log) && revision == |log| && past[revision] == Now()
      && |history| <= limit
      && (|history| < limit ==> |history| == revision)
      && TailOf(history, log)
      && notified <= revision && (batchDepth == 0 ==> notified == revision)
    }

    constructor (items: seq<T>, keyOf: T -> Key, limit: nat)
      requires limit >= 1 && !Refused(items, keyOf)
      ensures Valid() && this.limit == limit && this.keyOf == keyOf && revision == 0 && batchDepth == 0 && published == []
      ensures |keys| == |items| && forall i :: 0 <= i < |items| ==> keys[i] == keyOf(items[i])
      ensures forall i :: 0 <= i < |items| ==> entries[keys[i]] == Entry(keys[i], items[i], 1)
    {
      this.keyOf, this.limit := keyOf, limit;
      history, revision, batchDepth, notified, published := [], 0, 0, 0, [];
      var r := Collect(items, keyOf);
      keys, entries := r.value.keys, r.value.entries;
      past, log := [r.value], [];
    }

    /** Publishes a change already made to `keys` and `entries`; the oldest one may fall out of the log. */
    method Record(c: Change<T>, ghost before: View<T>)
      requires limit >= 1 && Consistent(Now()) && Now() == Apply(before, c)
      requires History(past, log) && revision == |log| && past[revision] == before
      requires |history| <= limit && (|history| < limit ==> |history| == revision) && TailOf(history, log)
      requires notified <= revision && (batchDepth == 0 ==> notified == revision)
      modifies `history, `revision, `notified, `published, `past, `log
      ensures Valid() && past == old(past) + [Now()] && log == old(log) + [c]
      ensures published == if batchDepth == 0 then old(published) + [revision] else old(published)
    {
      TailAppend(history, log, c);
      HistoryAppend(past, log, Now(), c);
      revision := revision + 1;
      history := history + [(revision, c)];
      if |history| > limit {
        history := history[1..];
      }
      past, log := past + [Now()], log + [c];
      Notify();
    }

    method Notify()
      modifies `notified, `published
      requires notified <= revision
      ensures notified == if batchDepth == 0 then revision else old(notified)
      ensures published == if batchDepth == 0 && old(notified) != revision then old(published) + [revision] else old(published)
    {
      if batchDepth != 0 || notified == revision {
        return;
      }
      notified := revision;
      published := published + [revision];
    }

    method EnterBatch()
      requires Valid()
      modifies `batchDepth
      ensures Valid() && batchDepth == old(batchDepth) + 1
    {
      batchDepth := batchDepth + 1;
    }

    /** Leaving the outermost batch notifies once, if anything changed since the last notification. */
    method LeaveBatch()
      requires Valid() && batchDepth > 0
      modifies `batchDepth, `notified, `published
      ensures Valid() && batchDepth == old(batchDepth) - 1
      ensures published == if batchDepth == 0 && old(notified) != revision then old(published) + [revision] else old(published)
    {
      batchDepth := batchDepth - 1;
      Notify();
    }

    ghost function State(): Snapshot<T>
      reads this
    {
      Snapshot(Now(), past, log, published, batchDepth)
    }

    /** One change happened since `s`, and subscribers outside a batch were told. */
    ghost predicate Published(s: Snapshot<T>, c: Change<T>)
      reads this
    {
      && Valid() && Now() == Apply(s.view, c) && log == s.log + [c] && past == s.past + [Now()]
      && batchDepth == s.batchDepth
      && published == if batchDepth == 0 then s.published + [revision] else s.published
    }

    method InsertItem(index: int, item: T) returns (r: Outcome<()>)
      requires Valid()
      modifies this
      ensures r == if !(0 <= index <= |old(keys)|) then Raised(IndexError)
                   else if keyOf(item) == "" || keyOf(item) in old(entries) then Raised(ValueError) else Done(())
      ensures r.Raised? ==> (Valid() && State() == old(State()))
      ensures r.Done? ==> keys == old(keys)[..index] + [keyOf(item)] + old(keys)[index..]
      ensures r.Done? ==> entries == old(entries)[keyOf(item) := Entry(keyOf(item), item, 1)]
      ensures r.Done? ==> Published(old(State()), Insert(index, Entry(keyOf(item), item, 1)))
    {
      if !(0 <= index <= |keys|) {
        return Raised(IndexError);
      }
      var name := keyOf(item);
      if name == "" || name in entries {
        return Raised(ValueError);
      }
      ghost var before := Now();
      var e := Entry(name, item, 1);
      ApplyConsistent(before, Insert(index, e));
      entries := entries[name := e];
      keys := keys[..index] + [name] + keys[index..];
      Record(Insert(index, e), before);
      return Done(());
    }

    method UpdateItem(key: Key, item: T) returns (r: Outcome<()>)
      requires Valid()
      modifies this
      ensures r == if key !in old(entries) then Raised(KeyError)
                   else if keyOf(item) != key then Raised(ValueError) else Done(())
      ensures r.Raised? ==> (Valid() && State() == old(State()))
      ensures r.Done? ==> keys == old(keys)
      ensures r.Done? ==> entries == old(entries)[key := Entry(key, item, old(entries)[key].revision + 1)]
      ensures r.Done? ==> Published(old(State()), Update(Entry(key, item, old(entries)[key].revision + 1)))
    {
      if key !in entries {
        return Raised(KeyError);
      }
      if keyOf(item) != key {
        return Raised(ValueError);
      }
      ghost var before := Now();
      var e := Entry(key, item, entries[key].revision + 1);
      ApplyConsistent(before, Update(e));
      entries := entries[key := e];
      Record(Update(e), before);
      return Done(());
    }

    method Remove(key: Key) returns (r: Outcome<T>)
      requires Valid()
      modifies this
      ensures r == if key in old(entries) then Done(old(entries)[key].item) else Raised(KeyError)
      ensures r.Raised? ==> (Valid() && State() == old(State()))
      ensures r.Done? ==> Dropped(old(keys), key, keys) && entries == old(entries) - {key}
      ensures r.Done? ==> Published(old(State()), Delete(key))
    {
      if key !in entries {
        return Raised(KeyError);
      }
      DroppedMeans(keys, key);
      var item := Forget(key);
      return Done(item);
    }

    method Forget(key: Key) returns (item: T)
      requires Valid() && key in entries
      modifies this
      ensures item == old(entries)[key].item && keys == Without(old(keys), key) && entries == old(entries) - {key}
      ensures Published(old(State()), Delete(key))
    {
      ghost var before := Now();
      item := entries[key].item;
      ApplyConsistent(before, Delete(key));
      entries := entries - {key};
      keys := Without(keys, key);
      Record(Delete(key), before);
    }

    method MoveItem(key: Key, index: int) returns (r: Outcome<()>)
      requires Valid()
      modifies this
      ensures r == if !(0 <= index < |old(keys)|) then Raised(IndexError)
                   else if key !in old(entries) then Raised(KeyError) else Done(())
      ensures r.Raised? || old(keys)[index] == key ==> Valid() && State() == old(State())
      ensures r.Done? ==> Moved(old(keys), key, index, keys) && entries == old(entries)
      ensures r.Done? && old(keys)[index] != key ==> Published(old(State()), Move(key, index))
    {
      if !(0 <= index < |keys|) {
        return Raised(IndexError);
      }
      if key !in entries {
        return Raised(KeyError);
      }
      var before := IndexOf(keys, key);
      MovedMeans(keys, key, index);
      if before != index {
        MoveTo(key, before, index);
      }
      return Done(());
    }

    method MoveTo(key: Key, before: nat, index: nat)
      requires Valid() && before < |keys| && index < |keys| && keys[before] == key
      modifies this
      ensures keys == InsertAt(Without(old(keys), key), index, key) && entries == old(entries)
      ensures Published(old(State()), Move(key, index))
    {
      ghost var was := Now();
      ApplyConsistent(was, Move(key, index));
      keys := Rearrange(keys, before, index);
      Record(Move(key, index), was);
    }

    method Clear()
      requires Valid()
      modifies this
      ensures keys == [] && entries == map[]
      ensures if old(keys) == [] then Valid() && State() == old(State()) else Published(old(State()), Reset)
    {
      if keys != [] {
        ghost var before := Now();
        keys, entries := [], map[];
        Record(Reset, before);
      }
    }

    /** The changes a subscriber that saw `since` must replay, or `None` when it needs a fresh snapshot. */
    method ChangesSince(since: int) returns (r: Option<seq<Change<T>>>)
      requires Valid()
      ensures r.None? <==> (since < 0 || since > revision || since < revision - |history| ||
                           (exists v :: since <= v < revision && log[v].Reset?))
      ensures r.Some? ==> r.value == log[since..] && Replay(past[since], r.value) == Now()
    {
      if since == revision {
        return Some([]);
      }
      if history == [] || since < history[0].0 - 1 || since > revision {
        return None;
      }
      var first := revision - |history|;
      var changes: seq<Change<T>> := [];
      var reset := false;
      for i := 0 to |history|
        invariant changes == if first + i <= since then [] else log[since..first + i]
        invariant reset <==> exists v :: since <= v < first + i && log[v].Reset?
      {
        assert history[i].1 == log[first + i];
        if history[i].0 > since {
          changes := changes + [history[i].1];
          reset := reset || history[i].1.Reset?;
        }
      }
      SinceReplays(past, log, since);
      if reset {
        return None;
      }
      return Some(changes);
    }
  }

  /** The list that Python's constructor makes, or the error it raises. */
  method NewListData<T(!new)>(items: seq<T>, keyOf: T -> Key, limit: int) returns (r: Outcome<ListData<T>>)
    ensures r == Raised(ValueError) <==> limit < 1 || Refused(items, keyOf)
    ensures r.Done? ==> fresh(r.value) && r.value.Valid() && r.value.limit == limit && r.value.keyOf == keyOf
    ensures r.Done? ==> |r.value.keys| == |items| && r.value.revision == 0
    ensures r.Done? ==> forall i :: 0 <= i < |items| ==>
              r.value.keys[i] == keyOf(items[i]) && r.value.keys[i] in r.value.entries &&
              r.value.entries[r.value.keys[i]] == Entry(r.value.keys[i], items[i], 1)
    ensures r.Raised? ==> r.error == ValueError
  {
    if limit < 1 {
      return Raised(ValueError);
    }
    var initial := Collect(items, keyOf);
    if initial.Raised? {
      return Raised(ValueError);
    }
    var list := new ListData(items, keyOf, limit);
    return Done(list);
  }
}
