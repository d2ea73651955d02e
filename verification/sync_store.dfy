/** The server's store: every change gets the next sequence number, and a returning client catches up. */
module SyncStore {
  import opened Wrappers
  import opened SyncMerge

  type Id = string

  datatype Stored = Stored(entry: Entry, seqNo: nat)

  type Table = map<Id, Stored>

  /** What a client does with a list of changes. */
  function Overlay(replica: Table, changes: seq<Stored>): Table {
    if changes == [] then replica
    else
      var last := changes[|changes| - 1];
      Overlay(replica, changes[..|changes| - 1])[last.entry.id := last]
  }

  /** Entries are filed under their own ids, with distinct numbers up to the cursor. */
  ghost predicate Numbered(entries: Table, cursor: nat) {
    && (forall id <- entries :: entries[id].entry.id == id && 0 < entries[id].seqNo <= cursor)
    && (forall id <- entries, jd <- entries :: entries[id].seqNo == entries[jd].seqNo ==> id == jd)
  }

  /** `past[c]` is the store as it was when the cursor was `c`. Since then, entries numbered up to `c`
      have not changed and none has gone. */
  ghost predicate Remembered(past: seq<Table>, entries: Table) {
    forall c :: 0 <= c < |past| ==> Unchanged(past[c], entries, c)
  }

  ghost predicate Unchanged(before: Table, entries: Table, c: nat) {
    && (forall id <- before :: id in entries)
    && (forall id <- entries :: entries[id].seqNo <= c ==> id in before && before[id] == entries[id])
  }

  lemma OneMoreChange(past: seq<Table>, entries: Table, cursor: nat, e: Entry)
    requires |past| == cursor + 1 && Numbered(entries, cursor) && Remembered(past, entries) && past[cursor] == entries
    ensures var later := entries[e.id := Stored(e, cursor + 1)];
            Numbered(later, cursor + 1) && Remembered(past + [later], later)
  {
    var later := entries[e.id := Stored(e, cursor + 1)];
    forall c | 0 <= c <= cursor + 1
      ensures Unchanged((past + [later])[c], later, c)
    {
      if c <= cursor { assert Unchanged(past[c], entries, c); }
    }
  }

  // -- the change feed --

  ghost predicate Rising(changes: seq<Stored>) {
    forall i, j :: 0 <= i < j < |changes| ==> changes[i].seqNo < changes[j].seqNo
  }

  ghost predicate FeedOf(changes: seq<Stored>, entries: Table, c: int) {
    && Rising(changes)
    && (forall s :: s in changes <==> s.entry.id in entries && entries[s.entry.id] == s && s.seqNo > c)
  }

  lemma {:induction false} OverlayMeans(replica: Table, changes: seq<Stored>, id: Id)
    requires forall i, j :: 0 <= i < j < |changes| ==> changes[i].entry.id != changes[j].entry.id
    ensures id in Overlay(replica, changes) <==> id in replica || exists s :: s in changes && s.entry.id == id
    ensures forall s :: s in changes && s.entry.id == id ==> Overlay(replica, changes)[id] == s
    ensures (forall s :: s in changes ==> s.entry.id != id) && id in replica ==> Overlay(replica, changes)[id] == replica[id]
  {
    if changes != [] {
      var init, last := changes[..|changes| - 1], changes[|changes| - 1];
      assert changes == init + [last];
      OverlayMeans(replica, init, id);
      forall s | s in changes && s.entry.id == id
        ensures Overlay(replica, changes)[id] == s
      {
        if s in init {
          var i :| 0 <= i < |init| && init[i] == s;
          assert changes[i].entry.id != last.entry.id;
        }
      }
    }
  }

  /** A replica of the store from any earlier cursor, overlaid with the changes since, is the store now. */
  lemma CatchUp(past: seq<Table>, entries: Table, cursor: nat, c: nat, changes: seq<Stored>)
    requires c < |past| && Numbered(entries, cursor) && Remembered(past, entries) && FeedOf(changes, entries, c)
    ensures Overlay(past[c], changes) == entries
  {
    assert Unchanged(past[c], entries, c);
    DistinctFeed(changes, entries, c);
    forall id: Id
      ensures id in Overlay(past[c], changes) <==> id in entries
      ensures id in entries ==> Overlay(past[c], changes)[id] == entries[id]
    {
      OverlayMeans(past[c], changes, id);
      if id in entries && entries[id].seqNo > c {
        assert entries[id] in changes;
      }
    }
  }

  lemma DistinctFeed(changes: seq<Stored>, entries: Table, c: int)
    requires FeedOf(changes, entries, c)
    ensures forall i, j :: 0 <= i < j < |changes| ==> changes[i].entry.id != changes[j].entry.id
  {
    forall i, j | 0 <= i < j < |changes|
      ensures changes[i].entry.id != changes[j].entry.id
    {
      assert changes[i] in changes && changes[j] in changes;
    }
  }

  /** The table without some entries still to be looked at. */
  function Except(entries: Table, left: set<Id>): Table {
    map id | id in entries && id !in left :: entries[id]
  }

  lemma ExceptStep(entries: Table, left: set<Id>, id: Id)
    requires id in left && left <= entries.Keys
    ensures Except(entries, left - {id}) == Except(entries, left)[id := entries[id]] && id !in Except(entries, left)
  {
  }

  method Feed(entries: Table, ghost cursor: nat, c: int) returns (changes: seq<Stored>)
    requires Numbered(entries, cursor)
    ensures FeedOf(changes, entries, c)
  {
    changes := [];
    var left := entries.Keys;
    while left != {}
      invariant left <= entries.Keys && FeedOf(changes, Except(entries, left), c)
      decreases left
    {
      var id :| id in left;
      var s := entries[id];
      ExceptStep(entries, left, id);
      if s.seqNo > c {
        InsertBySeqMembers(s, changes);
        InsertBySeqRising(s, changes);
        FeedWith(changes, Except(entries, left), c, s, InsertBySeq(s, changes));
        changes := InsertBySeq(s, changes);
      } else {
        SkipFeed(changes, Except(entries, left), c, s);
      }
      left := left - {id};
    }
    assert Except(entries, left) == entries;
  }

  lemma FeedWith(changes: seq<Stored>, taken: Table, c: int, s: Stored, longer: seq<Stored>)
    requires FeedOf(changes, taken, c) && s.entry.id !in taken && s.seqNo > c
    requires Rising(longer) && forall x :: x in longer <==> x == s || x in changes
    ensures FeedOf(longer, taken[s.entry.id := s], c)
  {
  }

  lemma SkipFeed(changes: seq<Stored>, taken: Table, c: int, s: Stored)
    requires FeedOf(changes, taken, c) && s.entry.id !in taken && s.seqNo <= c
    ensures FeedOf(changes, taken[s.entry.id := s], c)
  {
  }

  function Current(entries: Table, id: Id): (e: Option<Entry>)
    ensures id in entries ==> e == Some(entries[id].entry)
    ensures id !in entries ==> e == None
  {
    if id in entries then Some(entries[id].entry) else None
  }

  function InsertBySeq(s: Stored, l: seq<Stored>): seq<Stored> {
    if l == [] || s.seqNo < l[0].seqNo then [s] + l else [l[0]] + InsertBySeq(s, l[1..])
  }

  lemma {:induction false} InsertBySeqMembers(s: Stored, l: seq<Stored>)
    ensures forall x :: x in InsertBySeq(s, l) <==> x == s || x in l
  {
    if l != [] && !(s.seqNo < l[0].seqNo) {
      InsertBySeqMembers(s, l[1..]);
      assert l == [l[0]] + l[1..];
    }
  }

  lemma {:induction false} InsertBySeqRising(s: Stored, l: seq<Stored>)
    requires Rising(l) && forall i :: 0 <= i < |l| ==> l[i].seqNo != s.seqNo
    ensures Rising(InsertBySeq(s, l))
  {
    if l != [] && !(s.seqNo < l[0].seqNo) {
      var rest := l[1..];
      assert forall i :: 0 <= i < |rest| ==> rest[i] == l[i + 1];
      InsertBySeqRising(s, rest);
      PrependRising(l[0], InsertBySeq(s, rest));
    }
  }

  lemma PrependRising(first: Stored, r: seq<Stored>)
    requires Rising(r) && (r != [] ==> first.seqNo < r[0].seqNo)
    ensures Rising([first] + r)
  {
  }

  class JournalStore {
    var entries: Table
    var cursor: nat
    ghost var past: seq<Table>

    ghost predicate Valid()
      reads this
    {
      Numbered(entries, cursor) && |past| == cursor + 1 && past[cursor] == entries && Remembered(past, entries)
    }

    constructor ()
      ensures Valid() && entries == map[] && cursor == 0
    {
      entries, cursor, past := map[], 0, [map[]];
    }

    /** Stores the merge of what there was and what arrived; nothing at all happens when that changes nothing. */
    method Merge(incoming: Entry) returns (changed: Option<Entry>)
      requires Valid()
      modifies this
      ensures Valid()
      ensures incoming.id in entries && entries[incoming.id].entry == SyncMerge.Merge(Current(old(entries), incoming.id), incoming)
      ensures changed.Some? ==>
                cursor == old(cursor) + 1 && past == old(past) + [entries] &&
                entries == old(entries)[incoming.id := Stored(changed.value, cursor)]
      ensures changed.None? ==> entries == old(entries) && cursor == old(cursor) && past == old(past)
      ensures changed.None? <==>
                (var before := Current(old(entries), incoming.id); before == Some(SyncMerge.Merge(before, incoming)))
    {
      var current := Current(entries, incoming.id);
      var merged := MergeEntry(current, incoming);
      if current == Some(merged) {
        return None;
      }
      OneMoreChange(past, entries, cursor, merged);
      cursor := cursor + 1;
      entries := entries[merged.id := Stored(merged, cursor)];
      past := past + [entries];
      return Some(merged);
    }

    /** The entries changed after `c`, oldest change first. */
    method ChangesSince(c: int) returns (changes: seq<Stored>)
      requires Valid()
      ensures FeedOf(changes, entries, c)
      ensures 0 <= c <= cursor ==> Overlay(past[c], changes) == entries
    {
      changes := Feed(entries, cursor, c);
      if 0 <= c <= cursor { CatchUp(past, entries, cursor, c, changes); }
    }
  }
}
