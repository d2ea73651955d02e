/** Merging versions of one journal entry: newest fields win, attachments union by id. */
module SyncMerge {
  import opened Wrappers

  /** Zero and the empty path are the falsy values: not deleted, not uploaded. */
  datatype Attachment = Attachment(id: string, created: int, meta: int, deleted: nat, path: string)

  /** `fields` stands for everything but identity, stamp and attachments. */
  datatype Entry = Entry(id: string, updated: int, device: string, fields: int, attachments: seq<Attachment>)

  // -- stamps --

  predicate Less(a: string, b: string) {
    b != "" && (a == "" || a[0] < b[0] || (a[0] == b[0] && Less(a[1..], b[1..])))
  }

  lemma {:induction false} LessTotal(a: string, b: string)
    ensures a == b || Less(a, b) || Less(b, a)
    ensures !(Less(a, b) && Less(b, a)) && !Less(a, a)
  {
    if a != "" && b != "" {
      LessTotal(a[1..], b[1..]);
      if a[0] == b[0] && a[1..] == b[1..] { assert a == [a[0]] + a[1..] == b; }
    }
    LessIrreflexive(a);
  }

  lemma {:induction false} LessIrreflexive(a: string)
    ensures !Less(a, a)
  {
    if a != "" { LessIrreflexive(a[1..]); }
  }

  lemma {:induction false} LessTransitive(a: string, b: string, c: string)
    requires Less(a, b) && Less(b, c)
    ensures Less(a, c)
  {
    if a != "" && a[0] == b[0] && b[0] == c[0] { LessTransitive(a[1..], b[1..], c[1..]); }
  }

  /** Tuples compare by their first component, then by their second. */
  predicate PairLess(a: (int, string), b: (int, string)) {
    a.0 < b.0 || (a.0 == b.0 && Less(a.1, b.1))
  }

  lemma PairLessTotal(a: (int, string), b: (int, string))
    ensures a == b || PairLess(a, b) || PairLess(b, a)
    ensures !(PairLess(a, b) && PairLess(b, a)) && !PairLess(a, a)
  {
    LessTotal(a.1, b.1);
    LessTotal(a.1, a.1);
  }

  lemma PairLessTransitive(a: (int, string), b: (int, string), c: (int, string))
    requires PairLess(a, b) && PairLess(b, c)
    ensures PairLess(a, c)
  {
    if a.0 == b.0 == c.0 { LessTransitive(a.1, b.1, c.1); }
  }

  function Stamp(e: Entry): (int, string) {
    (e.updated, e.device)
  }

  // -- a dictionary by id, in insertion order --

  function Find(l: seq<Attachment>, id: string): Option<Attachment> {
    if l == [] then None
    else if l[0].id == id then Some(l[0])
    else Find(l[1..], id)
  }

  ghost predicate DistinctIds(l: seq<Attachment>) {
    forall i, j :: 0 <= i < j < |l| ==> l[i].id != l[j].id
  }

  /** Assignment: replaces the value under a known id, appends a new one. */
  function Put(l: seq<Attachment>, a: Attachment): seq<Attachment> {
    if l == [] then [a]
    else if l[0].id == a.id then [a] + l[1..]
    else [l[0]] + Put(l[1..], a)
  }

  function ById(l: seq<Attachment>): seq<Attachment> {
    if l == [] then [] else Put(ById(l[..|l| - 1]), l[|l| - 1])
  }

  /** The first truthy deletion time and upload path are kept. */
  function Combine(known: Attachment, item: Attachment): Attachment {
    known.(deleted := if known.deleted != 0 then known.deleted else item.deleted,
           path := if known.path != "" then known.path else item.path)
  }

  function Absorb(l: seq<Attachment>, item: Attachment): seq<Attachment> {
    match Find(l, item.id)
    case None => Put(l, item)
    case Some(known) => Put(l, Combine(known, item))
  }

  function AbsorbAll(l: seq<Attachment>, items: seq<Attachment>): seq<Attachment> {
    if items == [] then l else Absorb(AbsorbAll(l, items[..|items| - 1]), items[|items| - 1])
  }

  lemma {:induction false} FindPut(l: seq<Attachment>, a: Attachment, id: string)
    ensures Find(Put(l, a), id) == if id == a.id then Some(a) else Find(l, id)
  {
    if l != [] && l[0].id != a.id {
      FindPut(l[1..], a, id);
      assert Put(l, a)[1..] == Put(l[1..], a);
    }
  }

  lemma {:induction false} FindFirst(l: seq<Attachment>, id: string)
    ensures Find(l, id).Some? <==> exists a :: a in l && a.id == id
    ensures Find(l, id).Some? ==> Find(l, id).value in l && Find(l, id).value.id == id
  {
    if l != [] {
      assert l == [l[0]] + l[1..];
      FindFirst(l[1..], id);
    }
  }

  lemma {:induction false} FindOnly(l: seq<Attachment>, i: nat)
    requires DistinctIds(l) && i < |l|
    ensures Find(l, l[i].id) == Some(l[i])
  {
    if i > 0 {
      assert forall j :: 0 <= j < |l[1..]| ==> l[1..][j] == l[j + 1];
      FindOnly(l[1..], i - 1);
    }
  }

  lemma FindMeans(l: seq<Attachment>, id: string)
    ensures Find(l, id).Some? <==> exists a :: a in l && a.id == id
    ensures Find(l, id).Some? ==> Find(l, id).value in l && Find(l, id).value.id == id
    ensures DistinctIds(l) ==> forall a :: a in l && a.id == id ==> Find(l, id) == Some(a)
  {
    FindFirst(l, id);
    if DistinctIds(l) {
      forall a | a in l && a.id == id ensures Find(l, id) == Some(a) {
        var i :| 0 <= i < |l| && l[i] == a;
        FindOnly(l, i);
      }
    }
  }

  lemma {:induction false} PutDistinct(l: seq<Attachment>, a: Attachment)
    requires DistinctIds(l)
    ensures DistinctIds(Put(l, a))
    ensures forall x :: x in Put(l, a) ==> x.id == a.id || x in l
  {
    if l != [] && l[0].id != a.id {
      var rest := l[1..];
      assert forall i :: 0 <= i < |rest| ==> rest[i] == l[i + 1];
      PutDistinct(rest, a);
      assert forall i :: 0 <= i < |Put(rest, a)| ==> Put(rest, a)[i] in Put(rest, a);
    }
  }

  // -- sorting by creation time, then id --

  function SortKey(a: Attachment): (int, string) {
    (a.created, a.id)
  }

  function InsertSorted(a: Attachment, l: seq<Attachment>): seq<Attachment> {
    if l == [] || PairLess(SortKey(a), SortKey(l[0])) then [a] + l else [l[0]] + InsertSorted(a, l[1..])
  }

  function Sorted(l: seq<Attachment>): seq<Attachment> {
    if l == [] then [] else InsertSorted(l[|l| - 1], Sorted(l[..|l| - 1]))
  }

  ghost predicate Ascending(l: seq<Attachment>) {
    forall i, j :: 0 <= i < j < |l| ==> !PairLess(SortKey(l[j]), SortKey(l[i]))
  }

  lemma {:induction false} InsertSortedMeans(a: Attachment, l: seq<Attachment>)
    requires Ascending(l)
    ensures Ascending(InsertSorted(a, l))
    ensures forall x :: x in InsertSorted(a, l) <==> x == a || x in l
  {
    if l == [] {
    } else if PairLess(SortKey(a), SortKey(l[0])) {
      forall j | 0 <= j < |l|
        ensures !PairLess(SortKey(l[j]), SortKey(a))
      {
        PairLessTotal(SortKey(l[j]), SortKey(a));
        if PairLess(SortKey(l[j]), SortKey(a)) { PairLessTransitive(SortKey(l[j]), SortKey(a), SortKey(l[0])); }
      }
    } else {
      var rest := l[1..];
      assert l == [l[0]] + rest;
      assert forall i :: 0 <= i < |rest| ==> rest[i] == l[i + 1];
      InsertSortedMeans(a, rest);
      var r := InsertSorted(a, rest);
      forall j | 0 <= j < |r|
        ensures !PairLess(SortKey(r[j]), SortKey(l[0]))
      {
        assert r[j] in r;
      }
    }
  }

  lemma {:induction false} InsertSortedKeeps(a: Attachment, l: seq<Attachment>)
    ensures multiset(InsertSorted(a, l)) == multiset(l) + multiset{a}
  {
    if l != [] && !PairLess(SortKey(a), SortKey(l[0])) {
      assert l == [l[0]] + l[1..];
      InsertSortedKeeps(a, l[1..]);
    }
  }

  lemma {:induction false} SortedMeans(l: seq<Attachment>)
    ensures Ascending(Sorted(l)) && multiset(Sorted(l)) == multiset(l)
    ensures forall x :: x in Sorted(l) <==> x in l
  {
    if l != [] {
      var init, last := l[..|l| - 1], l[|l| - 1];
      assert l == init + [last];
      SortedMeans(init);
      InsertSortedMeans(last, Sorted(init));
      InsertSortedKeeps(last, Sorted(init));
      assert multiset(l) == multiset(init) + multiset{last};
    }
  }

  // -- the merge --

  function Merge(current: Option<Entry>, incoming: Entry): Entry {
    if current.None? then incoming else
    var c := current.value;
    var merged := if PairLess(Stamp(c), Stamp(incoming)) then incoming else c;
    merged.(attachments := Sorted(AbsorbAll(ById(c.attachments), incoming.attachments)))
  }

  /** The merge as the server runs it, filling the dictionary item by item. */
  method MergeEntry(current: Option<Entry>, incoming: Entry) returns (merged: Entry)
    ensures merged == Merge(current, incoming)
  {
    if current.None? {
      return incoming;
    }
    var c := current.value;
    merged := if PairLess(Stamp(c), Stamp(incoming)) then incoming else c;
    var byId: seq<Attachment> := [];
    for i := 0 to |c.attachments|
      invariant byId == ById(c.attachments[..i])
    {
      assert c.attachments[..i + 1][..i] == c.attachments[..i];
      byId := Put(byId, c.attachments[i]);
    }
    assert c.attachments[..|c.attachments|] == c.attachments;
    ghost var start := byId;
    for i := 0 to |incoming.attachments|
      invariant byId == AbsorbAll(start, incoming.attachments[..i])
    {
      assert incoming.attachments[..i + 1][..i] == incoming.attachments[..i];
      var item := incoming.attachments[i];
      var known := Find(byId, item.id);
      if known.None? {
        byId := Put(byId, item);
      } else {
        byId := Put(byId, Combine(known.value, item));
      }
    }
    assert incoming.attachments[..|incoming.attachments|] == incoming.attachments;
    merged := merged.(attachments := Sorted(byId));
  }

  // -- what a reader sees of an entry's attachments --

  predicate Has(e: Entry, id: string) {
    Find(e.attachments, id).Some?
  }

  predicate Tombstoned(e: Entry, id: string) {
    Find(e.attachments, id).Some? && Find(e.attachments, id).value.deleted != 0
  }

  predicate Uploaded(e: Entry, id: string) {
    Find(e.attachments, id).Some? && Find(e.attachments, id).value.path != ""
  }

  ghost predicate SomeDeleted(l: seq<Attachment>, id: string) {
    exists x :: x in l && x.id == id && x.deleted != 0
  }

  ghost predicate SomePath(l: seq<Attachment>, id: string) {
    exists x :: x in l && x.id == id && x.path != ""
  }

  ghost predicate SomeCopy(l: seq<Attachment>, id: string) {
    exists x :: x in l && x.id == id
  }

  lemma SomeSnoc(init: seq<Attachment>, last: Attachment, id: string)
    ensures SomeCopy(init + [last], id) <==> SomeCopy(init, id) || last.id == id
    ensures SomeDeleted(init + [last], id) <==> SomeDeleted(init, id) || (last.id == id && last.deleted != 0)
    ensures SomePath(init + [last], id) <==> SomePath(init, id) || (last.id == id && last.path != "")
  {
    assert forall x :: x in init + [last] <==> x in init || x == last;
  }

  /** Whether some copy of an attachment in a version's list says it is deleted, or uploaded. */
  ghost predicate SomeTombstoned(e: Entry, id: string) {
    SomeDeleted(e.attachments, id)
  }

  ghost predicate SomeUploaded(e: Entry, id: string) {
    SomePath(e.attachments, id)
  }

  /** The last copy of an attachment in a list. */
  function Last(l: seq<Attachment>, id: string): Option<Attachment> {
    if l == [] then None
    else if l[|l| - 1].id == id then Some(l[|l| - 1])
    else Last(l[..|l| - 1], id)
  }

  predicate LastTombstoned(e: Entry, id: string) {
    Last(e.attachments, id).Some? && Last(e.attachments, id).value.deleted != 0
  }

  predicate LastUploaded(e: Entry, id: string) {
    Last(e.attachments, id).Some? && Last(e.attachments, id).value.path != ""
  }

  lemma {:induction false} LastMeans(l: seq<Attachment>, id: string)
    ensures Last(l, id).Some? <==> exists a :: a in l && a.id == id
    ensures Last(l, id).Some? ==> Last(l, id).value in l && Last(l, id).value.id == id
  {
    if l != [] {
      assert l == l[..|l| - 1] + [l[|l| - 1]];
      LastMeans(l[..|l| - 1], id);
    }
  }

  /** A version that lists each attachment once says of it what its one copy says. */
  lemma OneCopySpeaks(e: Entry, id: string)
    requires Proper(e)
    ensures Tombstoned(e, id) == SomeTombstoned(e, id) == LastTombstoned(e, id)
    ensures Uploaded(e, id) == SomeUploaded(e, id) == LastUploaded(e, id)
  {
    FindMeans(e.attachments, id);
    LastMeans(e.attachments, id);
  }

  /** A version lists each attachment once. */
  ghost predicate Proper(e: Entry) {
    DistinctIds(e.attachments)
  }

  lemma {:induction false} ByIdKeepsLast(l: seq<Attachment>, id: string)
    ensures DistinctIds(ById(l)) && Find(ById(l), id) == Last(l, id)
  {
    if l != [] {
      var init, last := l[..|l| - 1], l[|l| - 1];
      ByIdKeepsLast(init, id);
      PutDistinct(ById(init), last);
      FindPut(ById(init), last, id);
    }
  }

  lemma AbsorbOne(m: seq<Attachment>, item: Attachment, id: string)
    requires DistinctIds(m)
    ensures DistinctIds(Absorb(m, item))
    ensures id != item.id ==> Find(Absorb(m, item), id) == Find(m, id)
    ensures Find(Absorb(m, item), item.id) ==
            Some(if Find(m, item.id).Some? then Combine(Find(m, item.id).value, item) else item)
  {
    FindMeans(m, item.id);
    var put := match Find(m, item.id) case None => item case Some(known) => Combine(known, item);
    PutDistinct(m, put);
    FindPut(m, put, id);
    FindPut(m, put, item.id);
  }

  lemma {:induction false} AbsorbMeans(l: seq<Attachment>, items: seq<Attachment>, id: string)
    requires DistinctIds(l)
    ensures DistinctIds(AbsorbAll(l, items))
    ensures var r, a := Find(AbsorbAll(l, items), id), Find(l, id);
            && (r.Some? <==> a.Some? || SomeCopy(items, id))
            && (r.Some? && r.value.deleted != 0 <==> (a.Some? && a.value.deleted != 0) || SomeDeleted(items, id))
            && (r.Some? && r.value.path != "" <==> (a.Some? && a.value.path != "") || SomePath(items, id))
  {
    if items != [] {
      var init, last := items[..|items| - 1], items[|items| - 1];
      AbsorbMeans(l, init, id);
      AbsorbOne(AbsorbAll(l, init), last, id);
      assert items == init + [last];
      SomeSnoc(init, last, id);
    }
  }

  lemma SortedFind(l: seq<Attachment>, id: string)
    requires DistinctIds(l)
    ensures DistinctIds(Sorted(l)) && Find(Sorted(l), id) == Find(l, id)
  {
    SortedMeans(l);
    DistinctPermutation(l, Sorted(l));
    FindMeans(l, id);
    FindMeans(Sorted(l), id);
  }

  lemma DistinctPermutation(l: seq<Attachment>, r: seq<Attachment>)
    requires DistinctIds(l) && multiset(l) == multiset(r)
    ensures DistinctIds(r)
  {
    forall i, j | 0 <= i < j < |r|
      ensures r[i].id != r[j].id
    {
      assert r[i] in multiset(r) && r[j] in multiset(r);
      if r[i].id == r[j].id {
        var x :| 0 <= x < |l| && l[x] == r[i];
        var y :| 0 <= y < |l| && l[y] == r[j];
        assert x == y;
        TwiceInMultiset(r, i, j);
        OnceInMultiset(l, x);
      }
    }
  }

  lemma TwiceInMultiset(s: seq<Attachment>, i: nat, j: nat)
    requires i < j < |s| && s[i] == s[j]
    ensures multiset(s)[s[i]] >= 2
  {
    assert s == s[..j] + [s[j]] + s[j + 1..];
    assert s[i] in s[..j];
  }

  lemma OnceInMultiset(s: seq<Attachment>, i: nat)
    requires DistinctIds(s) && i < |s|
    ensures multiset(s)[s[i]] == 1
  {
    assert s == s[..i] + [s[i]] + s[i + 1..];
    assert s[i] !in s[..i] && s[i] !in s[i + 1..];
  }

  /** One merge: the later stamp's fields, and the union of the attachments' ids, tombstones and uploads;
      of several copies of an attachment in the stored entry, the last one speaks. */
  lemma MergeMeans(c: Entry, v: Entry, id: string)
    ensures var m := Merge(Some(c), v);
            && Proper(m) && Ascending(m.attachments)
            && Stamp(m) == (if PairLess(Stamp(c), Stamp(v)) then Stamp(v) else Stamp(c))
            && m.fields == (if PairLess(Stamp(c), Stamp(v)) then v.fields else c.fields)
            && (Has(m, id) <==> Has(c, id) || Has(v, id))
            && (Tombstoned(m, id) <==> LastTombstoned(c, id) || SomeTombstoned(v, id))
            && (Uploaded(m, id) <==> LastUploaded(c, id) || SomeUploaded(v, id))
  {
    var start := ById(c.attachments);
    ByIdKeepsLast(c.attachments, id);
    LastMeans(c.attachments, id);
    AbsorbMeans(start, v.attachments, id);
    SortedMeans(AbsorbAll(start, v.attachments));
    SortedFind(AbsorbAll(start, v.attachments), id);
    FindMeans(v.attachments, id);
    FindMeans(c.attachments, id);
  }

  // -- any deliveries --

  /** What the server stores after versions arrive in this order. */
  function Final(vs: seq<Entry>): Entry
    requires vs != []
  {
    if |vs| == 1 then Merge(None, vs[0]) else Merge(Some(Final(vs[..|vs| - 1])), vs[|vs| - 1])
  }

  ghost predicate Greatest(v: Entry, vs: seq<Entry>) {
    v in vs && forall u :: u in vs ==> !PairLess(Stamp(v), Stamp(u))
  }

  /** The versions with the greatest stamp carry the same fields. */
  ghost predicate OneWinner(vs: seq<Entry>) {
    forall v, w :: Greatest(v, vs) && Greatest(w, vs) ==> v.fields == w.fields
  }

  ghost predicate SameVersions(vs: seq<Entry>, ws: seq<Entry>) {
    ws != [] && forall v :: v in vs <==> v in ws
  }

  ghost predicate AnyTombstoned(vs: seq<Entry>, id: string) {
    exists v :: v in vs && SomeTombstoned(v, id)
  }

  ghost predicate AnyUploaded(vs: seq<Entry>, id: string) {
    exists v :: v in vs && SomeUploaded(v, id)
  }

  ghost predicate AnyHas(vs: seq<Entry>, id: string) {
    exists v :: v in vs && Has(v, id)
  }

  lemma AnySplit(vs: seq<Entry>, i: nat, id: string)
    requires i <= |vs|
    ensures AnyHas(vs, id) <==> AnyHas(vs[..i], id) || AnyHas(vs[i..], id)
    ensures AnyTombstoned(vs, id) <==> AnyTombstoned(vs[..i], id) || AnyTombstoned(vs[i..], id)
    ensures AnyUploaded(vs, id) <==> AnyUploaded(vs[..i], id) || AnyUploaded(vs[i..], id)
  {
    assert vs == vs[..i] + vs[i..];
    assert forall v :: v in vs <==> v in vs[..i] || v in vs[i..];
  }

  lemma AnyOfOne(v: Entry, id: string)
    ensures AnyHas([v], id) <==> Has(v, id)
    ensures AnyTombstoned([v], id) <==> SomeTombstoned(v, id)
    ensures AnyUploaded([v], id) <==> SomeUploaded(v, id)
  {
    assert v in [v];
  }

  lemma GreatestStays(vs: seq<Entry>, init: seq<Entry>, last: Entry, c: Entry)
    requires forall v :: v in vs <==> v in init || v == last
    requires exists v :: v in init && Stamp(v) == Stamp(c) && v.fields == c.fields
    requires forall v :: v in init ==> !PairLess(Stamp(c), Stamp(v))
    ensures var m := if PairLess(Stamp(c), Stamp(last)) then last else c;
            && (exists v :: v in vs && Stamp(v) == Stamp(m) && v.fields == m.fields)
            && (forall v :: v in vs ==> !PairLess(Stamp(m), Stamp(v)))
  {
    PairLessTotal(Stamp(c), Stamp(last));
    PairLessTotal(Stamp(last), Stamp(last));
    forall v | v in init && PairLess(Stamp(c), Stamp(last)) ensures !PairLess(Stamp(last), Stamp(v)) {
      if PairLess(Stamp(last), Stamp(v)) { PairLessTransitive(Stamp(c), Stamp(last), Stamp(v)); }
    }
    var v :| v in init && Stamp(v) == Stamp(c) && v.fields == c.fields;
    assert v in vs;
  }

  /** Any run of deliveries ends with the fields of the greatest stamp. */
  lemma {:induction false} FinalStamp(vs: seq<Entry>)
    requires vs != []
    ensures exists v :: v in vs && Stamp(v) == Stamp(Final(vs)) && v.fields == Final(vs).fields
    ensures forall v :: v in vs ==> !PairLess(Stamp(Final(vs)), Stamp(v))
  {
    if |vs| == 1 {
      assert vs[0] in vs;
      PairLessTotal(Stamp(vs[0]), Stamp(vs[0]));
    } else {
      var init, last := vs[..|vs| - 1], vs[|vs| - 1];
      assert vs == init + [last];
      FinalStamp(init);
      MergeMeans(Final(init), last, "");
      GreatestStays(vs, init, last, Final(init));
    }
  }

  /** And with the union of what the versions say of each attachment; of several copies of one in the
      version that came first, the last copy speaks. */
  lemma {:induction false} FinalMeans(vs: seq<Entry>, id: string)
    requires vs != []
    ensures Has(Final(vs), id) <==> AnyHas(vs, id)
    ensures |vs| > 1 ==> Proper(Final(vs))
    ensures |vs| > 1 ==> (Tombstoned(Final(vs), id) <==> LastTombstoned(vs[0], id) || AnyTombstoned(vs[1..], id))
    ensures |vs| > 1 ==> (Uploaded(Final(vs), id) <==> LastUploaded(vs[0], id) || AnyUploaded(vs[1..], id))
  {
    var init, last := vs[..|vs| - 1], vs[|vs| - 1];
    AnyOfOne(last, id);
    if |vs| == 1 {
      assert vs == [last];
    } else {
      FinalMeans(init, id);
      MergeMeans(Final(init), last, id);
      if |init| > 1 { OneCopySpeaks(Final(init), id); }
      AnySplit(vs, |init|, id);
      assert vs[|init|..] == [last];
      AnySplit(vs[1..], |init| - 1, id);
      assert vs[1..][..|init| - 1] == init[1..] && vs[1..][|init| - 1..] == [last];
    }
  }

  /** The exact condition under which no tombstone is lost, whatever the versions list. */
  lemma TombstonesKeptExactlyWhen(vs: seq<Entry>, id: string)
    requires |vs| > 1
    ensures (Tombstoned(Final(vs), id) <==> AnyTombstoned(vs, id)) <==>
            (SomeTombstoned(vs[0], id) ==> LastTombstoned(vs[0], id) || AnyTombstoned(vs[1..], id))
  {
    FinalMeans(vs, id);
    LastMeans(vs[0].attachments, id);
    AnySplit(vs, 1, id);
    AnyOfOne(vs[0], id);
    assert vs[..1] == [vs[0]];
  }

  /** And the same for uploads. */
  lemma UploadsKeptExactlyWhen(vs: seq<Entry>, id: string)
    requires |vs| > 1
    ensures (Uploaded(Final(vs), id) <==> AnyUploaded(vs, id)) <==>
            (SomeUploaded(vs[0], id) ==> LastUploaded(vs[0], id) || AnyUploaded(vs[1..], id))
  {
    FinalMeans(vs, id);
    LastMeans(vs[0].attachments, id);
    AnySplit(vs, 1, id);
    AnyOfOne(vs[0], id);
    assert vs[..1] == [vs[0]];
  }

  /** Versions that list each attachment once: tombstoned, or uploaded, exactly when some version says so. */
  lemma FinalOfProper(vs: seq<Entry>, id: string)
    requires vs != [] && forall v :: v in vs ==> Proper(v)
    ensures Proper(Final(vs))
    ensures Tombstoned(Final(vs), id) <==> exists v :: v in vs && Tombstoned(v, id)
    ensures Uploaded(Final(vs), id) <==> exists v :: v in vs && Uploaded(v, id)
  {
    FinalMeans(vs, id);
    OneCopySpeaks(vs[0], id);
    AnySplit(vs, 1, id);
    AnyOfOne(vs[0], id);
    assert vs[..1] == [vs[0]];
    forall v | v in vs ensures Tombstoned(v, id) == SomeTombstoned(v, id) && Uploaded(v, id) == SomeUploaded(v, id) {
      OneCopySpeaks(v, id);
    }
  }

  /** The same versions in any order, any number of times each: same winner, same attachments,
      same tombstones and uploads. */
  lemma DeliveryOrderIrrelevant(vs: seq<Entry>, ws: seq<Entry>, id: string)
    requires vs != [] && SameVersions(vs, ws) && OneWinner(vs) && forall v :: v in vs ==> Proper(v)
    ensures Stamp(Final(vs)) == Stamp(Final(ws)) && Final(vs).fields == Final(ws).fields
    ensures Has(Final(vs), id) == Has(Final(ws), id)
    ensures Tombstoned(Final(vs), id) == Tombstoned(Final(ws), id)
    ensures Uploaded(Final(vs), id) == Uploaded(Final(ws), id)
  {
    SameFields(vs, ws);
    FinalMeans(vs, id);
    FinalMeans(ws, id);
    FinalOfProper(vs, id);
    FinalOfProper(ws, id);
  }

  lemma SameFields(vs: seq<Entry>, ws: seq<Entry>)
    requires vs != [] && SameVersions(vs, ws) && OneWinner(vs)
    ensures Stamp(Final(vs)) == Stamp(Final(ws)) && Final(vs).fields == Final(ws).fields
  {
    FinalStamp(vs);
    FinalStamp(ws);
    var v :| v in vs && Stamp(v) == Stamp(Final(vs)) && v.fields == Final(vs).fields;
    var w :| w in ws && Stamp(w) == Stamp(Final(ws)) && w.fields == Final(ws).fields;
    assert v in ws && w in vs;
    PairLessTotal(Stamp(v), Stamp(w));
    assert Greatest(v, vs) && Greatest(w, vs);
  }

  /** A version with the greatest stamp that arrives first is never replaced. */
  lemma {:induction false} FirstStays(vs: seq<Entry>)
    requires vs != [] && Greatest(vs[0], vs)
    ensures Stamp(Final(vs)) == Stamp(vs[0]) && Final(vs).fields == vs[0].fields
  {
    if |vs| > 1 {
      var init, last := vs[..|vs| - 1], vs[|vs| - 1];
      assert forall u :: u in init ==> u in vs;
      assert Greatest(init[0], init);
      FirstStays(init);
      MergeMeans(Final(init), last, "");
      assert last in vs;
    }
  }

  ghost predicate EndsWith(ws: seq<Entry>, fields: int) {
    ws != [] && Final(ws).fields == fields
  }

  lemma InFront(vs: seq<Entry>, v: Entry)
    requires Greatest(v, vs)
    ensures SameVersions(vs, [v] + vs) && EndsWith([v] + vs, v.fields)
  {
    var ws := [v] + vs;
    assert forall u :: u in ws <==> u in vs;
    assert ws[0] == v && Greatest(v, ws);
    FirstStays(ws);
  }

  lemma OtherEnd(vs: seq<Entry>, fields: int) returns (ws: seq<Entry>)
    requires !OneWinner(vs)
    ensures SameVersions(vs, ws) && !EndsWith(ws, fields)
  {
    var v, w :| Greatest(v, vs) && Greatest(w, vs) && v.fields != w.fields;
    if v.fields == fields {
      InFront(vs, w);
      ws := [w] + vs;
    } else {
      InFront(vs, v);
      ws := [v] + vs;
    }
  }

  /** Every order of delivery ends with the same fields exactly when the greatest stamp decides on them. */
  lemma FieldsSettledExactlyWhen(vs: seq<Entry>, fields: int)
    requires EndsWith(vs, fields)
    ensures (forall ws :: SameVersions(vs, ws) ==> EndsWith(ws, fields)) <==> OneWinner(vs)
  {
    if OneWinner(vs) {
      forall ws | SameVersions(vs, ws) ensures EndsWith(ws, fields) {
        SameFields(vs, ws);
      }
    } else {
      var ws := OtherEnd(vs, fields);
    }
  }

  // -- a version that the server already had --

  lemma {:induction false} PutNew(l: seq<Attachment>, a: Attachment)
    requires forall i :: 0 <= i < |l| ==> l[i].id != a.id
    ensures Put(l, a) == l + [a]
  {
    if l != [] { PutNew(l[1..], a); }
  }

  lemma {:induction false} ByIdSame(l: seq<Attachment>)
    requires DistinctIds(l)
    ensures ById(l) == l
  {
    if l != [] {
      var init := l[..|l| - 1];
      ByIdSame(init);
      PutNew(init, l[|l| - 1]);
    }
  }

  lemma {:induction false} PutSame(l: seq<Attachment>, a: Attachment)
    requires Find(l, a.id) == Some(a)
    ensures Put(l, a) == l
  {
    if l != [] && l[0].id != a.id { PutSame(l[1..], a); }
  }

  /** The list holds the attachment, and already says of it what this copy says. */
  predicate Knows(l: seq<Attachment>, item: Attachment) {
    var known := Find(l, item.id);
    known.Some? && (item.deleted != 0 ==> known.value.deleted != 0) && (item.path != "" ==> known.value.path != "")
  }

  lemma {:induction false} AbsorbKnown(l: seq<Attachment>, items: seq<Attachment>)
    requires forall i :: 0 <= i < |items| ==> Knows(l, items[i])
    ensures AbsorbAll(l, items) == l
  {
    if items != [] {
      var last := items[|items| - 1];
      AbsorbKnown(l, items[..|items| - 1]);
      FindMeans(l, last.id);
      var known := Find(l, last.id).value;
      assert Combine(known, last) == known;
      PutSame(l, known);
    }
  }

  lemma {:induction false} InsertLast(a: Attachment, l: seq<Attachment>)
    requires forall i :: 0 <= i < |l| ==> !PairLess(SortKey(a), SortKey(l[i]))
    ensures InsertSorted(a, l) == l + [a]
  {
    if l != [] { InsertLast(a, l[1..]); }
  }

  lemma {:induction false} SortedSame(l: seq<Attachment>)
    requires Ascending(l)
    ensures Sorted(l) == l
  {
    if l != [] {
      var init := l[..|l| - 1];
      SortedSame(init);
      InsertLast(l[|l| - 1], init);
    }
  }

  /** A merge changes nothing when the later stamp is stored and everything about attachments is known. */
  lemma NothingNew(c: Entry, v: Entry)
    requires Proper(c) && Ascending(c.attachments) && !PairLess(Stamp(c), Stamp(v))
    requires forall i :: 0 <= i < |v.attachments| ==> Knows(c.attachments, v.attachments[i])
    ensures Merge(Some(c), v) == c
  {
    ByIdSame(c.attachments);
    AbsorbKnown(c.attachments, v.attachments);
    SortedSame(c.attachments);
  }

  /** A version pushed again right after it was stored first is kept as it is exactly when it lists distinct
      attachments in ascending order. */
  lemma RepeatedPushKeptExactlyWhen(v: Entry)
    ensures Merge(Some(Merge(None, v)), v) == Merge(None, v) <==> Proper(v) && Ascending(v.attachments)
  {
    MergeMeans(v, v, "");
    PairLessTotal(Stamp(v), Stamp(v));
    if Proper(v) && Ascending(v.attachments) {
      forall i | 0 <= i < |v.attachments| ensures Knows(v.attachments, v.attachments[i]) {
        FindOnly(v.attachments, i);
      }
      NothingNew(v, v);
    }
  }

  /** Two attachments, the later one listed first: the version is stored again under a new number. */
  lemma RepeatedPushStoredAgain(x: Attachment, y: Attachment, v: Entry)
    requires x.id != y.id && x.created > y.created && v.attachments == [x, y]
    ensures Proper(v) && Merge(Some(Merge(None, v)), v) != Merge(None, v)
  {
    RepeatedPushKeptExactlyWhen(v);
    assert PairLess(SortKey(v.attachments[1]), SortKey(v.attachments[0]));
  }

  /** Once two versions have arrived, pushing one of them again changes nothing, unless it is the first and lists an
      attachment twice. */
  lemma KnownVersionIgnored(vs: seq<Entry>, v: Entry)
    requires |vs| > 1 && v in vs && (v in vs[1..] || Proper(v))
    ensures Merge(Some(Final(vs)), v) == Final(vs)
  {
    FinalStamp(vs);
    FinalSorted(vs);
    forall i | 0 <= i < |v.attachments| ensures Knows(Final(vs).attachments, v.attachments[i]) {
      var item := v.attachments[i];
      FinalMeans(vs, item.id);
      FindMeans(v.attachments, item.id);
      if v !in vs[1..] {
        assert v == vs[0];
        OneCopySpeaks(v, item.id);
      }
    }
    NothingNew(Final(vs), v);
  }

  // -- the attachments themselves, in order --

  /** What is fixed when an attachment is made. */
  function Meta(a: Attachment): (string, int, int) {
    (a.id, a.created, a.meta)
  }

  ghost predicate Listed(a: Attachment, l: seq<Attachment>) {
    exists b :: b in l && Meta(b) == Meta(a)
  }

  ghost predicate ListedIn(a: Attachment, vs: seq<Entry>) {
    exists v :: v in vs && Listed(a, v.attachments)
  }

  lemma {:induction false} PutMembers(l: seq<Attachment>, a: Attachment)
    ensures forall x :: x in Put(l, a) ==> x == a || x in l
  {
    if l != [] && l[0].id != a.id {
      PutMembers(l[1..], a);
      assert l == [l[0]] + l[1..];
    }
  }

  lemma {:induction false} ByIdMembers(l: seq<Attachment>)
    ensures forall x :: x in ById(l) ==> x in l
  {
    if l != [] {
      ByIdMembers(l[..|l| - 1]);
      PutMembers(ById(l[..|l| - 1]), l[|l| - 1]);
      assert l == l[..|l| - 1] + [l[|l| - 1]];
    }
  }

  lemma {:induction false} AbsorbListed(l: seq<Attachment>, items: seq<Attachment>)
    ensures forall x :: x in AbsorbAll(l, items) ==> Listed(x, l) || Listed(x, items)
  {
    if items == [] {
      assert forall x :: x in l ==> Listed(x, l);
    } else {
      var init, last := items[..|items| - 1], items[|items| - 1];
      var m := AbsorbAll(l, init);
      AbsorbListed(l, init);
      FindMeans(m, last.id);
      var put := match Find(m, last.id) case None => last case Some(known) => Combine(known, last);
      PutMembers(m, put);
      assert items == init + [last] && last in items;
      forall x | x in AbsorbAll(l, items) ensures Listed(x, l) || Listed(x, items) {
        var y := if x != put then x else if Find(m, last.id).Some? then Find(m, last.id).value else last;
        assert Meta(y) == Meta(x);
        if y in m {
          ListedAs(x, y, l, init, items);
        }
      }
    }
  }

  lemma ListedAs(x: Attachment, y: Attachment, l: seq<Attachment>, init: seq<Attachment>, items: seq<Attachment>)
    requires Meta(x) == Meta(y) && init <= items && (Listed(y, l) || Listed(y, init))
    ensures Listed(x, l) || Listed(x, items)
  {
    if Listed(y, l) {
      var b :| b in l && Meta(b) == Meta(y);
      assert Listed(x, l);
    } else {
      var b :| b in init && Meta(b) == Meta(y);
      assert b in items && Listed(x, items);
    }
  }

  /** Every attachment of the final entry was listed, with its metadata, by some version. */
  lemma {:induction false} FinalListed(vs: seq<Entry>)
    requires vs != []
    ensures forall a :: a in Final(vs).attachments ==> ListedIn(a, vs)
  {
    var init, last := vs[..|vs| - 1], vs[|vs| - 1];
    assert vs == init + [last];
    if |vs| == 1 {
      assert forall a :: a in last.attachments ==> Listed(a, last.attachments);
    } else {
      FinalListed(init);
      var c := Final(init);
      ByIdMembers(c.attachments);
      AbsorbListed(ById(c.attachments), last.attachments);
      SortedMeans(AbsorbAll(ById(c.attachments), last.attachments));
      forall a | a in Final(vs).attachments ensures ListedIn(a, vs) {
        if Listed(a, last.attachments) {
          assert last in vs;
        } else {
          var b :| b in ById(c.attachments) && Meta(b) == Meta(a);
          var v :| v in init && Listed(b, v.attachments);
          var x :| x in v.attachments && Meta(x) == Meta(b);
          assert v in vs && Listed(a, v.attachments);
        }
      }
    }
  }

  /** Two sorted lists of the same attachments are in the same order. */
  lemma {:induction false} SameOrder(l: seq<Attachment>, r: seq<Attachment>)
    requires DistinctIds(l) && DistinctIds(r) && Ascending(l) && Ascending(r)
    requires (forall a :: a in l ==> Listed(a, r)) && forall b :: b in r ==> Listed(b, l)
    ensures |l| == |r| && forall i :: 0 <= i < |l| ==> Meta(l[i]) == Meta(r[i])
  {
    NotEmpty(l, r);
    NotEmpty(r, l);
    if l != [] {
      SameHead(l, r);
      TailListed(l, r);
      TailListed(r, l);
      TailSorted(l);
      TailSorted(r);
      SameOrder(l[1..], r[1..]);
      SameSteps(l, r);
    }
  }

  lemma NotEmpty(l: seq<Attachment>, r: seq<Attachment>)
    requires forall a :: a in l ==> Listed(a, r)
    ensures l != [] ==> r != []
  {
    if l != [] {
      assert l[0] in l;
      var b :| b in r && Meta(b) == Meta(l[0]);
    }
  }

  lemma SameSteps(l: seq<Attachment>, r: seq<Attachment>)
    requires l != [] && r != [] && |l| == |r| && Meta(l[0]) == Meta(r[0])
    requires forall i :: 0 <= i < |l[1..]| ==> Meta(l[1..][i]) == Meta(r[1..][i])
    ensures forall i :: 0 <= i < |l| ==> Meta(l[i]) == Meta(r[i])
  {
    forall i | 0 < i < |l| ensures Meta(l[i]) == Meta(r[i]) {
      assert l[1..][i - 1] == l[i] && r[1..][i - 1] == r[i];
    }
  }

  lemma SameHead(l: seq<Attachment>, r: seq<Attachment>)
    requires l != [] && r != [] && DistinctIds(l) && DistinctIds(r) && Ascending(l) && Ascending(r)
    requires Listed(l[0], r) && Listed(r[0], l)
    ensures Meta(l[0]) == Meta(r[0])
  {
    var j :| 0 <= j < |r| && Meta(r[j]) == Meta(l[0]);
    var i :| 0 <= i < |l| && Meta(l[i]) == Meta(r[0]);
    PairLessTotal(SortKey(l[0]), SortKey(l[i]));
    PairLessTotal(SortKey(r[0]), SortKey(r[j]));
  }

  lemma TailListed(l: seq<Attachment>, r: seq<Attachment>)
    requires l != [] && r != [] && DistinctIds(l) && Meta(l[0]) == Meta(r[0]) && forall a :: a in l ==> Listed(a, r)
    ensures forall a :: a in l[1..] ==> Listed(a, r[1..])
  {
    forall a | a in l[1..] ensures Listed(a, r[1..]) {
      var i :| 0 <= i < |l[1..]| && l[1..][i] == a;
      assert l[i + 1] == a && a in l;
      var b :| b in r && Meta(b) == Meta(a);
      assert r == [r[0]] + r[1..];
    }
  }

  lemma TailSorted(l: seq<Attachment>)
    requires l != [] && DistinctIds(l) && Ascending(l)
    ensures DistinctIds(l[1..]) && Ascending(l[1..])
  {
    assert forall i :: 0 <= i < |l[1..]| ==> l[1..][i] == l[i + 1];
  }

  ghost predicate SameMetadata(v: Entry, w: Entry) {
    forall a, b :: a in v.attachments && b in w.attachments && a.id == b.id ==> Meta(a) == Meta(b)
  }

  /** An attachment's metadata is the same in every version that lists it. */
  ghost predicate MetadataFixed(vs: seq<Entry>) {
    forall v, w :: v in vs && w in vs ==> SameMetadata(v, w)
  }

  /** Once two versions have arrived, any order of the same versions ends with the same attachments, in the same order. */
  lemma SameAttachmentsInOrder(vs: seq<Entry>, ws: seq<Entry>)
    requires |vs| > 1 && |ws| > 1 && MetadataFixed(vs) && forall v :: v in vs <==> v in ws
    ensures var l, r := Final(vs).attachments, Final(ws).attachments;
            |l| == |r| && forall i :: 0 <= i < |l| ==>
              l[i].id == r[i].id && l[i].created == r[i].created && l[i].meta == r[i].meta
  {
    FinalSorted(vs);
    FinalSorted(ws);
    AttachmentsCarried(vs, ws);
    AttachmentsCarried(ws, vs);
    SameOrder(Final(vs).attachments, Final(ws).attachments);
  }

  lemma FinalSorted(vs: seq<Entry>)
    requires |vs| > 1
    ensures Proper(Final(vs)) && Ascending(Final(vs).attachments)
  {
    MergeMeans(Final(vs[..|vs| - 1]), vs[|vs| - 1], "");
  }

  lemma AttachmentsCarried(vs: seq<Entry>, ws: seq<Entry>)
    requires vs != [] && ws != [] && MetadataFixed(vs) && forall v :: v in vs <==> v in ws
    ensures forall a :: a in Final(vs).attachments ==> Listed(a, Final(ws).attachments)
  {
    FinalListed(vs);
    FinalListed(ws);
    forall a | a in Final(vs).attachments ensures Listed(a, Final(ws).attachments) {
      var b := Counterpart(vs, ws, a);
      var v :| v in vs && Listed(a, v.attachments);
      var x :| x in v.attachments && Meta(x) == Meta(a);
      var w :| w in ws && Listed(b, w.attachments);
      var y :| y in w.attachments && Meta(y) == Meta(b);
      assert SameMetadata(v, w);
      assert Meta(x) == Meta(y);
    }
  }

  lemma Counterpart(vs: seq<Entry>, ws: seq<Entry>, a: Attachment) returns (b: Attachment)
    requires vs != [] && ws != [] && a in Final(vs).attachments && forall v :: v in vs <==> v in ws
    ensures b in Final(ws).attachments && b.id == a.id
  {
    FinalMeans(vs, a.id);
    FinalMeans(ws, a.id);
    FindMeans(Final(vs).attachments, a.id);
    FindMeans(Final(ws).attachments, a.id);
    var v :| v in vs && Has(v, a.id);
    assert v in ws && AnyHas(ws, a.id);
    b := Find(Final(ws).attachments, a.id).value;
  }

  /** A stored version that lists one attachment twice: only the last copy survives a merge, so a
      tombstone in the first one is lost. */
  lemma RepeatedIdLosesTombstone(x: Attachment, y: Attachment, v: Entry)
    requires x.id == y.id && x.deleted != 0 && y.deleted == 0 && v.attachments == [x, y]
    ensures Tombstoned(v, x.id) && !Tombstoned(Merge(Some(v), v.(attachments := [])), x.id)
  {
    assert [x, y][..1] == [x];
    assert ById([x]) == Put([], x) by { assert [x][..0] == []; }
    assert ById([x, y]) == Put(ById([x]), y) == [y];
    assert AbsorbAll([y], []) == [y];
    assert [y][..0] == [];
    assert Sorted([y]) == [y];
  }
}
