/** The undo journal of an uncommitted render pass, over a heap of objects, containers and dictionaries. */
module RenderJournal {
  import opened Wrappers

  type Addr = nat

  /** A list, dict or set is held by reference; anything else is an opaque value. */
  datatype Val = Plain(v: int) | Box(a: Addr)

  type Contents = seq<int>

  /** What a reader of an attribute sees: the value, or the contents of its container. */
  datatype Deep = Scalar(v: int) | Items(c: Contents)

  type Fields = map<string, Val>

  /** What `seen` remembers: an attribute of an object, or an entry of a dictionary. */
  datatype Key = AttrKey(obj: Addr, name: string) | EntryKey(dict: Addr, key: string)

  datatype Undo =
    | RestoreFields(obj: Addr, values: map<string, Option<Val>>)   // `None`: the slot was missing
    | RestoreAttribute(obj: Addr, name: string, value: Val)
    | RestoreEntry(dict: Addr, key: string, saved: Option<Val>)

  function DeepOf(boxes: map<Addr, Contents>, v: Val): Deep {
    match v
    case Plain(x) => Scalar(x)
    case Box(a) => if a in boxes then Items(boxes[a]) else Scalar(0)
  }

  /** Two values look the same when they are the same number, or containers with the same contents. */
  lemma DeepMeans(boxes: map<Addr, Contents>, boxes': map<Addr, Contents>, v: Val, v': Val)
    requires (v.Box? ==> v.a in boxes) && (v'.Box? ==> v'.a in boxes')
    ensures DeepOf(boxes, v) == DeepOf(boxes', v') <==>
              if v.Plain? then v == v' else v'.Box? && boxes[v.a] == boxes'[v'.a]
  {
  }

  function Get(m: Fields, k: string): Option<Val> {
    if k in m then Some(m[k]) else None
  }

  // -- what an undo entry restores --

  predicate CoversAttr(u: Undo, o: Addr, n: string) {
    (u.RestoreFields? && u.obj == o && n in u.values) || (u.RestoreAttribute? && u.obj == o && u.name == n)
  }

  function AttrValue(u: Undo, o: Addr, n: string): Option<Val>
    requires CoversAttr(u, o, n)
  {
    if u.RestoreFields? then u.values[n] else Some(u.value)
  }

  /** The earliest value saved for an attribute: reversed, it is the last one written back. */
  function SavedAttr(undo: seq<Undo>, o: Addr, n: string): Option<Option<Val>> {
    if undo == [] then None
    else if CoversAttr(undo[0], o, n) then Some(AttrValue(undo[0], o, n))
    else SavedAttr(undo[1..], o, n)
  }

  function SavedEntry(undo: seq<Undo>, d: Addr, k: string): Option<Option<Val>> {
    if undo == [] then None
    else if undo[0].RestoreEntry? && undo[0].dict == d && undo[0].key == k then Some(undo[0].saved)
    else SavedEntry(undo[1..], d, k)
  }

  lemma {:induction false} SavedAppend(undo: seq<Undo>, u: Undo, o: Addr, n: string)
    ensures SavedAttr(undo + [u], o, n) ==
              if SavedAttr(undo, o, n).Some? then SavedAttr(undo, o, n)
              else if CoversAttr(u, o, n) then Some(AttrValue(u, o, n)) else None
    ensures SavedEntry(undo + [u], o, n) ==
              if SavedEntry(undo, o, n).Some? then SavedEntry(undo, o, n)
              else if u.RestoreEntry? && u.dict == o && u.key == n then Some(u.saved) else None
  {
    if undo == [] {
      assert (undo + [u])[1..] == [];
    } else {
      assert (undo + [u])[1..] == undo[1..] + [u];
      SavedAppend(undo[1..], u, o, n);
    }
  }

  // -- running undo entries, last first --

  function Patch(m: Fields, k: string, v: Option<Val>): Fields {
    if v.Some? then m[k := v.value] else m - {k}
  }

  function PatchAll(m: Fields, values: map<string, Option<Val>>): Fields {
    (m - values.Keys) + map n | n in values && values[n].Some? :: values[n].value
  }

  function ApplyObjs(objs: map<Addr, Fields>, u: Undo): map<Addr, Fields> {
    match u
    case RestoreFields(o, vs) => if o in objs then objs[o := PatchAll(objs[o], vs)] else objs
    case RestoreAttribute(o, n, v) => if o in objs then objs[o := objs[o][n := v]] else objs
    case RestoreEntry(_, _, _) => objs
  }

  function ApplyDicts(dicts: map<Addr, Fields>, u: Undo): map<Addr, Fields> {
    if u.RestoreEntry? && u.dict in dicts then dicts[u.dict := Patch(dicts[u.dict], u.key, u.saved)] else dicts
  }

  function UnwindObjs(objs: map<Addr, Fields>, undo: seq<Undo>): map<Addr, Fields> {
    if undo == [] then objs else ApplyObjs(UnwindObjs(objs, undo[1..]), undo[0])
  }

  function UnwindDicts(dicts: map<Addr, Fields>, undo: seq<Undo>): map<Addr, Fields> {
    if undo == [] then dicts else ApplyDicts(UnwindDicts(dicts, undo[1..]), undo[0])
  }

  /** Unwinding leaves the earliest saved value of what was captured, and everything else alone. */
  lemma {:induction false} UnwindAttr(objs: map<Addr, Fields>, undo: seq<Undo>, o: Addr, n: string)
    requires o in objs
    ensures UnwindObjs(objs, undo).Keys == objs.Keys
    ensures Get(UnwindObjs(objs, undo)[o], n) ==
              if SavedAttr(undo, o, n).Some? then SavedAttr(undo, o, n).value else Get(objs[o], n)
  {
    if undo != [] {
      UnwindAttr(objs, undo[1..], o, n);
    }
  }

  lemma {:induction false} UnwindEntry(dicts: map<Addr, Fields>, undo: seq<Undo>, d: Addr, k: string)
    requires d in dicts
    ensures UnwindDicts(dicts, undo).Keys == dicts.Keys
    ensures Get(UnwindDicts(dicts, undo)[d], k) ==
              if SavedEntry(undo, d, k).Some? then SavedEntry(undo, d, k).value else Get(dicts[d], k)
  {
    if undo != [] {
      UnwindEntry(dicts, undo[1..], d, k);
    }
  }

  // -- what is safe: saved as it was at the baseline, or still as it was --

  /** A saved value reads as the original did, through a container only the journal knows. */
  ghost predicate SavedCopy(boxes: map<Addr, Contents>, copies: set<Addr>, saved: Option<Val>, original: Option<Val>) {
    && saved.Some? == original.Some?
    && (saved.Some? ==> DeepOf(boxes, saved.value) == DeepOf(boxes, original.value))
    && (saved.Some? && saved.value.Box? ==> saved.value.a in copies)
  }

  ghost predicate AttrSafe(h: Heap, undo: seq<Undo>, o: Addr, n: string, was: Deep) {
    match SavedAttr(undo, o, n)
    case Some(s) => s.Some? && DeepOf(h.boxes, s.value) == was && (s.value.Box? ==> s.value.a in h.copies)
    case None => o in h.objs && n in h.objs[o] && DeepOf(h.boxes, h.objs[o][n]) == was
  }

  ghost predicate AttrsSafe(h: Heap, undo: seq<Undo>, base: map<Addr, map<string, Deep>>) {
    base.Keys <= h.objs.Keys && forall o <- base, n <- base[o] :: AttrSafe(h, undo, o, n, base[o][n])
  }

  ghost predicate EntrySafe(dicts: map<Addr, Fields>, undo: seq<Undo>, d: Addr, k: string, was: Option<Val>) {
    d in dicts && was == match SavedEntry(undo, d, k) case Some(s) => s case None => Get(dicts[d], k)
  }

  ghost predicate EntriesSafe(dicts: map<Addr, Fields>, undo: seq<Undo>, base: map<Addr, Fields>) {
    dicts.Keys == base.Keys && forall d <- base, k: string :: EntrySafe(dicts, undo, d, k, Get(base[d], k))
  }

  /** Objects by address, containers, and which containers are the journal's copies. */
  datatype Heap = Heap(objs: map<Addr, Fields>, boxes: map<Addr, Contents>, nextBox: Addr, copies: set<Addr>) {

    /** Attributes refer to real containers that are not the journal's. */
    ghost predicate Ok() {
      && copies <= boxes.Keys && (forall a <- boxes :: a < nextBox)
      && forall o <- objs, n <- objs[o] :: objs[o][n].Box? ==> objs[o][n].a in boxes && objs[o][n].a !in copies
    }

    /** More of the journal's copies, nothing else. */
    ghost predicate Extends(before: Heap) {
      && objs == before.objs && before.copies <= copies
      && (forall a <- before.boxes :: a in boxes && boxes[a] == before.boxes[a])
      && (forall a <- copies :: a in before.boxes ==> a in before.copies)
    }
  }

  lemma ExtendSafe(h: Heap, h': Heap, undo: seq<Undo>, base: map<Addr, map<string, Deep>>)
    requires h.Ok() && h'.Extends(h) && AttrsSafe(h, undo, base)
    ensures AttrsSafe(h', undo, base)
  {
    forall o, n | o in base && n in base[o]
      ensures AttrSafe(h', undo, o, n, base[o][n])
    {
      assert AttrSafe(h, undo, o, n, base[o][n]);
    }
  }

  lemma AppendSafe(h: Heap, undo: seq<Undo>, u: Undo, base: map<Addr, map<string, Deep>>)
    requires AttrsSafe(h, undo, base)
    requires forall o, n :: CoversAttr(u, o, n) ==>
               o in h.objs && SavedCopy(h.boxes, h.copies, AttrValue(u, o, n), Get(h.objs[o], n))
    ensures AttrsSafe(h, undo + [u], base)
  {
    forall o, n | o in base && n in base[o]
      ensures AttrSafe(h, undo + [u], o, n, base[o][n])
    {
      assert AttrSafe(h, undo, o, n, base[o][n]);
      SavedAppend(undo, u, o, n);
    }
  }

  lemma AppendEntriesSafe(dicts: map<Addr, Fields>, undo: seq<Undo>, u: Undo, base: map<Addr, Fields>)
    requires EntriesSafe(dicts, undo, base)
    requires u.RestoreEntry? && u.dict in dicts ==> u.saved == Get(dicts[u.dict], u.key)
    ensures EntriesSafe(dicts, undo + [u], base)
  {
    forall d, k: string | d in base
      ensures EntrySafe(dicts, undo + [u], d, k, Get(base[d], k))
    {
      assert EntrySafe(dicts, undo, d, k, Get(base[d], k));
      SavedAppend(undo, u, d, k);
    }
  }

  /** Writing a captured attribute, or one that was not there at the baseline, keeps everything safe. */
  lemma WriteSafe(h: Heap, undo: seq<Undo>, base: map<Addr, map<string, Deep>>, o: Addr, n: string, v: Val)
    requires AttrsSafe(h, undo, base) && o in h.objs
    requires o in base && n in base[o] ==> SavedAttr(undo, o, n).Some?
    ensures AttrsSafe(h.(objs := h.objs[o := h.objs[o][n := v]]), undo, base)
  {
    forall o', n' | o' in base && n' in base[o']
      ensures AttrSafe(h.(objs := h.objs[o := h.objs[o][n := v]]), undo, o', n', base[o'][n'])
    {
      assert AttrSafe(h, undo, o', n', base[o'][n']);
    }
  }

  /** Editing a container in place keeps everything safe when its holders were captured. */
  lemma EditSafe(h: Heap, undo: seq<Undo>, base: map<Addr, map<string, Deep>>, a: Addr, c: Contents)
    requires h.Ok() && AttrsSafe(h, undo, base) && a in h.boxes && a !in h.copies
    requires forall o <- base, n <- base[o] :: n in h.objs[o] && h.objs[o][n] == Box(a) ==> SavedAttr(undo, o, n).Some?
    ensures AttrsSafe(h.(boxes := h.boxes[a := c]), undo, base)
  {
    forall o, n | o in base && n in base[o]
      ensures AttrSafe(h.(boxes := h.boxes[a := c]), undo, o, n, base[o][n])
    {
      assert AttrSafe(h, undo, o, n, base[o][n]);
    }
  }

  lemma WriteEntrySafe(dicts: map<Addr, Fields>, undo: seq<Undo>, base: map<Addr, Fields>, d: Addr, k: string, v: Option<Val>)
    requires EntriesSafe(dicts, undo, base) && d in dicts && SavedEntry(undo, d, k).Some?
    ensures EntriesSafe(dicts[d := Patch(dicts[d], k, v)], undo, base)
  {
    forall d', k': string | d' in base
      ensures EntrySafe(dicts[d := Patch(dicts[d], k, v)], undo, d', k', Get(base[d'], k'))
    {
      assert EntrySafe(dicts, undo, d', k', Get(base[d'], k'));
    }
  }

  /** Rolling back a safe state restores every baseline attribute and exactly the baseline entries. */
  lemma UnwindRestores(h: Heap, dicts: map<Addr, Fields>, undo: seq<Undo>,
                       base: map<Addr, map<string, Deep>>, baseDicts: map<Addr, Fields>)
    requires AttrsSafe(h, undo, base) && EntriesSafe(dicts, undo, baseDicts)
    ensures UnwindDicts(dicts, undo) == baseDicts
    ensures forall o <- base, n <- base[o] ::
              o in UnwindObjs(h.objs, undo) && n in UnwindObjs(h.objs, undo)[o] &&
              DeepOf(h.boxes, UnwindObjs(h.objs, undo)[o][n]) == base[o][n]
  {
    forall o, n | o in base && n in base[o]
      ensures o in UnwindObjs(h.objs, undo) && n in UnwindObjs(h.objs, undo)[o] &&
              DeepOf(h.boxes, UnwindObjs(h.objs, undo)[o][n]) == base[o][n]
    {
      assert AttrSafe(h, undo, o, n, base[o][n]);
      UnwindAttr(h.objs, undo, o, n);
    }
    UnwindDictKeys(dicts, undo);
    forall d | d in baseDicts
      ensures UnwindDicts(dicts, undo)[d] == baseDicts[d]
    {
      forall k: string
        ensures Get(UnwindDicts(dicts, undo)[d], k) == Get(baseDicts[d], k)
      {
        assert EntrySafe(dicts, undo, d, k, Get(baseDicts[d], k));
        UnwindEntry(dicts, undo, d, k);
      }
      SameFields(UnwindDicts(dicts, undo)[d], baseDicts[d]);
    }
  }

  lemma SameFields(a: Fields, b: Fields)
    requires forall k: string :: Get(a, k) == Get(b, k)
    ensures a == b
  {
    forall k: string
      ensures k in a <==> k in b
      ensures k in a ==> a[k] == b[k]
    {
      assert Get(a, k) == Get(b, k);
    }
  }

  lemma {:induction false} UnwindDictKeys(dicts: map<Addr, Fields>, undo: seq<Undo>)
    ensures UnwindDicts(dicts, undo).Keys == dicts.Keys
  {
    if undo != [] {
      UnwindDictKeys(dicts, undo[1..]);
    }
  }

  /** An undo entry holds only containers that are the journal's own. */
  ghost predicate Private(u: Undo, copies: set<Addr>) {
    match u
    case RestoreFields(_, vs) => forall n <- vs :: vs[n].Some? && vs[n].value.Box? ==> vs[n].value.a in copies
    case RestoreAttribute(_, _, v) => v.Box? ==> v.a in copies
    case RestoreEntry(_, _, _) => true
  }

  ghost predicate AllPrivate(undo: seq<Undo>, copies: set<Addr>) {
    forall i :: 0 <= i < |undo| ==> Private(undo[i], copies)
  }

  ghost predicate RefersTo(objs: map<Addr, Fields>, boxes: map<Addr, Contents>) {
    forall o <- objs, n <- objs[o] :: objs[o][n].Box? ==> objs[o][n].a in boxes
  }

  /** After a rollback every object is still there, and refers to real containers: its own or the journal's copies. */
  lemma {:induction false} UnwindRefers(objs: map<Addr, Fields>, undo: seq<Undo>, boxes: map<Addr, Contents>)
    requires RefersTo(objs, boxes) && AllPrivate(undo, boxes.Keys)
    ensures RefersTo(UnwindObjs(objs, undo), boxes) && UnwindObjs(objs, undo).Keys == objs.Keys
  {
    if undo != [] {
      assert forall i :: 0 <= i < |undo[1..]| ==> undo[1..][i] == undo[i + 1];
      UnwindRefers(objs, undo[1..], boxes);
      assert Private(undo[0], boxes.Keys);
    }
  }

  /** What the journaled attributes of every object read as. */
  ghost function Baseline(h: Heap, journaled: Addr -> set<string>): map<Addr, map<string, Deep>> {
    map o | o in h.objs :: map n | n in h.objs[o] && n in journaled(o) :: DeepOf(h.boxes, h.objs[o][n])
  }

  /** Stamped objects and seen keys really were captured; only journaled fields are promised. */
  ghost predicate Marked(undo: seq<Undo>, base: map<Addr, map<string, Deep>>, journaled: Addr -> set<string>,
                         stamps: map<Addr, nat>, identity: nat,
                         seen: set<Key>)
  {
    && (forall o <- base, n <- base[o] :: n in journaled(o))
    && (forall o <- base, n <- base[o] :: (o in stamps && stamps[o] == identity) || AttrKey(o, n) in seen ==>
          SavedAttr(undo, o, n).Some?)
    && (forall d, k :: EntryKey(d, k) in seen ==> SavedEntry(undo, d, k).Some?)
  }

  lemma BaselineSafe(h: Heap, dicts: map<Addr, Fields>, journaled: Addr -> set<string>, stamps: map<Addr, nat>, identity: nat)
    requires forall o <- stamps :: stamps[o] != identity
    ensures AttrsSafe(h, [], Baseline(h, journaled)) && EntriesSafe(dicts, [], dicts)
    ensures Marked([], Baseline(h, journaled), journaled, stamps, identity, {})
  {
  }

  lemma AppendMarks(undo: seq<Undo>, u: Undo)
    ensures forall o, n :: SavedAttr(undo, o, n).Some? || CoversAttr(u, o, n) ==> SavedAttr(undo + [u], o, n).Some?
    ensures forall d, k :: SavedEntry(undo, d, k).Some? ==> SavedEntry(undo + [u], d, k).Some?
    ensures u.RestoreEntry? ==> SavedEntry(undo + [u], u.dict, u.key).Some?
  {
    forall o, n
      ensures SavedAttr(undo, o, n).Some? || CoversAttr(u, o, n) ==> SavedAttr(undo + [u], o, n).Some?
      ensures SavedEntry(undo, o, n).Some? ==> SavedEntry(undo + [u], o, n).Some?
      ensures u.RestoreEntry? && u.dict == o && u.key == n ==> SavedEntry(undo + [u], o, n).Some?
    {
      SavedAppend(undo, u, o, n);
    }
  }

  /** What the journaled attributes read as, and the dictionaries. */
  datatype State = State(attrs: map<Addr, map<string, Deep>>, dicts: map<Addr, Fields>)

  // -- the journal and the heap it watches --

  class Pass {
    const journaled: Addr -> set<string>   // the fields of each object a rollback restores
    var h: Heap
    var stamps: map<Addr, nat>
    var dicts: map<Addr, Fields>
    var undo: seq<Undo>
    var seen: set<Key>
    var identity: nat
    var nextIdentity: nat
    var active: bool
    ghost var was: State   // at the last accept

    ghost predicate Valid()
      reads this
    {
      && h.Ok() && stamps.Keys == h.objs.Keys && AllPrivate(undo, h.copies)
      && 0 < identity <= nextIdentity && (forall o <- stamps :: stamps[o] <= nextIdentity)
      && (active ==> AttrsSafe(h, undo, was.attrs) && EntriesSafe(dicts, undo, was.dicts))
      && (active ==> Marked(undo, was.attrs, journaled, stamps, identity, seen))
    }

    /** A pass starts: a new journal over the objects there are. */
    constructor (h: Heap, stamps: map<Addr, nat>, dicts: map<Addr, Fields>, lastIdentity: nat,
                 journaled: Addr -> set<string>)
      requires h.Ok() && h.copies == {} && stamps.Keys == h.objs.Keys
      requires forall o <- stamps :: stamps[o] <= lastIdentity
      ensures Valid() && active && undo == [] && this.h == h && this.dicts == dicts
      ensures was == State(Baseline(h, journaled), dicts)
    {
      this.h, this.stamps, this.dicts := h, stamps, dicts;
      this.journaled := journaled;
      undo, seen, active := [], {}, true;
      identity, nextIdentity := lastIdentity + 1, lastIdentity + 1;
      was := State(Baseline(h, journaled), dicts);
    }

    /** A private copy of a container value; any other value as it is. */
    method Copy(v: Option<Val>) returns (copy: Option<Val>)
      requires h.Ok()
      requires v.Some? && v.value.Box? ==> v.value.a in h.boxes
      modifies `h
      ensures h.Ok() && h.Extends(old(h))
      ensures SavedCopy(h.boxes, h.copies, copy, v)
    {
      copy := v;
      if v.Some? && v.value.Box? {
        var a := h.nextBox;
        h := h.(boxes := h.boxes[a := h.boxes[v.value.a]], nextBox := a + 1, copies := h.copies + {a});
        copy := Some(Box(a));
      }
    }

    /** Captures every journaled field of an object in one entry, copying containers, and stamps it. */
    method Snapshot(o: Addr)
      requires Valid() && o in h.objs
      modifies this
      ensures Valid() && h.Extends(old(h)) && stamps == old(stamps)[o := identity]
      ensures SameButUndo(old(dicts), old(identity), old(nextIdentity), old(active), old(was))
      ensures |undo| == |old(undo)| + if active then 1 else 0
      ensures active ==> forall n <- journaled(o) :: SavedAttr(undo, o, n).Some?
    {
      if !active {
        stamps := stamps[o := identity];
        return;
      }
      var values := CopyFields(o);
      ExtendSafe(old(h), h, undo, was.attrs);
      assert Private(RestoreFields(o, values), h.copies) by {
        assert forall n <- values :: SavedCopy(h.boxes, h.copies, values[n], Get(h.objs[o], n));
      }
      Append(RestoreFields(o, values));
      stamps := stamps[o := identity];
    }

    /** The journaled fields of an object as they are now, containers copied. */
    method CopyFields(o: Addr) returns (values: map<string, Option<Val>>)
      requires h.Ok() && o in h.objs
      modifies `h
      ensures h.Ok() && h.Extends(old(h))
      ensures values.Keys == journaled(o)
      ensures forall n <- values :: SavedCopy(h.boxes, h.copies, values[n], Get(h.objs[o], n))
    {
      values := map[];
      var left := journaled(o);
      while left != {}
        invariant left <= journaled(o) && values.Keys == journaled(o) - left
        invariant h.Ok() && h.Extends(old(h))
        invariant forall n <- values :: SavedCopy(h.boxes, h.copies, values[n], Get(h.objs[o], n))
      {
        var n :| n in left;
        ghost var h0 := h;
        var copy := Copy(Get(h.objs[o], n));
        forall m | m in values
          ensures SavedCopy(h.boxes, h.copies, values[m], Get(h.objs[o], m))
        {
          assert SavedCopy(h0.boxes, h0.copies, values[m], Get(h0.objs[o], m));
        }
        values := values[n := copy];
        left := left - {n};
      }
    }

    /** Adds an entry that saves current values: what was safe stays safe. */
    method Append(u: Undo)
      requires AttrsSafe(h, undo, was.attrs) && EntriesSafe(dicts, undo, was.dicts)
      requires Marked(undo, was.attrs, journaled, stamps, identity, seen)
      requires forall o, n :: CoversAttr(u, o, n) ==>
                 o in h.objs && SavedCopy(h.boxes, h.copies, AttrValue(u, o, n), Get(h.objs[o], n))
      requires u.RestoreEntry? ==> u.dict in dicts && u.saved == Get(dicts[u.dict], u.key)
      requires AllPrivate(undo, h.copies) && Private(u, h.copies)
      modifies `undo
      ensures undo == old(undo) + [u] && AllPrivate(undo, h.copies)
      ensures AttrsSafe(h, undo, was.attrs) && EntriesSafe(dicts, undo, was.dicts)
      ensures Marked(undo, was.attrs, journaled, stamps, identity, seen)
      ensures forall o, n :: CoversAttr(u, o, n) ==> SavedAttr(undo, o, n).Some?
      ensures u.RestoreEntry? ==> SavedEntry(undo, u.dict, u.key).Some?
    {
      AppendSafe(h, undo, u, was.attrs);
      AppendEntriesSafe(dicts, undo, u, was.dicts);
      AppendMarks(undo, u);
      undo := undo + [u];
    }

    ghost predicate SameButUndo(dicts0: map<Addr, Fields>, identity0: nat, nextIdentity0: nat, active0: bool,
                                was0: State)
      reads this
    {
      && dicts == dicts0 && identity == identity0 && nextIdentity == nextIdentity0 && active == active0
      && was == was0
    }

    /** Captures one attribute before its first write in this pass. */
    method Attribute(o: Addr, n: string)
      requires Valid() && o in h.objs
      modifies this
      ensures Valid() && h.Extends(old(h)) && stamps == old(stamps)
      ensures SameButUndo(old(dicts), old(identity), old(nextIdentity), old(active), old(was))
      ensures active && o in was.attrs && n in was.attrs[o] ==> SavedAttr(undo, o, n).Some?
      ensures var first := active && AttrKey(o, n) !in old(seen) && n in old(h).objs[o];
              |undo| == |old(undo)| + (if first then 1 else 0) && seen == old(seen) + (if first then {AttrKey(o, n)} else {})
    {
      if !active || AttrKey(o, n) in seen || n !in h.objs[o] {
        assert active && o in was.attrs && n in was.attrs[o] ==> AttrSafe(h, undo, o, n, was.attrs[o][n]);
        return;
      }
      var copy := Copy(Some(h.objs[o][n]));
      var u := RestoreAttribute(o, n, copy.value);
      ExtendSafe(old(h), h, undo, was.attrs);
      Append(u);
      seen := seen + {AttrKey(o, n)};
    }

    /** Captures one dictionary entry before its first change in this pass. */
    method Mapping(d: Addr, k: string)
      requires Valid() && d in dicts
      modifies `undo, `seen
      ensures Valid() && (active ==> SavedEntry(undo, d, k).Some?)
      ensures var first := active && EntryKey(d, k) !in old(seen);
              |undo| == |old(undo)| + (if first then 1 else 0) && seen == old(seen) + (if first then {EntryKey(d, k)} else {})
    {
      if !active || EntryKey(d, k) in seen {
        return;
      }
      var u := RestoreEntry(d, k, Get(dicts[d], k));
      Append(u);
      seen := seen + {EntryKey(d, k)};
    }

    /** Releases the undo entries; what there is now is the new baseline, and no object counts as captured. */
    method Accept()
      requires h.(copies := {}).Ok() && stamps.Keys == h.objs.Keys
      requires 0 < identity <= nextIdentity && (forall o <- stamps :: stamps[o] <= nextIdentity)
      modifies this
      ensures Valid() && undo == [] && h == old(h).(copies := {})
      ensures stamps == old(stamps) && dicts == old(dicts) && active == old(active)
      ensures was == State(Baseline(h, journaled), dicts)
      ensures forall o <- stamps :: stamps[o] != identity
    {
      undo, seen := [], {};
      nextIdentity := nextIdentity + 1;
      identity := nextIdentity;
      h := h.(copies := {});
      was := State(Baseline(h, journaled), dicts);
      BaselineSafe(h, dicts, journaled, stamps, identity);
    }

    /** Runs the undo entries, last first: every attribute and entry there was at the last accept is back, and
        the next pass can start from there. */
    method Rollback()
      requires Valid() && active
      modifies this
      ensures Valid() && !active && undo == [] && h.copies == {} && stamps == old(stamps)
      ensures dicts == old(was).dicts
      ensures forall o <- old(was).attrs, n <- old(was).attrs[o] ::
                o in h.objs && n in h.objs[o] && DeepOf(h.boxes, h.objs[o][n]) == old(was).attrs[o][n]
    {
      active := false;
      UnwindRestores(h, dicts, undo, was.attrs, was.dicts);
      UnwindRefers(h.objs, undo, h.boxes);
      Unwind();
      Accept();
    }

    method Unwind()
      modifies `h, `dicts
      ensures h == old(h).(objs := UnwindObjs(old(h).objs, undo)) && dicts == UnwindDicts(old(dicts), undo)
    {
      var i := |undo|;
      assert undo[i..] == [];
      while i > 0
        invariant 0 <= i <= |undo|
        invariant h == old(h).(objs := UnwindObjs(old(h).objs, undo[i..]))
        invariant dicts == UnwindDicts(old(dicts), undo[i..])
      {
        i := i - 1;
        assert undo[i..] == [undo[i]] + undo[i + 1..];
        h := h.(objs := ApplyObjs(h.objs, undo[i]));
        dicts := ApplyDicts(dicts, undo[i]);
      }
      assert undo[0..] == undo;
    }

    // -- writes --

    /** A new list, dict or set: no attribute holds it yet, and the journal has no claim on it. */
    method NewContainer(c: Contents) returns (a: Addr)
      requires Valid()
      modifies `h
      ensures Valid() && a !in old(h).boxes && a !in h.copies
      ensures h.objs == old(h).objs && h.copies == old(h).copies && h.boxes == old(h).boxes[a := c]
    {
      a := h.nextBox;
      ghost var before := h;
      h := h.(boxes := h.boxes[a := c], nextBox := a + 1);
      if active {
        ExtendSafe(before, h, undo, was.attrs);
      }
    }

    /** A write through a node's `__setattr__`: the first one in a pass captures the whole object. */
    method SetField(o: Addr, n: string, v: Val)
      requires Valid() && o in h.objs && (v.Box? ==> v.a in h.boxes && v.a !in h.copies)
      modifies this
      ensures Valid() && h.Extends(old(h).(objs := old(h).objs[o := old(h).objs[o][n := v]]))
      ensures SameButUndo(old(dicts), old(identity), old(nextIdentity), old(active), old(was))
      ensures active && n in journaled(o) && old(stamps)[o] != identity ==> |undo| == |old(undo)| + 1 && stamps[o] == identity
      ensures n !in journaled(o) || old(stamps)[o] == identity ==> undo == old(undo) && stamps == old(stamps)
    {
      if n in journaled(o) && stamps[o] != identity {
        Snapshot(o);
      }
      if active {
        WriteSafe(h, undo, was.attrs, o, n, v);
      }
      h := h.(objs := h.objs[o := h.objs[o][n := v]]);
    }

    /** A write to a `Ref`: the attribute alone is captured. */
    method SetRef(o: Addr, n: string, v: Val)
      requires Valid() && o in h.objs && (v.Box? ==> v.a in h.boxes && v.a !in h.copies)
      modifies this
      ensures Valid() && h.Extends(old(h).(objs := old(h).objs[o := old(h).objs[o][n := v]]))
      ensures SameButUndo(old(dicts), old(identity), old(nextIdentity), old(active), old(was))
    {
      Attribute(o, n);
      if active {
        WriteSafe(h, undo, was.attrs, o, n, v);
      }
      h := h.(objs := h.objs[o := h.objs[o][n := v]]);
    }

    /** An in-place edit of a container whose holders have been captured, as hook lists are after `Snapshot`. */
    method EditContainer(a: Addr, c: Contents)
      requires Valid() && a in h.boxes && a !in h.copies
      requires active ==> forall o <- was.attrs, n <- was.attrs[o] ::
                 n in h.objs[o] && h.objs[o][n] == Box(a) ==> stamps[o] == identity || AttrKey(o, n) in seen
      modifies `h
      ensures Valid() && h == old(h).(boxes := old(h).boxes[a := c])
    {
      if active {
        EditSafe(h, undo, was.attrs, a, c);
      }
      h := h.(boxes := h.boxes[a := c]);
    }

    /** Objects made during a pass are stamped, and a rollback forgets them. */
    method NewObject(o: Addr, fields: Fields)
      requires Valid() && o !in h.objs
      requires forall n <- fields :: fields[n].Box? ==> fields[n].a in h.boxes && fields[n].a !in h.copies
      modifies `h, `stamps
      ensures Valid() && h == old(h).(objs := old(h).objs[o := fields]) && stamps == old(stamps)[o := identity]
    {
      if active {
        forall o', n | o' in was.attrs && n in was.attrs[o']
          ensures AttrSafe(h.(objs := h.objs[o := fields]), undo, o', n, was.attrs[o'][n])
        {
          assert AttrSafe(h, undo, o', n, was.attrs[o'][n]);
        }
      }
      h := h.(objs := h.objs[o := fields]);
      stamps := stamps[o := identity];
    }

    // -- JournalDict --

    method SetItem(d: Addr, k: string, v: Val)
      requires Valid() && d in dicts
      modifies `undo, `seen, `dicts
      ensures Valid() && dicts == old(dicts)[d := old(dicts)[d][k := v]]
    {
      Mapping(d, k);
      if active {
        WriteEntrySafe(dicts, undo, was.dicts, d, k, Some(v));
      }
      dicts := dicts[d := dicts[d][k := v]];
    }

    /** `None` is the `KeyError` of a pop without a default. */
    method Pop(d: Addr, k: string) returns (v: Option<Val>)
      requires Valid() && d in dicts
      modifies `undo, `seen, `dicts
      ensures Valid() && v == Get(old(dicts)[d], k) && dicts == old(dicts)[d := old(dicts)[d] - {k}]
    {
      Mapping(d, k);
      v := Get(dicts[d], k);
      if active {
        WriteEntrySafe(dicts, undo, was.dicts, d, k, None);
      }
      dicts := dicts[d := dicts[d] - {k}];
    }

    method Clear(d: Addr)
      requires Valid() && d in dicts
      modifies `undo, `seen, `dicts
      ensures Valid() && dicts == old(dicts)[d := map[]]
    {
      var keys := dicts[d].Keys;
      while keys != {}
        invariant Valid() && d in dicts && dicts.Keys == old(dicts).Keys && dicts[d].Keys == keys
        invariant dicts == old(dicts)[d := dicts[d]]
        decreases keys
      {
        var k :| k in keys;
        var _ := Pop(d, k);
        keys := keys - {k};
      }
    }
  }
}
