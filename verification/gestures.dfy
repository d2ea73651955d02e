/** Compiling a tree of composed gestures into per-leaf relations. */
module Gestures {

  datatype Mode = Simultaneous | Race | Exclusive

  /** Leaves carry whether they are enabled; their own options are passed through. */
  datatype Gesture = Leaf(enabled: bool) | Group(mode: Mode, children: Forest)

  datatype Forest = Nil | Cons(head: Gesture, tail: Forest)

  function Leaves(g: Gesture): seq<bool> {
    match g
    case Leaf(e) => [e]
    case Group(_, cs) => ForestLeaves(cs)
  }

  /** Leaves depth first: position in this list is the gesture's index. */
  function ForestLeaves(f: Forest): seq<bool> {
    match f
    case Nil => []
    case Cons(h, t) => Leaves(h) + ForestLeaves(t)
  }

  function Size(g: Gesture): nat {
    |Leaves(g)|
  }

  /** The mode of the lowest group that holds leaves `i` and `j` in different children;
      a list of gestures is a group of mode `top`. */
  function Between(top: Mode, f: Forest, i: nat, j: nat): Mode
    requires i < j < |ForestLeaves(f)|
    decreases f
  {
    var n := Size(f.head);
    if j < n then Between(f.head.mode, f.head.children, i, j)
    else if i >= n then Between(top, f.tail, i - n, j - n)
    else top
  }

  // -- the relation a mode gives a pair, both leaves enabled --

  datatype Relation = Together | SecondWaits | Racing

  function RelationOf(m: Mode): Relation {
    match m
    case Simultaneous => Together
    case Exclusive => SecondWaits
    case Race => Racing
  }

  type Pair = (nat, nat)

  /** `a` comes before `b`, and their lowest common group is simultaneous. */
  predicate SameTime(f: Forest, top: Mode, a: int, b: int) {
    0 <= a < b < |ForestLeaves(f)| && Between(top, f, a, b) == Simultaneous
  }

  /** `a` waits for the earlier `b`: their lowest common group is exclusive. */
  predicate Waits(f: Forest, top: Mode, a: int, b: int) {
    0 <= b < a < |ForestLeaves(f)| && Between(top, f, b, a) == Exclusive
  }

  /** The pairs of a list of children: those inside the first, those among the others, and those across. */
  lemma ConsPairs(m: Mode, h: Gesture, t: Forest, a: int, b: int)
    ensures var n, all := Size(h), |ForestLeaves(Cons(h, t))|;
            && (SameTime(Cons(h, t), m, a, b) <==>
                (InSame(h, a, b) || SameTime(t, m, a - n, b - n) || (m == Simultaneous && 0 <= a < n <= b < all)))
            && (Waits(Cons(h, t), m, a, b) <==>
                (InWaits(h, a, b) || Waits(t, m, a - n, b - n) || (m == Exclusive && 0 <= b < n <= a < all)))
  {
  }

  predicate InSame(g: Gesture, a: int, b: int) {
    g.Group? && SameTime(g.children, g.mode, a, b)
  }

  predicate InWaits(g: Gesture, a: int, b: int) {
    g.Group? && Waits(g.children, g.mode, a, b)
  }

  // -- the compiler --

  class Serializer {
    var leaves: seq<bool>
    var simPairs: set<Pair>
    var waitPairs: set<Pair>

    constructor ()
      ensures leaves == [] && simPairs == {} && waitPairs == {}
    {
      leaves, simPairs, waitPairs := [], {}, {};
    }

    /** Appends a gesture's leaves and adds the pairs inside it; returns its leaves' indices. */
    method Flatten(g: Gesture) returns (first: nat, count: nat)
      modifies this
      ensures first == |old(leaves)| && count == Size(g) && leaves == old(leaves) + Leaves(g)
      ensures forall a, b :: (a, b) in simPairs <==> (a, b) in old(simPairs) || InSame(g, a - first, b - first)
      ensures forall a, b :: (a, b) in waitPairs <==> (a, b) in old(waitPairs) || InWaits(g, a - first, b - first)
      decreases g
    {
      match g
      case Leaf(e) =>
        leaves := leaves + [e];
        return |leaves| - 1, 1;
      case Group(m, cs) =>
        first := |leaves|;
        count := FlattenAll(m, cs);
    }

    /** Flattens the children of one group, relating each child's leaves to those of the children before. */
    method FlattenAll(m: Mode, f: Forest) returns (count: nat)
      modifies this
      ensures count == |ForestLeaves(f)| && leaves == old(leaves) + ForestLeaves(f)
      ensures forall a, b :: (a, b) in simPairs <==>
                (a, b) in old(simPairs) || SameTime(f, m, a - |old(leaves)|, b - |old(leaves)|)
      ensures forall a, b :: (a, b) in waitPairs <==>
                (a, b) in old(waitPairs) || Waits(f, m, a - |old(leaves)|, b - |old(leaves)|)
      decreases f
    {
      match f
      case Nil => count := 0;
      case Cons(h, t) =>
        var first, n := Flatten(h);
        ghost var sim, wait := simPairs, waitPairs;
        var more := FlattenAll(m, t);
        count := n + more;
        Relate(m, first, first + n, first + count);
        ghost var base := |old(leaves)|;
        forall a: nat, b: nat
          ensures (a, b) in simPairs <==> (a, b) in old(simPairs) || SameTime(f, m, a - base, b - base)
          ensures (a, b) in waitPairs <==> (a, b) in old(waitPairs) || Waits(f, m, a - base, b - base)
        {
          ConsPairs(m, h, t, a - base, b - base);
        }
    }

    /** The top-level list: a simultaneous group of its own. */
    method FlattenTop(f: Forest)
      requires leaves == [] && simPairs == {} && waitPairs == {}
      modifies this
      ensures leaves == ForestLeaves(f)
      ensures forall a, b :: (a, b) in simPairs <==> SameTime(f, Simultaneous, a, b)
      ensures forall a, b :: (a, b) in waitPairs <==> Waits(f, Simultaneous, a, b)
    {
      var _ := FlattenAll(Simultaneous, f);
      forall a: nat, b: nat
        ensures (a, b) in simPairs <==> SameTime(f, Simultaneous, a, b)
        ensures (a, b) in waitPairs <==> Waits(f, Simultaneous, a, b)
      {
        assert a - 0 == a && b - 0 == b;
      }
    }

    /** The nested loops over a child's leaves and all later ones. */
    method Relate(m: Mode, lo: nat, mid: nat, hi: nat)
      requires lo <= mid <= hi
      modifies `simPairs, `waitPairs
      ensures simPairs == old(simPairs) + (if m == Simultaneous then Product(lo, mid, mid, hi) else {})
      ensures waitPairs == old(waitPairs) + (if m == Exclusive then Product(mid, hi, lo, mid) else {})
    {
      for a := lo to mid
        invariant simPairs == old(simPairs) + (if m == Simultaneous then Product(lo, a, mid, hi) else {})
        invariant waitPairs == old(waitPairs) + (if m == Exclusive then Product(mid, hi, lo, a) else {})
      {
        for b := mid to hi
          invariant simPairs == old(simPairs) +
                      (if m == Simultaneous then Product(lo, a, mid, hi) + Product(a, a + 1, mid, b) else {})
          invariant waitPairs == old(waitPairs) +
                      (if m == Exclusive then Product(mid, hi, lo, a) + Product(mid, b, a, a + 1) else {})
        {
          match m
          case Simultaneous => simPairs := simPairs + {(a, b)};
          case Exclusive => waitPairs := waitPairs + {(b, a)};
          case Race =>
        }
      }
    }
  }

  function Product(a0: nat, a1: nat, b0: nat, b1: nat): (s: set<Pair>)
    ensures forall a, b :: (a, b) in s <==> a0 <= a < a1 && b0 <= b < b1
  {
    set a, b | a0 <= a < a1 && b0 <= b < b1 :: (a, b)
  }

  /** What the native side receives for one leaf. */
  datatype Spec = Spec(enabled: bool, simultaneous: seq<nat>, waitFor: seq<nat>)

  ghost predicate Ascending(s: seq<nat>) {
    forall i, j :: 0 <= i < j < |s| ==> s[i] < s[j]
  }

  /** Both leaves enabled, and their relation is `r` in index order. */
  predicate Related(f: Forest, i: nat, j: nat, r: Relation) {
    var ls := ForestLeaves(f);
    i < |ls| && j < |ls| && i != j && ls[i] && ls[j] &&
    RelationOf(Between(Simultaneous, f, if i < j then i else j, if i < j then j else i)) == r
  }

  /** Everything the compiler promises about a list of gestures. */
  ghost predicate Compiled(f: Forest, specs: seq<Spec>) {
    && |specs| == |ForestLeaves(f)|
    && forall i :: 0 <= i < |specs| ==>
         && specs[i].enabled == ForestLeaves(f)[i]
         && Ascending(specs[i].simultaneous) && Ascending(specs[i].waitFor)
         && (forall j: nat :: j in specs[i].simultaneous <==> Related(f, i, j, Together))
         && (forall j: nat :: j in specs[i].waitFor <==> j < i && Related(f, i, j, SecondWaits))
  }

  /** The members of a set of indices below `n`, in order. */
  function SortedBelow(s: set<nat>, n: nat): (r: seq<nat>)
    ensures Ascending(r) && forall x :: x in r <==> x in s && x < n
  {
    if n == 0 then [] else
    var lower := SortedBelow(s, n - 1);
    assert forall i :: 0 <= i < |lower| ==> lower[i] in lower;
    if n - 1 in s then lower + [n - 1] else lower
  }

  method Serialize(f: Forest) returns (specs: seq<Spec>)
    ensures Compiled(f, specs)
  {
    var s := new Serializer();
    s.FlattenTop(f);
    var leaves := s.leaves;
    var n := |leaves|;
    var disabled := set i: nat | 0 <= i < n && !leaves[i];
    var sim := set p | p in s.simPairs && p.0 !in disabled && p.1 !in disabled;
    var wait := set p | p in s.waitPairs && p.0 !in disabled && p.1 !in disabled;
    specs := [];
    for i := 0 to n
      invariant |specs| == i
      invariant forall k :: 0 <= k < i ==> specs[k] == SpecFor(leaves[k], sim, wait, k, n)
    {
      specs := specs + [SpecFor(leaves[i], sim, wait, i, n)];
    }
    SpecsCompiled(f, sim, wait, specs);
  }

  lemma SpecsCompiled(f: Forest, sim: set<Pair>, wait: set<Pair>, specs: seq<Spec>)
    requires |specs| == |ForestLeaves(f)|
    requires forall a: nat, b: nat :: (a, b) in sim <==>
               SameTime(f, Simultaneous, a, b) && ForestLeaves(f)[a] && ForestLeaves(f)[b]
    requires forall a: nat, b: nat :: (a, b) in wait <==>
               Waits(f, Simultaneous, a, b) && ForestLeaves(f)[a] && ForestLeaves(f)[b]
    requires forall k :: 0 <= k < |specs| ==> specs[k] == SpecFor(ForestLeaves(f)[k], sim, wait, k, |specs|)
    ensures Compiled(f, specs)
  {
    forall i: nat, j: nat | i < |specs|
      ensures j in specs[i].simultaneous <==> Related(f, i, j, Together)
      ensures j in specs[i].waitFor <==> j < i && Related(f, i, j, SecondWaits)
    {
      assert specs[i] == SpecFor(ForestLeaves(f)[i], sim, wait, i, |specs|);
      assert (i, j) in sim <==> SameTime(f, Simultaneous, i, j) && ForestLeaves(f)[i] && ForestLeaves(f)[j];
      assert (j, i) in sim <==> SameTime(f, Simultaneous, j, i) && ForestLeaves(f)[j] && ForestLeaves(f)[i];
      assert (i, j) in wait <==> Waits(f, Simultaneous, i, j) && ForestLeaves(f)[i] && ForestLeaves(f)[j];
    }
  }

  function SpecFor(enabled: bool, sim: set<Pair>, wait: set<Pair>, i: nat, n: nat): Spec {
    Spec(enabled,
         SortedBelow((set j: nat | 0 <= j < n && ((i, j) in sim || (j, i) in sim)), n),
         SortedBelow((set j: nat | 0 <= j < n && (i, j) in wait), n))
  }

  // -- consequences for the recognizers --

  lemma SimultaneousSymmetric(f: Forest, specs: seq<Spec>, i: nat, j: nat)
    requires Compiled(f, specs) && i < |specs| && j < |specs|
    ensures j in specs[i].simultaneous <==> i in specs[j].simultaneous
  {
    assert Related(f, i, j, Together) <==> Related(f, j, i, Together);
  }

  /** Waiting only points to earlier leaves, so it can't form a cycle. */
  lemma WaitsAcyclic(f: Forest, specs: seq<Spec>, path: seq<nat>)
    requires Compiled(f, specs) && |path| > 1
    requires forall k :: 0 <= k < |path| - 1 ==> path[k] < |specs| && path[k + 1] in specs[path[k]].waitFor
    ensures path[|path| - 1] < path[0]
  {
    var last := |path| - 1;
    if last > 1 {
      WaitsAcyclic(f, specs, path[..last]);
      assert path[last - 1] < |specs| && path[last - 1 + 1] in specs[path[last - 1]].waitFor;
    } else {
      assert path[0] < |specs| && path[0 + 1] in specs[path[0]].waitFor;
    }
  }

  /** Two enabled leaves are related in exactly one way, and only by their lowest common group. */
  lemma OneRelation(f: Forest, specs: seq<Spec>, i: nat, j: nat)
    requires Compiled(f, specs) && i < j < |specs| && specs[i].enabled && specs[j].enabled
    ensures var m := Between(Simultaneous, f, i, j);
            && (j in specs[i].simultaneous <==> m == Simultaneous)
            && (i in specs[j].waitFor <==> m == Exclusive)
            && i !in specs[i].waitFor && j !in specs[i].waitFor
            && (j !in specs[i].simultaneous && i !in specs[j].waitFor <==> m == Race)
  {
    assert Related(f, i, j, Together) <==> RelationOf(Between(Simultaneous, f, i, j)) == Together;
  }

  // -- disabling a leaf --

  function Disable(g: Gesture, k: nat): Gesture
    requires k < Size(g)
    decreases g, 1
  {
    match g
    case Leaf(_) => Leaf(false)
    case Group(m, cs) => Group(m, DisableIn(cs, k))
  }

  function DisableIn(f: Forest, k: nat): Forest
    requires k < |ForestLeaves(f)|
    decreases f, 0
  {
    var n := Size(f.head);
    if k < n then Cons(Disable(f.head, k), f.tail) else Cons(f.head, DisableIn(f.tail, k - n))
  }

  lemma {:induction false} DisableLeaves(g: Gesture, k: nat)
    requires k < Size(g)
    ensures Leaves(Disable(g, k)) == Leaves(g)[k := false]
    decreases g, 1
  {
    if g.Group? { DisableForestLeaves(g.children, k); }
  }

  lemma {:induction false} DisableForestLeaves(f: Forest, k: nat)
    requires k < |ForestLeaves(f)|
    ensures ForestLeaves(DisableIn(f, k)) == ForestLeaves(f)[k := false]
    decreases f, 0
  {
    var n := Size(f.head);
    if k < n { DisableLeaves(f.head, k); } else { DisableForestLeaves(f.tail, k - n); }
  }

  lemma {:induction false} DisableKeepsBetween(top: Mode, f: Forest, k: nat, i: nat, j: nat)
    requires k < |ForestLeaves(f)| && i < j < |ForestLeaves(f)|
    ensures |ForestLeaves(DisableIn(f, k))| == |ForestLeaves(f)|
    ensures Between(top, DisableIn(f, k), i, j) == Between(top, f, i, j)
    decreases f
  {
    DisableForestLeaves(f, k);
    var n := Size(f.head);
    if k < n {
      DisableLeaves(f.head, k);
      if j < n { DisableKeepsBetween(f.head.mode, f.head.children, k, i, j); }
    } else if i >= n {
      DisableKeepsBetween(top, f.tail, k - n, i - n, j - n);
    } else {
      DisableForestLeaves(f.tail, k - n);
    }
  }

  /** Disabling one leaf leaves every relation among the others as it was, and takes it out of all. */
  lemma DisableOnlyItself(f: Forest, k: nat, specs: seq<Spec>, specs': seq<Spec>, i: nat, j: nat)
    requires k < |ForestLeaves(f)| && Compiled(f, specs) && Compiled(DisableIn(f, k), specs')
    requires i < |specs| && j < |specs| && i != j
    ensures |specs'| == |specs|
    ensures i != k && j != k ==> (j in specs'[i].simultaneous <==> j in specs[i].simultaneous)
    ensures i != k && j != k ==> (j in specs'[i].waitFor <==> j in specs[i].waitFor)
    ensures i == k || j == k ==> j !in specs'[i].simultaneous && j !in specs'[i].waitFor
  {
    DisableForestLeaves(f, k);
    if i < j { DisableKeepsBetween(Simultaneous, f, k, i, j); } else { DisableKeepsBetween(Simultaneous, f, k, j, i); }
  }
}
