/** Serializing the connected animation graph of a node in dependency order. */
module AnimationGraph {
  import opened AnimationNodes

  // -- connectedness --

  predicate Adjacent(g: Graph, a: Id, b: Id) {
    a in g.nodes && b in g.nodes && (Node(b) in Inputs(g.nodes[a]) || Node(a) in Inputs(g.nodes[b]))
  }

  predicate Walk(g: Graph, path: seq<Id>) {
    |path| > 0 && path[0] in g.nodes && forall i :: 0 < i < |path| ==> Adjacent(g, path[i - 1], path[i])
  }

  /** Some walk along inputs and consumers, in either direction, leads from `a` to `b`. */
  ghost predicate Connected(g: Graph, a: Id, b: Id) {
    exists path :: Walk(g, path) && path[0] == a && path[|path| - 1] == b
  }

  lemma ConnectedSelf(g: Graph, a: Id)
    requires a in g.nodes
    ensures Connected(g, a, a)
  {
    assert Walk(g, [a]);
  }

  lemma ConnectedStep(g: Graph, a: Id, b: Id, c: Id)
    requires Connected(g, a, b) && Adjacent(g, b, c)
    ensures Connected(g, a, c)
  {
    var path :| Walk(g, path) && path[0] == a && path[|path| - 1] == b;
    var longer := path + [c];
    assert Walk(g, longer);
  }

  lemma {:induction false} ConnectedTransitive(g: Graph, a: Id, b: Id, c: Id)
    requires Connected(g, a, b) && Connected(g, b, c)
    ensures Connected(g, a, c)
  {
    var path :| Walk(g, path) && path[0] == b && path[|path| - 1] == c;
    Follow(g, a, path);
  }

  lemma {:induction false} Follow(g: Graph, a: Id, path: seq<Id>)
    requires Walk(g, path) && Connected(g, a, path[0])
    ensures Connected(g, a, path[|path| - 1])
  {
    if |path| > 1 {
      ConnectedStep(g, a, path[0], path[1]);
      assert Adjacent(g, path[0], path[1]);
      forall i | 0 < i < |path[1..]|
        ensures Adjacent(g, path[1..][i - 1], path[1..][i])
      {
        assert Adjacent(g, path[i], path[i + 1]);
      }
      Follow(g, a, path[1..]);
    }
  }

  lemma {:induction false} ConnectedSymmetric(g: Graph, a: Id, b: Id)
    requires Connected(g, a, b)
    ensures Connected(g, b, a)
  {
    var path :| Walk(g, path) && path[0] == a && path[|path| - 1] == b;
    Backtrack(g, path);
  }

  lemma {:induction false} Backtrack(g: Graph, path: seq<Id>)
    requires Walk(g, path)
    ensures Connected(g, path[|path| - 1], path[0])
  {
    if |path| == 1 {
      ConnectedSelf(g, path[0]);
    } else {
      assert Adjacent(g, path[0], path[1]);
      forall i | 0 < i < |path[1..]|
        ensures Adjacent(g, path[1..][i - 1], path[1..][i])
      {
        assert Adjacent(g, path[i], path[i + 1]);
      }
      Backtrack(g, path[1..]);
      ConnectedStep(g, path[|path| - 1], path[1], path[0]);
    }
  }

  /** A set that holds `a` and every neighbour of its members holds everything connected to `a`. */
  lemma {:induction false} ClosedHoldsConnected(g: Graph, a: Id, s: set<Id>, b: Id)
    requires a in s && Connected(g, a, b)
    requires forall x, y :: x in s && Adjacent(g, x, y) ==> y in s
    ensures b in s
  {
    var path :| Walk(g, path) && path[0] == a && path[|path| - 1] == b;
    var i := 0;
    while i < |path| - 1
      invariant 0 <= i < |path| && path[i] in s
    {
      assert Adjacent(g, path[i], path[i + 1]);
      i := i + 1;
    }
  }

  // -- definitions --

  datatype Spec =
    | ValueSpec(value: real)
    | InterpolateSpec(ranges: seq<real>, outputs: seq<real>, left: Edge, right: Edge)
    | OperationSpec(op: Op)
    | DiffClampSpec(min: real, max: real, previous: real, current: real)

  datatype Definition = Definition(id: Id, spec: Spec, inputs: seq<Input>)

  function SpecOf(n: AnimNode): Spec {
    match n
    case Value(v) => ValueSpec(v)
    case Interpolation(_, r, o, left, right) => InterpolateSpec(r, o, left, right)
    case Operation(op, _) => OperationSpec(op)
    case DiffClamp(_, lo, hi, last, c) => DiffClampSpec(lo, hi, last, c)
  }

  function IdSet(defs: seq<Definition>): set<Id> {
    if defs == [] then {} else IdSet(defs[..|defs| - 1]) + {defs[|defs| - 1].id}
  }

  /** Each definition carries its node's data, appears once, and follows all of its inputs. */
  ghost predicate Ordered(g: Graph, defs: seq<Definition>) {
    defs == [] ||
    var rest, d := defs[..|defs| - 1], defs[|defs| - 1];
    && Ordered(g, rest)
    && Describes(g, d)
    && d.id !in IdSet(rest)
    && (forall p: Id :: Node(p) in d.inputs ==> p in IdSet(rest))
  }

  lemma Append(defs: seq<Definition>, d: Definition)
    ensures IdSet(defs + [d]) == IdSet(defs) + {d.id}
    ensures (defs + [d])[..|defs|] == defs
  {
    assert (defs + [d])[..|defs|] == defs;
  }

  lemma {:induction false} InIdSet(defs: seq<Definition>, x: Id)
    ensures x in IdSet(defs) <==> exists k :: 0 <= k < |defs| && defs[k].id == x
  {
    if defs != [] {
      InIdSet(defs[..|defs| - 1], x);
      if x in IdSet(defs[..|defs| - 1]) {
        var k :| 0 <= k < |defs| - 1 && defs[..|defs| - 1][k].id == x;
        assert defs[k].id == x;
      }
    }
  }

  /** The same, position by position. */
  lemma {:induction false} OrderedMeans(g: Graph, defs: seq<Definition>, k: nat)
    requires Ordered(g, defs) && k < |defs|
    ensures Describes(g, defs[k])
    ensures forall j :: 0 <= j < k ==> defs[j].id != defs[k].id
    ensures forall p: Id :: Node(p) in defs[k].inputs ==> exists j :: 0 <= j < k && defs[j].id == p
  {
    var rest := defs[..|defs| - 1];
    if k < |rest| {
      OrderedMeans(g, rest, k);
      forall p: Id | Node(p) in defs[k].inputs
        ensures exists j :: 0 <= j < k && defs[j].id == p
      {
        var j :| 0 <= j < k && rest[j].id == p;
        assert defs[j].id == p;
      }
    } else {
      forall x {
        InIdSet(rest, x);
      }
      forall j | 0 <= j < k
        ensures defs[j].id != defs[k].id
      {
        assert rest[j].id == defs[j].id;
      }
      forall p: Id | Node(p) in defs[k].inputs
        ensures exists j :: 0 <= j < k && defs[j].id == p
      {
        var j :| 0 <= j < |rest| && rest[j].id == p;
        assert defs[j].id == p;
      }
    }
  }

  predicate Describes(g: Graph, d: Definition) {
    d.id in g.nodes && d.spec == SpecOf(g.nodes[d.id]) && d.inputs == Inputs(g.nodes[d.id])
  }

  /** Everything the wire message promises about the graph around `root`. */
  ghost predicate Serialization(g: Graph, root: Id, id: Id, defs: seq<Definition>, bindings: seq<(int, string, Id)>) {
    && Ordered(g, defs)
    && (forall x :: x in IdSet(defs) <==> Connected(g, root, x))
    && id in IdSet(defs) && (forall x :: x in IdSet(defs) ==> id <= x)
    && (forall b :: b in bindings <==>
          Connected(g, root, b.2) && b.2 in g.attachments && (b.0, b.1) in g.attachments[b.2])
  }

  // -- the serializer: two dictionaries filled in place by recursion --

  lemma Prefix(a: seq<Id>, b: seq<Id>)
    requires a <= b
    ensures forall x :: x in a ==> x in b
  {
    assert forall i :: 0 <= i < |a| ==> a[i] == b[i];
  }

  function NodeInputs(ids: seq<Id>): (r: seq<Input>)
    ensures forall x :: x in ids ==> Node(x) in r
    ensures forall i :: i in r ==> i.Node? && i.id in ids
  {
    var r := seq(|ids|, i requires 0 <= i < |ids| => Node(ids[i]));
    assert forall i :: 0 <= i < |ids| ==> r[i] == Node(ids[i]);
    r
  }

  function SetOf(a: seq<Id>): (s: set<Id>)
    ensures forall x :: x in s <==> x in a
  {
    set x | x in a
  }

  ghost predicate Covers(s: set<Id>, ids: seq<Id>, i: nat) {
    i <= |ids| && forall k :: 0 <= k < i ==> ids[k] in s
  }

  lemma CoversNext(s: set<Id>, t: set<Id>, ids: seq<Id>, i: nat)
    requires Covers(s, ids, i) && s <= t && i < |ids| && ids[i] in t
    ensures Covers(t, ids, i + 1)
  {
  }

  lemma CoversAll(s: set<Id>, ids: seq<Id>)
    requires Covers(s, ids, |ids|) && s <= SetOf(ids)
    ensures s == SetOf(ids)
  {
  }

  ghost predicate Distinct(ids: seq<Id>) {
    forall i, j :: 0 <= i < j < |ids| ==> ids[i] != ids[j]
  }

  ghost predicate Closed(g: Graph, s: set<Id>) {
    forall x, y :: x in s && Adjacent(g, x, y) ==> y in s
  }

  /** A part of the graph with no edge leaving it, whose nodes know all their neighbours. */
  ghost predicate Surveyed(g: Graph, reach: set<Id>) {
    && reach <= g.nodes.Keys && reach <= g.children.Keys
    && Closed(g, reach)
    && (forall x, y :: x in reach && y in g.children[x] ==> Adjacent(g, x, y))
    && (forall x, i: Input :: x in reach && i in Inputs(g.nodes[x]) && i.Node? ==> Adjacent(g, x, i.id))
    && (forall x, y :: x in reach && Adjacent(g, x, y) ==> Node(y) in Inputs(g.nodes[x]) || y in g.children[x])
  }

  /** A part of the graph that holds its nodes' inputs, each created before its consumers. */
  ghost predicate Layered(g: Graph, reach: set<Id>) {
    && reach <= g.nodes.Keys && reach <= g.born.Keys
    && forall x, i: Input :: x in reach && i in Inputs(g.nodes[x]) && i.Node? ==> i.id in reach && g.born[i.id] < g.born[x]
  }

  lemma WellFormedSurveyed(g: Graph, reach: set<Id>)
    requires WellFormed(g) && Closed(g, reach) && reach <= g.nodes.Keys
    ensures Surveyed(g, reach)
  {
    forall x, i: Input | x in reach && i in Inputs(g.nodes[x]) && i.Node?
      ensures Adjacent(g, x, i.id)
    {
      assert Feeds(g.nodes, i.id, x);
    }
    forall x, y: Id | x in reach && y in g.children[x] ensures Adjacent(g, x, y) {
      assert Feeds(g.nodes, x, y);
    }
    forall x, y: Id | x in reach && Adjacent(g, x, y) ensures Node(y) in Inputs(g.nodes[x]) || y in g.children[x] {
      assert Feeds(g.nodes, y, x) || Feeds(g.nodes, x, y);
    }
  }

  lemma SurveyedLayered(g: Graph, reach: set<Id>)
    requires WellFormed(g) && Surveyed(g, reach)
    ensures Layered(g, reach)
  {
    forall x, i: Input | x in reach && i in Inputs(g.nodes[x]) && i.Node?
      ensures i.id in reach && g.born[i.id] < g.born[x]
    {
      assert Feeds(g.nodes, i.id, x) && Adjacent(g, x, i.id);
    }
  }

  class Serializer {
    const g: Graph
    var connected: seq<Id>        // keys of `connected`, in insertion order
    var encoded: seq<Definition>  // values of `encoded`, in insertion order
    var keys: set<Id>             // keys of `encoded`

    constructor (graph: Graph)
      ensures g == graph && connected == [] && encoded == [] && keys == {}
    {
      g, connected, encoded, keys := graph, [], [], {};
    }

    /** Everything discovered since `from` has all its neighbours discovered. */
    ghost predicate ClosedFrom(from: nat)
      reads this
    {
      forall k, y :: from <= k < |connected| && Adjacent(g, connected[k], y) ==> y in connected
    }

    ghost predicate Discovered(reach: set<Id>)
      reads this
    {
      Distinct(connected) && SetOf(connected) <= reach
    }

    /** Visits a node, then its children, then its inputs, skipping what is already known. */
    method Discover(input: Input, ghost reach: set<Id>)
      requires Surveyed(g, reach) && Discovered(reach)
      requires input.Node? ==> input.id in reach
      modifies `connected
      ensures Discovered(reach) && old(connected) <= connected
      ensures input.Node? ==> input.id in connected
      ensures ClosedFrom(|old(connected)|)
      decreases reach - SetOf(connected), 0
    {
      if input.Constant? || input.id in connected {
        return;
      }
      var x := input.id;
      var start := |connected|;
      connected := connected + [x];
      assert x in connected && connected[start] == x;
      assert x in reach - old(SetOf(connected)) && x !in reach - SetOf(connected);
      ghost var before := connected;
      var children := g.children[x];
      DiscoverAll(NodeInputs(children), x, reach, start + 1);
      ghost var between := connected;
      DiscoverAll(Inputs(g.nodes[x]), x, reach, start + 1);
      assert connected[start] == x;
      Prefix(between, connected);
      forall y | Adjacent(g, x, y)
        ensures y in connected
      {
        if Node(y) !in Inputs(g.nodes[x]) {
          assert Node(y) in NodeInputs(children);
        }
      }
    }

    /** The loop over one of a node's neighbour lists. */
    method DiscoverAll(inputs: seq<Input>, ghost x: Id, ghost reach: set<Id>, ghost from: nat)
      requires Surveyed(g, reach) && Discovered(reach)
      requires x in reach && forall i: Input :: i in inputs && i.Node? ==> Adjacent(g, x, i.id)
      requires ClosedFrom(from)
      modifies `connected
      ensures Discovered(reach) && old(connected) <= connected && ClosedFrom(from)
      ensures forall y :: Node(y) in inputs ==> y in connected
      decreases reach - SetOf(connected), 1
    {
      for i := 0 to |inputs|
        invariant Discovered(reach) && old(connected) <= connected && ClosedFrom(from)
        invariant forall k :: 0 <= k < i && inputs[k].Node? ==> inputs[k].id in connected
      {
        ghost var was := connected;
        assert reach - SetOf(connected) <= reach - old(SetOf(connected)) by { Prefix(old(connected), connected); }
        Discover(inputs[i], reach);
        Grow(was, connected, from);
      }
    }

    lemma Grow(was: seq<Id>, now: seq<Id>, from: nat)
      requires connected == now && was <= now && ClosedFrom(|was|)
      requires forall k, y :: from <= k < |was| && Adjacent(g, was[k], y) ==> y in was
      ensures ClosedFrom(from)
    {
      forall k, y | from <= k < |now| && Adjacent(g, now[k], y)
        ensures y in now
      {
        if k < |was| {
          assert was[k] == now[k];
          Prefix(was, now);
        }
      }
    }

    ghost predicate Encoded(reach: set<Id>)
      reads this
    {
      Ordered(g, encoded) && keys == IdSet(encoded) && keys <= reach
    }

    /** Appends a node's definition after those of its inputs, unless it is already there. */
    method Encode(input: Input, ghost reach: set<Id>)
      requires Layered(g, reach) && Encoded(reach)
      requires input.Node? ==> input.id in reach
      modifies `encoded, `keys
      ensures Encoded(reach) && old(keys) <= keys
      ensures input.Node? ==> input.id in keys
      ensures forall y :: y in keys && y !in old(keys) ==> input.Node? && g.born[y] <= g.born[input.id]
      decreases if input.Node? then g.born[input.id] + 1 else 0, 2
    {
      if input.Constant? || input.id in keys {
        return;
      }
      var x := input.id;
      EncodeInputs(x, reach);
      AppendDefinition(x);
    }

    /** The loop over a node's inputs. */
    method EncodeInputs(x: Id, ghost reach: set<Id>)
      requires Layered(g, reach) && Encoded(reach) && x in reach
      modifies `encoded, `keys
      ensures Encoded(reach) && old(keys) <= keys
      ensures forall i :: i in Inputs(g.nodes[x]) && i.Node? ==> i.id in keys
      ensures forall y :: y in keys && y !in old(keys) ==> g.born[y] < g.born[x]
      decreases g.born[x] + 1, 1
    {
      var inputs := Inputs(g.nodes[x]);
      for k := 0 to |inputs|
        invariant Encoded(reach) && old(keys) <= keys
        invariant forall i :: i in inputs[..k] && i.Node? ==> i.id in keys
        invariant forall y :: y in keys && y !in old(keys) ==> g.born[y] < g.born[x]
      {
        assert inputs[k] in inputs;
        assert inputs[..k + 1] == inputs[..k] + [inputs[k]];
        Encode(inputs[k], reach);
      }
      assert inputs[..|inputs|] == inputs;
    }

    method AppendDefinition(x: Id)
      requires Ordered(g, encoded) && keys == IdSet(encoded)
      requires x in g.nodes && x !in keys
      requires forall i :: i in Inputs(g.nodes[x]) && i.Node? ==> i.id in keys
      modifies `encoded, `keys
      ensures Ordered(g, encoded) && keys == IdSet(encoded) == old(keys) + {x}
    {
      var d := Definition(x, SpecOf(g.nodes[x]), Inputs(g.nodes[x]));
      Append(encoded, d);
      encoded, keys := encoded + [d], keys + {x};
    }

    /** The wire message for the graph around `root`. */
    method Serialize(root: Id) returns (id: Id, nodes: seq<Definition>, bindings: seq<(int, string, Id)>)
      requires WellFormed(g) && root in g.nodes && connected == [] && encoded == [] && keys == {}
      modifies this
      ensures Serialization(g, root, id, nodes, bindings)
      ensures |nodes| == |connected|
    {
      ghost var reach := Component(g, root);
      ComponentClosed(g, root);
      WellFormedSurveyed(g, reach);
      SurveyedLayered(g, reach);
      Discover(Node(root), reach);
      ClosedHoldsComponent(g, root, SetOf(connected));
      assert SetOf(connected) == reach;
      EncodeAll(reach);
      nodes := encoded;
      assert IdSet(nodes) == reach;
      IdSetSize(g, nodes);
      DistinctSize(connected);
      id, bindings := Bindings();
      forall b {
        AllBindingsMember(g.attachments, connected, b);
      }
    }

    method EncodeAll(ghost reach: set<Id>)
      requires Layered(g, reach) && Encoded(reach)
      requires SetOf(connected) == reach
      modifies `encoded, `keys
      ensures Ordered(g, encoded) && keys == IdSet(encoded) == reach
    {
      for i := 0 to |connected|
        invariant Encoded(reach) && Covers(keys, connected, i)
      {
        ghost var before := keys;
        assert connected[i] in SetOf(connected);
        EncodeNode(connected[i], reach);
        CoversNext(before, keys, connected, i);
      }
      CoversAll(keys, connected);
    }

    method EncodeNode(x: Id, ghost reach: set<Id>)
      requires Layered(g, reach) && Encoded(reach) && x in reach
      modifies `encoded, `keys
      ensures Encoded(reach) && old(keys) <= keys && x in keys
    {
      Encode(Node(x), reach);
    }

    /** The smallest id, and every binding of every node of the graph, in discovery order. */
    method Bindings() returns (id: Id, bindings: seq<(int, string, Id)>)
      requires connected != [] && SetOf(connected) <= g.attachments.Keys
      ensures id in connected && forall x :: x in connected ==> id <= x
      ensures bindings == AllBindings(g.attachments, connected)
    {
      bindings := [];
      id := connected[0];
      for i := 0 to |connected|
        invariant id in connected && forall k :: 0 <= k < i ==> id <= connected[k]
        invariant bindings == AllBindings(g.attachments, connected[..i])
      {
        if connected[i] < id {
          id := connected[i];
        }
        assert connected[..i + 1][..i] == connected[..i];
        bindings := bindings + Tagged(g.attachments[connected[i]], connected[i]);
      }
      assert connected[..|connected|] == connected;
    }
  }

  function Tagged(at: seq<(int, string)>, x: Id): seq<(int, string, Id)> {
    seq(|at|, j requires 0 <= j < |at| => (at[j].0, at[j].1, x))
  }

  function AllBindings(attachments: map<Id, seq<(int, string)>>, ids: seq<Id>): seq<(int, string, Id)>
    requires SetOf(ids) <= attachments.Keys
  {
    if ids == [] then []
    else
      var x := ids[|ids| - 1];
      AllBindings(attachments, ids[..|ids| - 1]) + Tagged(attachments[x], x)
  }

  lemma {:induction false} AllBindingsMember(attachments: map<Id, seq<(int, string)>>, ids: seq<Id>, b: (int, string, Id))
    requires SetOf(ids) <= attachments.Keys
    ensures b in AllBindings(attachments, ids) <==> b.2 in ids && (b.0, b.1) in attachments[b.2]
  {
    if ids != [] {
      var x := ids[|ids| - 1];
      var rest := ids[..|ids| - 1];
      AllBindingsMember(attachments, rest, b);
      assert b.2 in ids <==> b.2 in rest || b.2 == x;
      var at := attachments[x];
      if b.2 == x && (b.0, b.1) in at {
        var j :| 0 <= j < |at| && at[j] == (b.0, b.1);
        assert Tagged(at, x)[j] == b;
      }
    }
  }

  ghost function Component(g: Graph, root: Id): (s: set<Id>)
    ensures forall x :: x in s <==> x in g.nodes && Connected(g, root, x)
  {
    set x | x in g.nodes && Connected(g, root, x)
  }

  lemma ComponentClosed(g: Graph, root: Id)
    requires root in g.nodes
    ensures Closed(g, Component(g, root)) && root in Component(g, root)
    ensures forall x :: Connected(g, root, x) ==> x in Component(g, root)
  {
    ConnectedSelf(g, root);
    forall x, y | x in Component(g, root) && Adjacent(g, x, y)
      ensures y in Component(g, root)
    {
      ConnectedStep(g, root, x, y);
    }
    forall x | Connected(g, root, x)
      ensures x in Component(g, root)
    {
      ClosedHoldsConnected(g, root, Component(g, root), x);
    }
  }

  lemma ClosedHoldsComponent(g: Graph, root: Id, s: set<Id>)
    requires root in s && Closed(g, s)
    ensures Component(g, root) <= s
  {
    forall x | x in Component(g, root)
      ensures x in s
    {
      ClosedHoldsConnected(g, root, s, x);
    }
  }

  lemma {:induction false} IdSetSize(g: Graph, defs: seq<Definition>)
    requires Ordered(g, defs)
    ensures |IdSet(defs)| == |defs|
  {
    if defs != [] {
      IdSetSize(g, defs[..|defs| - 1]);
    }
  }

  lemma {:induction false} DistinctSize(a: seq<Id>)
    requires Distinct(a)
    ensures |SetOf(a)| == |a|
  {
    if a != [] {
      var rest := a[1..];
      assert forall i, j :: 0 <= i < j < |rest| ==> rest[i] == a[i + 1] && rest[j] == a[j + 1];
      DistinctSize(rest);
      assert a[0] !in rest;
      assert SetOf(a) == {a[0]} + SetOf(rest);
    }
  }

  // -- any root of a graph gives the same graph --

  lemma SameGraphFromAnyRoot(g: Graph, a: Id, b: Id,
                             id: Id, defs: seq<Definition>, bindings: seq<(int, string, Id)>,
                             id': Id, defs': seq<Definition>, bindings': seq<(int, string, Id)>)
    requires Connected(g, a, b)
    requires Serialization(g, a, id, defs, bindings) && Serialization(g, b, id', defs', bindings')
    ensures id == id' && |defs| == |defs'|
    ensures forall d :: d in defs <==> d in defs'
    ensures forall x :: x in bindings <==> x in bindings'
  {
    SameComponent(g, a, b);
    assert IdSet(defs) == IdSet(defs');
    IdSetSize(g, defs);
    IdSetSize(g, defs');
    forall d
      ensures d in defs <==> d in defs'
    {
      SameDefinition(g, defs, defs', d);
      SameDefinition(g, defs', defs, d);
    }
  }

  lemma SameComponent(g: Graph, a: Id, b: Id)
    requires Connected(g, a, b)
    ensures forall x :: Connected(g, a, x) <==> Connected(g, b, x)
  {
    ConnectedSymmetric(g, a, b);
    forall x
      ensures Connected(g, a, x) <==> Connected(g, b, x)
    {
      if Connected(g, a, x) { ConnectedTransitive(g, b, a, x); }
      if Connected(g, b, x) { ConnectedTransitive(g, a, b, x); }
    }
  }

  lemma SameDefinition(g: Graph, defs: seq<Definition>, defs': seq<Definition>, d: Definition)
    requires Ordered(g, defs) && Ordered(g, defs') && IdSet(defs) == IdSet(defs')
    ensures d in defs ==> d in defs'
  {
    if d in defs {
      var k :| 0 <= k < |defs| && defs[k] == d;
      InIdSet(defs, d.id);
      InIdSet(defs', d.id);
      var j :| 0 <= j < |defs'| && defs'[j].id == d.id;
      OrderedMeans(g, defs, k);
      OrderedMeans(g, defs', j);
      assert defs'[j] == d;
    }
  }

  // -- one left-to-right pass computes every node's value --

  function Lookup(env: map<Id, real>, i: Input): real {
    match i
    case Constant(c) => c
    case Node(x) => if x in env then env[x] else 0.0
  }

  /** How the renderer computes a node from the numbers it already has for its inputs. */
  function Evaluate(spec: Spec, args: seq<real>): real {
    match spec
    case ValueSpec(v) => v
    case InterpolateSpec(r, o, left, right) =>
      if |args| == 1 && |r| >= 2 && |r| == |o| then Interpolate(r, o, left, right, args[0]) else 0.0
    case OperationSpec(op) => Apply(op, args)
    case DiffClampSpec(lo, hi, previous, c) =>
      if |args| == 1 then Pin(lo, hi, c + (args[0] - previous)) else c
  }

  function Lookups(env: map<Id, real>, inputs: seq<Input>): (args: seq<real>)
    ensures |args| == |inputs|
  {
    seq(|inputs|, i requires 0 <= i < |inputs| => Lookup(env, inputs[i]))
  }

  function Pass(defs: seq<Definition>): map<Id, real> {
    if defs == [] then map[] else
    var env := Pass(defs[..|defs| - 1]);
    var d := defs[|defs| - 1];
    env[d.id := Evaluate(d.spec, Lookups(env, d.inputs))]
  }

  lemma {:induction false} PassComputesValues(g: Graph, defs: seq<Definition>)
    requires WellFormed(g) && Synced(g) && Ordered(g, defs)
    ensures Pass(defs).Keys == IdSet(defs) && IdSet(defs) <= g.nodes.Keys
    ensures forall x :: x in IdSet(defs) ==> Pass(defs)[x] == ValueOf(g, x)
  {
    if defs != [] {
      var rest, d := defs[..|defs| - 1], defs[|defs| - 1];
      PassComputesValues(g, rest);
      LookupsAreArgs(g, d, Pass(rest));
      EvaluateIsCompute(g, d.id);
    }
  }

  lemma LookupsAreArgs(g: Graph, d: Definition, env: map<Id, real>)
    requires WellFormed(g) && Describes(g, d)
    requires forall p: Id :: Node(p) in d.inputs ==> p in g.nodes && p in env && env[p] == ValueOf(g, p)
    ensures Lookups(env, d.inputs) == ArgsOf(g, d.id)
  {
    forall i | 0 <= i < |d.inputs|
      ensures Lookup(env, d.inputs[i]) == ArgsOf(g, d.id)[i]
    {
      assert d.inputs[i] in d.inputs;
    }
  }

  lemma EvaluateIsCompute(g: Graph, x: Id)
    requires WellFormed(g) && Synced(g) && x in g.nodes
    ensures Evaluate(SpecOf(g.nodes[x]), ArgsOf(g, x)) == ValueOf(g, x)
  {
    assert NodeOk(g.nodes[x]) && SyncedAt(g, x);
  }
}
