/** Animated nodes, the graph they form, and the value each node has. Numbers are exact reals. */
module AnimationNodes {
  import opened RealFacts

  type Id = nat

  datatype Input = Node(id: Id) | Constant(c: real)

  datatype Edge = Extend | Clamp | Identity

  datatype Op = Add | Subtract | Multiply | Divide | Modulo | Negate

  datatype AnimNode =
    | Value(value: real)
    | Interpolation(parent: Id, ranges: seq<real>, outputs: seq<real>, left: Edge, right: Edge)
    | Operation(op: Op, parents: seq<Input>)
    | DiffClamp(parent: Id, min: real, max: real, lastInput: real, current: real)

  /** Every live node; the derived nodes each one knows; its view bindings; and its creation number. */
  datatype Graph = Graph(nodes: map<Id, AnimNode>, children: map<Id, seq<Id>>,
                         attachments: map<Id, seq<(int, string)>>, born: map<Id, nat>)

  function Inputs(n: AnimNode): seq<Input> {
    match n
    case Value(_) => []
    case Interpolation(p, _, _, _, _) => [Node(p)]
    case Operation(_, ps) => ps
    case DiffClamp(p, _, _, _, _) => [Node(p)]
  }

  predicate NodeOk(n: AnimNode) {
    match n
    case Interpolation(_, r, o, _, _) =>
      |r| >= 2 && |r| == |o| && forall i, j :: 0 <= i < j < |r| ==> r[i] <= r[j]
    case DiffClamp(_, lo, hi, _, c) => lo <= c <= hi
    case _ => true
  }

  type Nodes = map<Id, AnimNode>
  type Links = map<Id, seq<Id>>
  type Ranks = map<Id, nat>

  predicate Feeds(nodes: Nodes, p: Id, y: Id) {
    y in nodes && Node(p) in Inputs(nodes[y])
  }

  /** Inputs exist, were created before their consumers, and know them as children. */
  ghost predicate InputsOk(nodes: Nodes, children: Links, born: Ranks) {
    forall p: Id, y: Id :: Feeds(nodes, p, y) ==>
      p in nodes && p in children && p in born && y in born && born[p] < born[y] && y in children[p]
  }

  /** Nothing else is a child. */
  ghost predicate ChildrenOk(nodes: Nodes, children: Links) {
    forall y: Id, c: Id :: y in children && c in children[y] ==> Feeds(nodes, y, c)
  }

  ghost predicate NodesOk(nodes: Nodes) {
    forall x <- nodes :: NodeOk(nodes[x])
  }

  ghost predicate WellFormed(g: Graph) {
    && g.nodes.Keys == g.children.Keys == g.attachments.Keys == g.born.Keys
    && NodesOk(g.nodes) && InputsOk(g.nodes, g.children, g.born) && ChildrenOk(g.nodes, g.children)
  }

  // -- numbers --

  function Pin(lo: real, hi: real, x: real): real {
    if x < lo then lo else if x > hi then hi else x
  }

  /** C's `fmod`: the quotient is truncated toward zero. */
  function Fmod(a: real, b: real): real
    requires b != 0.0
  {
    a - b * (Truncated(a / b) as real)
  }

  function Truncated(q: real): int {
    if q >= 0.0 then q.Floor else -(-q).Floor
  }

  /** An operation's function; anything it can't compute is 0. */
  function Apply(op: Op, args: seq<real>): real {
    if op == Negate then (if |args| == 1 then -args[0] else 0.0)
    else if |args| != 2 then 0.0
    else match op
      case Add => args[0] + args[1]
      case Subtract => args[0] - args[1]
      case Multiply => args[0] * args[1]
      case Divide => if args[1] == 0.0 then 0.0 else args[0] / args[1]
      case Modulo => if args[1] == 0.0 then 0.0 else Fmod(args[0], args[1])
      case Negate => 0.0
  }

  /** How many of the non-decreasing breakpoints are at most `x`. */
  function BisectRight(ranges: seq<real>, x: real): (n: nat)
    ensures n <= |ranges|
  {
    if ranges == [] || x < ranges[0] then 0 else 1 + BisectRight(ranges[1..], x)
  }

  function Segment(ranges: seq<real>, x: real): (i: nat)
    requires |ranges| >= 2
    ensures i <= |ranges| - 2
  {
    if x < ranges[0] then 0
    else if x > ranges[|ranges| - 1] then |ranges| - 2
    else
      var b := BisectRight(ranges, x) - 1;
      if b < 0 then 0 else if b > |ranges| - 2 then |ranges| - 2 else b
  }

  function Interpolate(ranges: seq<real>, outputs: seq<real>, left: Edge, right: Edge, x: real): real
    requires |ranges| >= 2 && |ranges| == |outputs|
  {
    var first, last := ranges[0], ranges[|ranges| - 1];
    if x < first && left == Identity then x
    else if !(x < first) && x > last && right == Identity then x
    else
      var i := Segment(ranges, x);
      var y := if x < first && left == Clamp then first
               else if !(x < first) && x > last && right == Clamp then last
               else x;
      var span := ranges[i + 1] - ranges[i];
      var t := if span <= 0.0 then 0.0 else (y - ranges[i]) / span;
      outputs[i] + (outputs[i + 1] - outputs[i]) * t
  }

  lemma {:induction false} BisectRightCounts(ranges: seq<real>, x: real)
    requires forall i, j :: 0 <= i < j < |ranges| ==> ranges[i] <= ranges[j]
    ensures forall i :: 0 <= i < BisectRight(ranges, x) ==> ranges[i] <= x
    ensures forall i :: BisectRight(ranges, x) <= i < |ranges| ==> x < ranges[i]
  {
    if ranges != [] && !(x < ranges[0]) {
      BisectRightCounts(ranges[1..], x);
    }
  }

  /** Inside the input range the result is the linear blend of the two outputs around the input:
      it lies between them, and at a breakpoint that starts a segment it is that breakpoint's output. */
  lemma InterpolateInside(ranges: seq<real>, outputs: seq<real>, left: Edge, right: Edge, x: real)
    requires |ranges| >= 2 && |ranges| == |outputs|
    requires forall i, j :: 0 <= i < j < |ranges| ==> ranges[i] <= ranges[j]
    requires ranges[0] <= x <= ranges[|ranges| - 1]
    ensures var i := Segment(ranges, x);
            var y := Interpolate(ranges, outputs, left, right, x);
            && ranges[i] <= x <= ranges[i + 1]
            && (outputs[i] <= outputs[i + 1] ==> outputs[i] <= y <= outputs[i + 1])
            && (outputs[i + 1] <= outputs[i] ==> outputs[i + 1] <= y <= outputs[i])
            && (x == ranges[i] ==> y == outputs[i])
            && (x == ranges[i + 1] && ranges[i] < ranges[i + 1] ==> y == outputs[i + 1])
  {
    BisectRightCounts(ranges, x);
    var i := Segment(ranges, x);
    var span := ranges[i + 1] - ranges[i];
    if span > 0.0 {
      var t := (x - ranges[i]) / span;
      assert t * span == x - ranges[i];
      DivideBounds(x - ranges[i], span);
      BlendBetween(outputs[i], outputs[i + 1], t);
    }
  }

  lemma DivideBounds(a: real, b: real)
    requires 0.0 <= a <= b && b > 0.0
    ensures 0.0 <= a / b <= 1.0
    ensures a == b ==> a / b == 1.0
    ensures a == 0.0 ==> a / b == 0.0
  {
    var q := a / b;
    assert q * b == a;
  }

  lemma BlendBetween(y0: real, y1: real, t: real)
    requires 0.0 <= t <= 1.0
    ensures y0 <= y1 ==> y0 <= y0 + (y1 - y0) * t <= y1
    ensures y1 <= y0 ==> y1 <= y0 + (y1 - y0) * t <= y0
  {
    if y0 <= y1 {
      ProductSign(y1 - y0, t);
      ProductSign(y1 - y0, 1.0 - t);
      assert (y1 - y0) * (1.0 - t) == (y1 - y0) - (y1 - y0) * t;
    } else {
      ProductSign(y0 - y1, t);
      ProductSign(y0 - y1, 1.0 - t);
      assert (y0 - y1) * (1.0 - t) == (y0 - y1) - (y0 - y1) * t;
      assert (y0 - y1) * t == -((y1 - y0) * t);
    }
  }

  /** Outside the range `clamp` gives the edge's output: always on the left, and on the right exactly when the last
      two breakpoints differ or their outputs are the same. */
  lemma InterpolateClamped(ranges: seq<real>, outputs: seq<real>, left: Edge, right: Edge, x: real)
    requires |ranges| >= 2 && |ranges| == |outputs|
    requires forall i, j :: 0 <= i < j < |ranges| ==> ranges[i] <= ranges[j]
    ensures x < ranges[0] && left == Clamp ==>
              Interpolate(ranges, outputs, left, right, x) == outputs[0]
    ensures x > ranges[|ranges| - 1] && right == Clamp ==>
              (Interpolate(ranges, outputs, left, right, x) == outputs[|ranges| - 1] <==>
               ranges[|ranges| - 2] < ranges[|ranges| - 1] || outputs[|ranges| - 2] == outputs[|ranges| - 1])
  {
    var n := |ranges|;
    if x < ranges[0] && left == Clamp {
      var span := ranges[1] - ranges[0];
      if span > 0.0 { DivideBounds(0.0, span); }
    }
    if x > ranges[n - 1] && ranges[n - 2] < ranges[n - 1] {
      var span := ranges[n - 1] - ranges[n - 2];
      DivideBounds(span, span);
    }
  }

  /** The other two ways out of the range: `identity` gives the input, and `extend` continues the line of the edge's
      segment. */
  lemma InterpolateOutside(ranges: seq<real>, outputs: seq<real>, left: Edge, right: Edge, x: real)
    requires |ranges| >= 2 && |ranges| == |outputs|
    requires forall i, j :: 0 <= i < j < |ranges| ==> ranges[i] <= ranges[j]
    ensures x < ranges[0] && left == Identity ==> Interpolate(ranges, outputs, left, right, x) == x
    ensures x > ranges[|ranges| - 1] && right == Identity ==> Interpolate(ranges, outputs, left, right, x) == x
    ensures x < ranges[0] && left == Extend && ranges[0] < ranges[1] ==>
              OnLine(ranges[0], outputs[0], ranges[1], outputs[1], x, Interpolate(ranges, outputs, left, right, x))
    ensures x > ranges[|ranges| - 1] && right == Extend && ranges[|ranges| - 2] < ranges[|ranges| - 1] ==>
              OnLine(ranges[|ranges| - 2], outputs[|ranges| - 2], ranges[|ranges| - 1], outputs[|ranges| - 1], x,
                     Interpolate(ranges, outputs, left, right, x))
  {
    var n := |ranges|;
    if x < ranges[0] && left == Extend && ranges[0] < ranges[1] {
      BlendAt(ranges, outputs, 0, x);
    }
    if x > ranges[n - 1] && right == Extend && ranges[n - 2] < ranges[n - 1] {
      BlendAt(ranges, outputs, n - 2, x);
    }
  }

  lemma BlendAt(ranges: seq<real>, outputs: seq<real>, i: nat, x: real)
    requires i + 1 < |ranges| && |ranges| == |outputs| && ranges[i] < ranges[i + 1]
    ensures OnLine(ranges[i], outputs[i], ranges[i + 1], outputs[i + 1], x,
                   outputs[i] + (outputs[i + 1] - outputs[i]) * ((x - ranges[i]) / (ranges[i + 1] - ranges[i])))
  {
    Blend(ranges[i], outputs[i], ranges[i + 1], outputs[i + 1], x);
  }

  /** The point `(x, y)` lies on the line through two points. */
  predicate OnLine(x0: real, y0: real, x1: real, y1: real, x: real, y: real) {
    (y - y0) * (x1 - x0) == (y1 - y0) * (x - x0)
  }

  lemma Blend(x0: real, y0: real, x1: real, y1: real, x: real)
    requires x0 < x1
    ensures OnLine(x0, y0, x1, y1, x, y0 + (y1 - y0) * ((x - x0) / (x1 - x0)))
  {
    var span, t := x1 - x0, (x - x0) / (x1 - x0);
    assert t * span == x - x0;
    var d := y1 - y0;
    assert (d * t) * span == d * (t * span);
  }

  /** A repeated last breakpoint: past the range, `clamp` gives the output before the last. */
  lemma RepeatedBreakpointClampsShort()
    ensures Interpolate([0.0, 100.0, 100.0], [0.0, 1.0, 2.0], Clamp, Clamp, 150.0) == 1.0
  {
    var ranges := [0.0, 100.0, 100.0];
    assert Segment(ranges, 150.0) == 1;
  }

  // -- what the operations mean --

  /** Sums and products are the usual ones, differences and quotients undo them, and dividing by zero gives zero. */
  lemma OperationsUndo(a: real, b: real)
    ensures Apply(Add, [a, b]) == Apply(Add, [b, a]) && Apply(Add, [a, 0.0]) == a
    ensures Apply(Multiply, [a, b]) == Apply(Multiply, [b, a]) && Apply(Multiply, [a, 1.0]) == a
    ensures Apply(Subtract, [Apply(Add, [a, b]), b]) == a && Apply(Add, [Apply(Subtract, [a, b]), b]) == a
    ensures b != 0.0 ==> Apply(Divide, [Apply(Multiply, [a, b]), b]) == a && Apply(Multiply, [Apply(Divide, [a, b]), b]) == a
    ensures Apply(Divide, [a, 0.0]) == 0.0 && Apply(Modulo, [a, 0.0]) == 0.0
    ensures Apply(Add, [a, Apply(Negate, [a])]) == 0.0
  {
    if b != 0.0 { DivideUndoes(a, b); }
  }

  lemma DivideUndoes(a: real, b: real)
    requires b != 0.0
    ensures a * b / b == a && a / b * b == a
  {
  }

  /** Modulo leaves what division by a whole number of `b` leaves: less than `b` in size, on the side of `a`. */
  lemma ModuloMeans(a: real, b: real) returns (n: int, r: real)
    requires b != 0.0
    ensures r == Apply(Modulo, [a, b]) && a == b * (n as real) + r
    ensures (b > 0.0 ==> -b < r < b) && (b < 0.0 ==> b < r < -b)
    ensures (a >= 0.0 ==> r >= 0.0) && (a <= 0.0 ==> r <= 0.0)
  {
    var q := a / b;
    assert a == q * b;
    n := Truncated(q);
    r := Fmod(a, b);
    TruncatedMeans(q);
    var part := q - n as real;
    Remainder(a, b, q, n as real, part, r);
    RemainderSide(a, b, q, part, r);
  }

  lemma TruncatedMeans(q: real)
    ensures var part := q - Truncated(q) as real;
            (q >= 0.0 ==> 0.0 <= part < 1.0) && (q < 0.0 ==> -1.0 < part <= 0.0) && (q == 0.0 ==> part == 0.0)
  {
  }

  lemma Remainder(a: real, b: real, q: real, whole: real, part: real, r: real)
    requires a == q * b && part == q - whole && r == a - b * whole
    ensures r == b * part && a == b * whole + r
  {
  }

  lemma RemainderSide(a: real, b: real, q: real, part: real, r: real)
    requires b != 0.0 && r == b * part && a == q * b && (q == 0.0 ==> part == 0.0)
    requires if q >= 0.0 then 0.0 <= part < 1.0 else -1.0 < part <= 0.0
    ensures (b > 0.0 ==> -b < r < b) && (b < 0.0 ==> b < r < -b)
    ensures (a >= 0.0 ==> r >= 0.0) && (a <= 0.0 ==> r <= 0.0)
  {
    SignOf(b, part, r);
    SignOf(b, q, a);
    SizeOf(b, part, r);
  }

  lemma SignOf(b: real, x: real, p: real)
    requires p == b * x
    ensures b > 0.0 ==> (p > 0.0 <==> x > 0.0) && (p < 0.0 <==> x < 0.0)
    ensures b < 0.0 ==> (p > 0.0 <==> x < 0.0) && (p < 0.0 <==> x > 0.0)
  {
    var ab, ax := if b > 0.0 then b else -b, if x > 0.0 then x else -x;
    if b != 0.0 && x != 0.0 {
      ProductPositive(ab, ax);
      assert p == ab * ax || p == -(ab * ax);
    }
  }

  lemma SizeOf(b: real, x: real, p: real)
    requires -1.0 < x < 1.0 && p == b * x
    ensures b > 0.0 ==> -b < p < b
    ensures b < 0.0 ==> b < p < -b
  {
    var less, more := b - p, b + p;
    Spread(b, x, p);
    SignOf(b, 1.0 - x, less);
    SignOf(b, 1.0 + x, more);
  }

  lemma Spread(b: real, x: real, p: real)
    requires p == b * x
    ensures b * (1.0 - x) == b - p && b * (1.0 + x) == b + p
  {
  }

  // -- the value of a node --

  /** A node's value, given its inputs' values; a diff clamp keeps its own. */
  function Compute(n: AnimNode, args: seq<real>): real
    requires NodeOk(n) && |args| == |Inputs(n)|
  {
    match n
    case Value(v) => v
    case Interpolation(_, r, o, left, right) => Interpolate(r, o, left, right, args[0])
    case Operation(op, _) => Apply(op, args)
    case DiffClamp(_, _, _, _, current) => current
  }

  function ValueOf(g: Graph, x: Id): real
    requires WellFormed(g) && x in g.nodes
    decreases g.born[x], 1
  {
    Compute(g.nodes[x], ArgsOf(g, x))
  }

  function ArgsOf(g: Graph, x: Id): (args: seq<real>)
    requires WellFormed(g) && x in g.nodes
    ensures |args| == |Inputs(g.nodes[x])|
    decreases g.born[x], 0
  {
    var inputs := Inputs(g.nodes[x]);
    seq(|inputs|, i requires 0 <= i < |inputs| =>
      assert inputs[i].Node? ==> Feeds(g.nodes, inputs[i].id, x);
      match inputs[i] case Constant(c) => c case Node(p) => ValueOf(g, p))
  }

  /** A diff clamp has seen its input's current value. */
  ghost predicate SyncedAt(g: Graph, x: Id)
    requires WellFormed(g) && x in g.nodes
  {
    g.nodes[x].DiffClamp? ==> g.nodes[x].lastInput == ArgsOf(g, x)[0]
  }

  ghost predicate Synced(g: Graph)
    requires WellFormed(g)
  {
    forall x <- g.nodes :: SyncedAt(g, x)
  }
}
