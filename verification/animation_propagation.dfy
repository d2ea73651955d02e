/** Keeping stateful nodes current: every change of a value reaches every diff clamp it affects. */
module AnimationPropagation {
  import opened AnimationNodes
  import AnimationGraph

  ghost predicate Ranked(nodes: Nodes, born: Ranks) {
    forall p: Id, y: Id :: Feeds(nodes, p, y) ==> p in nodes && p in born && y in born && born[p] < born[y]
  }

  predicate Stateful(nodes: Nodes, y: Id) {
    y in nodes && nodes[y].DiffClamp?
  }

  /** Whether the value of `y` is computed from the state of `x`; a diff clamp's value is its own state. */
  ghost predicate Depends(nodes: Nodes, born: Ranks, y: Id, x: Id)
    requires Ranked(nodes, born) && y in born
    decreases born[y]
  {
    y == x || (!Stateful(nodes, y) && exists p: Id :: Feeds(nodes, p, y) && Depends(nodes, born, p, x))
  }

  /** Whether telling `w` about a change leads to telling `y`, without another diff clamp on the way. */
  ghost predicate Reaches(nodes: Nodes, born: Ranks, w: Id, y: Id)
    requires Ranked(nodes, born)
  {
    y == w || exists p: Id :: Feeds(nodes, p, y) && Depends(nodes, born, p, w)
  }

  ghost predicate ReachedFrom(nodes: Nodes, born: Ranks, told: set<Id>, y: Id)
    requires Ranked(nodes, born)
  {
    exists w :: w in told && Reaches(nodes, born, w, y)
  }

  /** Every diff clamp behind its input will still hear of it: from a node that is about to be told. */
  ghost predicate Awaited(g: Graph, told: set<Id>)
    requires WellFormed(g)
  {
    Ranked(g.nodes, g.born) && forall y <- g.nodes :: SyncedAt(g, y) || ReachedFrom(g.nodes, g.born, told, y)
  }

  lemma NobodyAwaited(g: Graph)
    requires WellFormed(g)
    ensures Awaited(g, {}) <==> Synced(g)
  {
    assert Ranked(g.nodes, g.born);
  }

  /** What a diff clamp does with its input's new value. */
  function Moved(n: AnimNode, latest: real): AnimNode
    requires n.DiffClamp?
  {
    n.(lastInput := latest, current := Pin(n.min, n.max, n.current + (latest - n.lastInput)))
  }

  /** Hearing of the same value again changes nothing. */
  lemma MovedTwice(n: AnimNode, latest: real)
    requires n.DiffClamp? && NodeOk(n)
    ensures NodeOk(Moved(n, latest))
    ensures Moved(Moved(n, latest), latest) == Moved(n, latest)
    ensures n.lastInput == latest ==> Moved(n, latest) == n
  {
  }

  /** The serialized form of a diff clamp gives, for every input, the output the diff clamp itself would have next. */
  lemma SerializedMoves(n: AnimNode, latest: real)
    requires n.DiffClamp?
    ensures AnimationGraph.Evaluate(AnimationGraph.SpecOf(n), [latest]) == Moved(n, latest).current
  {
  }

  // -- states of one graph --

  /** Only states differ: the same nodes, with the same inputs. */
  ghost predicate SameShape(nodes: Nodes, nodes': Nodes) {
    && (forall p: Id, y: Id :: Feeds(nodes', p, y) == Feeds(nodes, p, y))
    && (forall y: Id :: Stateful(nodes', y) == Stateful(nodes, y))
  }

  lemma {:induction false} DependsSame(nodes: Nodes, nodes': Nodes, born: Ranks, y: Id, x: Id)
    requires Ranked(nodes, born) && Ranked(nodes', born) && SameShape(nodes, nodes') && y in born
    ensures Depends(nodes', born, y, x) == Depends(nodes, born, y, x)
    decreases born[y]
  {
    assert Stateful(nodes', y) == Stateful(nodes, y);
    forall p: Id | Feeds(nodes, p, y) ensures Depends(nodes', born, p, x) == Depends(nodes, born, p, x) {
      DependsSame(nodes, nodes', born, p, x);
    }
    assert forall p: Id :: Feeds(nodes', p, y) == Feeds(nodes, p, y);
  }

  lemma ReachedSame(nodes: Nodes, nodes': Nodes, born: Ranks, told: set<Id>, y: Id)
    requires Ranked(nodes, born) && Ranked(nodes', born) && SameShape(nodes, nodes')
    requires ReachedFrom(nodes, born, told, y)
    ensures ReachedFrom(nodes', born, told, y)
  {
    var w :| w in told && Reaches(nodes, born, w, y);
    if y != w {
      var p: Id :| Feeds(nodes, p, y) && Depends(nodes, born, p, w);
      assert Feeds(nodes', p, y);
      DependsSame(nodes, nodes', born, p, w);
    }
    assert Reaches(nodes', born, w, y);
  }

  /** What is reached from a node other than itself is reached from one of its children. */
  lemma {:induction false} DependsThroughChild(nodes: Nodes, born: Ranks, p: Id, w: Id) returns (c: Id)
    requires Ranked(nodes, born) && p in born && Depends(nodes, born, p, w) && p != w
    ensures Feeds(nodes, w, c) && c in born && Depends(nodes, born, p, c)
    decreases born[p]
  {
    var q: Id :| Feeds(nodes, q, p) && Depends(nodes, born, q, w);
    if q == w {
      c := p;
    } else {
      c := DependsThroughChild(nodes, born, q, w);
    }
  }

  lemma ReachesThroughChild(nodes: Nodes, born: Ranks, w: Id, y: Id) returns (c: Id)
    requires Ranked(nodes, born) && Reaches(nodes, born, w, y) && y != w
    ensures Feeds(nodes, w, c) && Reaches(nodes, born, c, y)
  {
    var p: Id :| Feeds(nodes, p, y) && Depends(nodes, born, p, w);
    if p == w {
      c := y;
    } else {
      c := DependsThroughChild(nodes, born, p, w);
    }
  }

  /** Nothing is computed from a younger node, or from one that isn't there. */
  lemma {:induction false} OlderIndependent(nodes: Nodes, born: Ranks, y: Id, x: Id)
    requires Ranked(nodes, born) && y in born && (x in born ==> born[y] < born[x])
    ensures !Depends(nodes, born, y, x)
    decreases born[y]
  {
    forall p: Id | Feeds(nodes, p, y) ensures !Depends(nodes, born, p, x) {
      OlderIndependent(nodes, born, p, x);
    }
  }

  // -- what a change leaves alone --

  lemma ArgsSame(g: Graph, g': Graph, y: Id)
    requires WellFormed(g) && WellFormed(g') && y in g.nodes && y in g'.nodes && Inputs(g'.nodes[y]) == Inputs(g.nodes[y])
    requires forall p: Id :: Feeds(g.nodes, p, y) ==> p in g'.nodes && p in g.nodes && ValueOf(g', p) == ValueOf(g, p)
    ensures ArgsOf(g', y) == ArgsOf(g, y)
  {
    var inputs := Inputs(g.nodes[y]);
    forall i | 0 <= i < |inputs| ensures ArgsOf(g', y)[i] == ArgsOf(g, y)[i] {
      assert inputs[i] in inputs;
      if inputs[i].Node? { assert Feeds(g.nodes, inputs[i].id, y); }
    }
  }

  ghost predicate SameBut(nodes: Nodes, nodes': Nodes, x: Id) {
    forall z <- nodes :: z in nodes' && (z != x ==> nodes'[z] == nodes[z])
  }

  /** A change of `x` leaves alone every value that isn't computed from it. */
  lemma {:induction false} ValueFrame(g: Graph, g': Graph, y: Id, x: Id)
    requires WellFormed(g) && WellFormed(g') && Ranked(g.nodes, g.born) && y in g.nodes
    requires SameBut(g.nodes, g'.nodes, x) && !Depends(g.nodes, g.born, y, x)
    ensures ValueOf(g', y) == ValueOf(g, y)
    decreases g.born[y]
  {
    assert g'.nodes[y] == g.nodes[y];
    if !Stateful(g.nodes, y) {
      forall p: Id | Feeds(g.nodes, p, y) ensures p in g.nodes && ValueOf(g', p) == ValueOf(g, p) {
        ValueFrame(g, g', p, x);
      }
      ArgsSame(g, g', y);
    }
  }

  /** So does it with every diff clamp it doesn't reach. */
  lemma StaysSynced(g: Graph, g': Graph, y: Id, x: Id)
    requires WellFormed(g) && WellFormed(g') && Ranked(g.nodes, g.born) && y in g.nodes && SyncedAt(g, y)
    requires SameBut(g.nodes, g'.nodes, x) && !Reaches(g.nodes, g.born, x, y)
    ensures SyncedAt(g', y)
  {
    if Stateful(g.nodes, y) {
      forall p: Id | Feeds(g.nodes, p, y) ensures p in g.nodes && ValueOf(g', p) == ValueOf(g, p) {
        ValueFrame(g, g', p, x);
      }
      ArgsSame(g, g', y);
    }
  }

  function Children(g: Graph, x: Id): set<Id>
    requires x in g.children
  {
    set c | c in g.children[x]
  }

  /** After `x` has changed, and caught up with its input, telling its children is all that is missing. */
  lemma TellChildren(g: Graph, g': Graph, x: Id, told: set<Id>)
    requires WellFormed(g) && WellFormed(g') && Awaited(g, told + {x}) && Ranked(g'.nodes, g'.born)
    requires g'.born == g.born && SameShape(g.nodes, g'.nodes) && SameBut(g.nodes, g'.nodes, x) && SameBut(g'.nodes, g.nodes, x)
    requires x in g'.nodes && SyncedAt(g', x)
    requires forall c: Id :: Feeds(g.nodes, x, c) ==> c in Children(g', x)
    ensures Awaited(g', told + Children(g', x))
  {
    forall y | y in g'.nodes && y != x
      ensures SyncedAt(g', y) || ReachedFrom(g'.nodes, g'.born, told + Children(g', x), y)
    {
      if SyncedAt(g, y) && !Reaches(g.nodes, g.born, x, y) {
        StaysSynced(g, g', y, x);
      } else {
        ReachedNext(g.nodes, g.born, x, y, told, Children(g', x));
        ReachedSame(g.nodes, g'.nodes, g.born, told + Children(g', x), y);
      }
    }
  }

  lemma ReachedNext(nodes: Nodes, born: Ranks, x: Id, y: Id, told: set<Id>, children: set<Id>)
    requires Ranked(nodes, born) && y != x
    requires Reaches(nodes, born, x, y) || ReachedFrom(nodes, born, told + {x}, y)
    requires forall c: Id :: Feeds(nodes, x, c) ==> c in children
    ensures ReachedFrom(nodes, born, told + children, y)
  {
    if Reaches(nodes, born, x, y) {
      var c := ReachesThroughChild(nodes, born, x, y);
      assert c in told + children;
    } else {
      var w :| w in told + {x} && Reaches(nodes, born, w, y);
      assert w in told + children;
    }
  }

  // -- edits --

  function Edited(g: Graph, x: Id, n: AnimNode): Graph {
    g.(nodes := g.nodes[x := n])
  }

  /** Changing a node's state, and not its inputs, keeps the graph's shape. */
  lemma EditShape(nodes: Nodes, x: Id, n: AnimNode)
    requires x in nodes && Inputs(n) == Inputs(nodes[x]) && n.DiffClamp? == nodes[x].DiffClamp?
    ensures SameShape(nodes, nodes[x := n]) && SameBut(nodes, nodes[x := n], x) && SameBut(nodes[x := n], nodes, x)
  {
  }

  lemma EditParts(nodes: Nodes, children: Links, born: Ranks, x: Id, n: AnimNode)
    requires x in nodes && Inputs(n) == Inputs(nodes[x]) && NodeOk(n)
    requires InputsOk(nodes, children, born) && ChildrenOk(nodes, children) && NodesOk(nodes)
    ensures var nodes' := nodes[x := n];
            InputsOk(nodes', children, born) && ChildrenOk(nodes', children) && NodesOk(nodes') && nodes'.Keys == nodes.Keys
  {
    var nodes' := nodes[x := n];
    assert forall p: Id, y: Id :: Feeds(nodes', p, y) == Feeds(nodes, p, y);
  }

  lemma EditKeeps(g: Graph, x: Id, n: AnimNode)
    requires WellFormed(g) && x in g.nodes && NodeOk(n) && Inputs(n) == Inputs(g.nodes[x])
    ensures WellFormed(Edited(g, x, n))
  {
    EditParts(g.nodes, g.children, g.born, x, n);
  }

  lemma EditMoves(g: Graph, x: Id, n: AnimNode)
    requires x in g.nodes && Bare(n) == Bare(g.nodes[x])
    ensures ClampsMoved(g, Edited(g, x, n))
  {
    assert g.nodes[x := n].Keys == g.nodes.Keys;
    assert forall z <- g.nodes :: Bare(g.nodes[x := n][z]) == Bare(g.nodes[z]);
  }

  /** A changed node, up to date with its input, keeps the graph well formed and owes its children the news. */
  lemma EditOwes(g: Graph, x: Id, n: AnimNode, told: set<Id>)
    requires WellFormed(g) && Awaited(g, told + {x}) && x in g.nodes
    requires NodeOk(n) && Inputs(n) == Inputs(g.nodes[x]) && n.DiffClamp? == g.nodes[x].DiffClamp?
    requires n.DiffClamp? ==> n == Moved(g.nodes[x], ArgsOf(g, x)[0])
    ensures WellFormed(Edited(g, x, n)) && Awaited(Edited(g, x, n), told + Children(g, x))
  {
    var g' := Edited(g, x, n);
    WellRanked(g);
    EditKeeps(g, x, n);
    EditShape(g.nodes, x, n);
    WellRanked(g');
    if n.DiffClamp? { CaughtUp(g, g', x); }
    TellChildren(g, g', x, told);
  }

  /** A node once it has looked at its input. */
  function Heard(g: Graph, x: Id): AnimNode
    requires WellFormed(g) && x in g.nodes
  {
    if g.nodes[x].DiffClamp? then Moved(g.nodes[x], ArgsOf(g, x)[0]) else g.nodes[x]
  }

  lemma HeardMeans(g: Graph, x: Id, told: set<Id>)
    requires WellFormed(g) && Awaited(g, told + {x}) && x in g.nodes
    ensures WellFormed(Edited(g, x, Heard(g, x))) && Awaited(Edited(g, x, Heard(g, x)), told + Children(g, x))
    ensures ClampsMoved(g, Edited(g, x, Heard(g, x)))
    ensures !g.nodes[x].DiffClamp? ==> Edited(g, x, Heard(g, x)) == g
  {
    if g.nodes[x].DiffClamp? { MovedTwice(g.nodes[x], ArgsOf(g, x)[0]); }
    EditOwes(g, x, Heard(g, x), told);
    EditMoves(g, x, Heard(g, x));
    assert !g.nodes[x].DiffClamp? ==> g.nodes[x := g.nodes[x]] == g.nodes;
  }

  lemma ValueKept(g: Graph, g': Graph, x: Id)
    requires WellFormed(g') && ClampsMoved(g, g') && x in g.nodes && g.nodes[x].Value?
    ensures x in g'.nodes && ValueOf(g', x) == g.nodes[x].value
  {
    assert x in BareNodes(g.nodes) && x in BareNodes(g'.nodes);
    assert Bare(g'.nodes[x]) == Bare(g.nodes[x]);
  }

  // -- what a diff clamp makes of a change, when no other diff clamp stands before it --

  /** Whether a value is computed from values alone. */
  ghost predicate Stateless(nodes: Nodes, born: Ranks, p: Id)
    requires Ranked(nodes, born) && p in born
    decreases born[p]
  {
    !Stateful(nodes, p) && forall q: Id :: Feeds(nodes, q, p) ==> Stateless(nodes, born, q)
  }

  lemma {:induction false} StatelessSame(g: Graph, g': Graph, p: Id)
    requires WellFormed(g) && WellFormed(g') && Ranked(g.nodes, g.born) && ClampsMoved(g, g')
    requires p in g.nodes && Stateless(g.nodes, g.born, p)
    ensures ValueOf(g', p) == ValueOf(g, p)
    decreases g.born[p]
  {
    BareSame(g, g', p);
    forall q: Id | Feeds(g.nodes, q, p) ensures q in g.nodes && ValueOf(g', q) == ValueOf(g, q) {
      StatelessSame(g, g', q);
    }
    ArgsSame(g, g', p);
  }

  lemma BareSame(g: Graph, g': Graph, p: Id)
    requires ClampsMoved(g, g') && p in g.nodes
    ensures Bare(g'.nodes[p]) == Bare(g.nodes[p])
  {
    assert p in BareNodes(g.nodes) && p in BareNodes(g'.nodes);
  }

  /** A diff clamp on a stateless value. */
  ghost predicate First(g: Graph, y: Id)
    requires WellFormed(g) && Ranked(g.nodes, g.born)
  {
    Stateful(g.nodes, y) && g.nodes[y].parent in g.nodes && Stateless(g.nodes, g.born, g.nodes[y].parent)
  }

  /** Such a diff clamp has moved once, by the whole change, or not yet. */
  ghost predicate MovedOnce(start: Graph, g: Graph)
    requires WellFormed(start) && Ranked(start.nodes, start.born)
  {
    forall y <- start.nodes :: First(start, y) && y in g.nodes ==>
      g.nodes[y] == start.nodes[y] || g.nodes[y] == Moved(start.nodes[y], ValueOf(start, start.nodes[y].parent))
  }

  lemma HeardOnce(start: Graph, g: Graph, x: Id)
    requires WellFormed(start) && WellFormed(g) && Ranked(start.nodes, start.born) && ClampsMoved(start, g)
    requires MovedOnce(start, g) && x in g.nodes
    ensures ClampsMoved(start, Edited(g, x, Heard(g, x))) && MovedOnce(start, Edited(g, x, Heard(g, x)))
  {
    EditMovesOn(start, g, x);
    if First(start, x) {
      var p := start.nodes[x].parent;
      BareSame(start, g, x);
      StatelessSame(start, g, p);
      assert Inputs(g.nodes[x])[0] == Node(p);
      MovedTwice(start.nodes[x], ValueOf(start, p));
    }
  }

  lemma EditMovesOn(start: Graph, g: Graph, x: Id)
    requires WellFormed(g) && ClampsMoved(start, g) && x in g.nodes
    ensures ClampsMoved(start, Edited(g, x, Heard(g, x)))
  {
    EditMoves(g, x, Heard(g, x));
  }

  /** Once everything is up to date, it has moved. */
  lemma MovedAtLast(start: Graph, g: Graph, y: Id)
    requires WellFormed(start) && WellFormed(g) && Ranked(start.nodes, start.born) && ClampsMoved(start, g)
    requires MovedOnce(start, g) && y in start.nodes && First(start, y) && SyncedAt(g, y)
    ensures g.nodes[y] == Moved(start.nodes[y], ValueOf(start, start.nodes[y].parent))
  {
    var p := start.nodes[y].parent;
    BareSame(start, g, y);
    StatelessSame(start, g, p);
    assert Inputs(g.nodes[y])[0] == Node(p);
    MovedTwice(start.nodes[y], ValueOf(start, p));
  }

  lemma ChildLater(g: Graph, x: Id, c: Id)
    requires WellFormed(g) && x in g.nodes && c in g.children[x]
    ensures c in g.nodes && g.born[c] > g.born[x]
  {
    assert Node(x) in Inputs(g.nodes[c]);
  }

  lemma WellRanked(g: Graph)
    requires WellFormed(g)
    ensures Ranked(g.nodes, g.born)
  {
  }

  /** Catching up is reading the input once: what the input's value is computed from is not the diff clamp's own state. */
  lemma CaughtUp(g: Graph, g': Graph, x: Id)
    requires WellFormed(g) && WellFormed(g') && Ranked(g.nodes, g.born) && Stateful(g.nodes, x) && x in g'.nodes
    requires g'.nodes[x] == Moved(g.nodes[x], ArgsOf(g, x)[0]) && SameBut(g.nodes, g'.nodes, x)
    ensures SyncedAt(g', x)
  {
    forall p: Id | Feeds(g.nodes, p, x) ensures p in g.nodes && ValueOf(g', p) == ValueOf(g, p) {
      OlderIndependent(g.nodes, g.born, p, x);
      ValueFrame(g, g', p, x);
    }
    ArgsSame(g, g', x);
  }

  /** A node without its state. */
  function Bare(n: AnimNode): AnimNode {
    if n.DiffClamp? then n.(lastInput := 0.0, current := 0.0) else n
  }

  /** Only the states of diff clamps differ. */
  ghost predicate ClampsMoved(g: Graph, g': Graph) {
    && g'.nodes.Keys == g.nodes.Keys && g'.children == g.children && g'.attachments == g.attachments && g'.born == g.born
    && BareNodes(g'.nodes) == BareNodes(g.nodes)
  }

  function BareNodes(nodes: Nodes): Nodes {
    map z | z in nodes :: Bare(nodes[z])
  }

  function IdsFrom(ids: seq<Id>, i: nat): set<Id>
    requires i <= |ids|
  {
    set c | c in ids[i..]
  }

  lemma IdsFromStep(told: set<Id>, ids: seq<Id>, i: nat)
    requires i < |ids|
    ensures told + IdsFrom(ids, i) == (told + IdsFrom(ids, i + 1)) + {ids[i]}
  {
    assert ids[i..] == [ids[i]] + ids[i + 1..];
  }

  // -- new nodes --

  /** A new node: its inputs adopt it. */
  function Created(g: Graph, x: Id, n: AnimNode): Graph {
    Graph(g.nodes[x := n], Adopted(g.children, x, Inputs(n)), g.attachments[x := []], g.born[x := x])
  }

  function Adopted(children: Links, x: Id, inputs: seq<Input>): Links {
    (map p | p in children :: if Node(p) in inputs then children[p] + [x] else children[p])[x := []]
  }

  lemma CreatedInputs(nodes: Nodes, children: Links, born: Ranks, x: Id, n: AnimNode)
    requires InputsOk(nodes, children, born) && nodes.Keys == children.Keys == born.Keys
    requires forall y <- born :: y < x && born[y] < x
    requires forall p: Id :: Node(p) in Inputs(n) ==> p in nodes
    ensures InputsOk(nodes[x := n], Adopted(children, x, Inputs(n)), born[x := x])
  {
    var nodes', children' := nodes[x := n], Adopted(children, x, Inputs(n));
    forall p: Id, y: Id | Feeds(nodes', p, y)
      ensures p in nodes && p in children' && y in born[x := x] && born[p] < born[x := x][y] && y in children'[p]
    {
      if y != x { assert Feeds(nodes, p, y); }
    }
  }

  lemma CreatedChildren(nodes: Nodes, children: Links, x: Id, n: AnimNode)
    requires ChildrenOk(nodes, children) && x !in nodes && x !in children
    ensures ChildrenOk(nodes[x := n], Adopted(children, x, Inputs(n)))
  {
    var nodes', children' := nodes[x := n], Adopted(children, x, Inputs(n));
    forall y: Id, c: Id | y in children' && c in children'[y] ensures Feeds(nodes', y, c) {
      if c in (if y in children then children[y] else []) { assert Feeds(nodes, y, c); }
    }
  }

  lemma CreatedKeeps(g: Graph, x: Id, n: AnimNode)
    requires WellFormed(g) && Bounded(g, x) && NodeOk(n) && forall p: Id :: Node(p) in Inputs(n) ==> p in g.nodes
    ensures WellFormed(Created(g, x, n)) && Bounded(Created(g, x, n), x + 1)
  {
    CreatedInputs(g.nodes, g.children, g.born, x, n);
    CreatedChildren(g.nodes, g.children, x, n);
  }

  /** Nodes that were there are as up to date as they were. */
  lemma NewcomerAside(g: Graph, g': Graph, x: Id)
    requires WellFormed(g) && Synced(g) && WellFormed(g') && x !in g.nodes && SameBut(g.nodes, g'.nodes, x)
    ensures forall y <- g.nodes :: SyncedAt(g', y) && ValueOf(g', y) == ValueOf(g, y)
  {
    WellRanked(g);
    forall y | y in g.nodes ensures SyncedAt(g', y) && ValueOf(g', y) == ValueOf(g, y) {
      OlderIndependent(g.nodes, g.born, y, x);
      forall p: Id | Feeds(g.nodes, p, y) ensures !Depends(g.nodes, g.born, p, x) {
        OlderIndependent(g.nodes, g.born, p, x);
      }
      ValueFrame(g, g', y, x);
      StaysSynced(g, g', y, x);
    }
  }

  lemma CreatedSynced(g: Graph, x: Id, n: AnimNode)
    requires WellFormed(g) && Synced(g) && Bounded(g, x) && WellFormed(Created(g, x, n))
    requires n.DiffClamp? ==> n.parent in g.nodes && n.lastInput == ValueOf(g, n.parent)
    ensures Synced(Created(g, x, n))
  {
    var g' := Created(g, x, n);
    assert x !in g.nodes;
    NewcomerAside(g, g', x);
    NewcomerSynced(g', x, n);
  }

  lemma NewcomerSynced(g: Graph, x: Id, n: AnimNode)
    requires WellFormed(g) && x in g.nodes && g.nodes[x] == n
    requires n.DiffClamp? ==> n.parent in g.nodes && n.lastInput == ValueOf(g, n.parent)
    ensures SyncedAt(g, x)
  {
    if n.DiffClamp? {
      assert Inputs(n)[0] == Node(n.parent);
      assert ArgsOf(g, x)[0] == ValueOf(g, n.parent);
    }
  }

  /** A propagation that began at `start` has moved the first diff clamps once at most. */
  ghost predicate Started(start: Graph, g: Graph) {
    WellFormed(start) && Ranked(start.nodes, start.born) && ClampsMoved(start, g) && MovedOnce(start, g)
  }

  lemma StartedHere(g: Graph)
    requires WellFormed(g)
    ensures Started(g, g)
  {
    WellRanked(g);
  }

  /** The first diff clamps after a change have moved by exactly that change. */
  ghost predicate FirstMoved(start: Graph, g: Graph)
    requires WellFormed(start) && Ranked(start.nodes, start.born)
  {
    forall y <- start.nodes :: First(start, y) ==>
      y in g.nodes && g.nodes[y] == Moved(start.nodes[y], ValueOf(start, start.nodes[y].parent))
  }

  lemma AllMoved(start: Graph, g: Graph)
    requires Started(start, g) && WellFormed(g) && Awaited(g, {})
    ensures FirstMoved(start, g)
  {
    NobodyAwaited(g);
    forall y | y in start.nodes && First(start, y)
      ensures y in g.nodes && g.nodes[y] == Moved(start.nodes[y], ValueOf(start, start.nodes[y].parent))
    {
      assert SyncedAt(g, y);
      MovedAtLast(start, g, y);
    }
  }

  /** A diff clamp's output changed by what its input's value changed by, as far as its range lets it. */
  ghost predicate Follows(g: Graph, g': Graph, y: Id)
    requires WellFormed(g) && WellFormed(g')
  {
    && Stateful(g.nodes, y) && Stateful(g'.nodes, y) && g.nodes[y].parent in g.nodes && g.nodes[y].parent in g'.nodes
    && var n := g.nodes[y];
       var to := ValueOf(g, y) + (ValueOf(g', n.parent) - ValueOf(g, n.parent));
       ValueOf(g', y) == if to < n.min then n.min else if to > n.max then n.max else to
  }

  lemma FirstFollow(g: Graph, x: Id, value: real, g': Graph)
    requires WellFormed(g) && Synced(g) && x in g.nodes && g.nodes[x].Value? && WellFormed(g')
    requires var changed := Edited(g, x, Value(value));
             WellFormed(changed) && Ranked(changed.nodes, changed.born) && FirstMoved(changed, g') && ClampsMoved(changed, g')
    ensures forall y <- g.nodes :: First(Edited(g, x, Value(value)), y) ==> Follows(g, g', y)
  {
    var changed := Edited(g, x, Value(value));
    forall y | y in g.nodes && First(changed, y) ensures Follows(g, g', y) {
      var p := g.nodes[y].parent;
      assert changed.nodes[y] == g.nodes[y];
      assert SyncedAt(g, y) && Inputs(g.nodes[y])[0] == Node(p);
      assert ArgsOf(g, y)[0] == ValueOf(g, p);
      StatelessSame(changed, g', p);
      BareSame(changed, g', y);
    }
  }

  function Operand(g: Graph, i: Input): real
    requires WellFormed(g) && (i.Node? ==> i.id in g.nodes)
  {
    match i case Constant(c) => c case Node(p) => ValueOf(g, p)
  }

  lemma OperandsOf(g: Graph, g': Graph, x: Id, op: Op, a: Input, b: Input)
    requires WellFormed(g) && WellFormed(g') && x in g'.nodes && g'.nodes[x] == Operation(op, [a, b])
    requires (a.Node? ==> a.id in g.nodes) && (b.Node? ==> b.id in g.nodes)
    requires forall y <- g.nodes :: y in g'.nodes && ValueOf(g', y) == ValueOf(g, y)
    ensures ValueOf(g', x) == Apply(op, [Operand(g, a), Operand(g, b)])
  {
    assert Inputs(g'.nodes[x]) == [a, b];
    assert ArgsOf(g', x) == [Operand(g, a), Operand(g, b)];
  }

  ghost predicate Bounded(g: Graph, limit: nat) {
    forall x <- g.born :: x < limit && g.born[x] < limit
  }

  /** The live nodes of one application. */
  class LiveGraph {
    var graph: Graph
    var nextId: nat

    ghost predicate Valid()
      reads this
    {
      WellFormed(graph) && Synced(graph) && Bounded(graph, nextId)
    }

    constructor ()
      ensures Valid() && graph.nodes == map[]
    {
      graph, nextId := Graph(map[], map[], map[], map[]), 0;
    }

    method Create(n: AnimNode) returns (x: Id)
      requires Valid() && NodeOk(n) && forall p: Id :: Node(p) in Inputs(n) ==> p in graph.nodes
      requires n.DiffClamp? ==> n.parent in graph.nodes && n.lastInput == ValueOf(graph, n.parent)
      modifies this
      ensures Valid() && x !in old(graph).nodes && graph == Created(old(graph), x, n)
      ensures forall y <- old(graph).nodes :: y in graph.nodes && ValueOf(graph, y) == ValueOf(old(graph), y)
    {
      x := nextId;
      CreatedKeeps(graph, x, n);
      CreatedSynced(graph, x, n);
      NewcomerAside(graph, Created(graph, x, n), x);
      nextId := nextId + 1;
      graph := Created(graph, x, n);
    }

    /** A settable value starts at its number. */
    method NewValue(initial: real) returns (x: Id)
      requires Valid()
      modifies this
      ensures Valid() && x in graph.nodes && graph.nodes[x] == Value(initial) && ValueOf(graph, x) == initial
    {
      x := Create(Value(initial));
    }

    /** Arithmetic on two operands, each a node or a number. */
    method NewOperation(op: Op, a: Input, b: Input) returns (x: Id)
      requires Valid() && (a.Node? ==> a.id in graph.nodes) && (b.Node? ==> b.id in graph.nodes)
      modifies this
      ensures Valid() && x in graph.nodes
      ensures ValueOf(graph, x) == Apply(op, [Operand(old(graph), a), Operand(old(graph), b)])
    {
      ghost var was := graph;
      x := Create(Operation(op, [a, b]));
      OperandsOf(was, graph, x, op, a, b);
    }

    /** An interpolation needs at least two breakpoints, in order, and an output for each. */
    method NewInterpolation(parent: Id, ranges: seq<real>, outputs: seq<real>, left: Edge, right: Edge) returns (x: Id, ok: bool)
      requires Valid() && parent in graph.nodes
      modifies this
      ensures Valid() && ok == (|ranges| >= 2 && |ranges| == |outputs| && forall i, j :: 0 <= i < j < |ranges| ==> ranges[i] <= ranges[j])
      ensures !ok ==> graph == old(graph)
      ensures ok ==> x in graph.nodes && ValueOf(graph, x) == Interpolate(ranges, outputs, left, right, ValueOf(old(graph), parent))
    {
      x, ok := 0, false;
      if |ranges| < 2 || |ranges| != |outputs| { return; }
      var i := 0;
      while i < |ranges| - 1
        invariant 0 <= i < |ranges| && forall j, k :: 0 <= j < k <= i ==> ranges[j] <= ranges[k]
      {
        if ranges[i + 1] < ranges[i] { return; }
        i := i + 1;
      }
      ok := true;
      x := Create(Interpolation(parent, ranges, outputs, left, right));
      assert Inputs(graph.nodes[x])[0] == Node(parent);
      assert ArgsOf(graph, x)[0] == ValueOf(graph, parent);
    }

    /** A diff clamp starts at its input's value, pinned to its range, and up to date. */
    method NewDiffClamp(parent: Id, min: real, max: real) returns (x: Id, ok: bool)
      requires Valid() && parent in graph.nodes
      modifies this
      ensures Valid() && ok == (min <= max) && (!ok ==> graph == old(graph))
      ensures ok ==> x in graph.nodes && var v := ValueOf(old(graph), parent);
                ValueOf(graph, x) == if v < min then min else if v > max then max else v
    {
      x, ok := 0, min <= max;
      if ok {
        var input := ValueOf(graph, parent);
        x := Create(DiffClamp(parent, min, max, input, Pin(min, max, input)));
      }
    }

    /** Binding a node to a view changes no value. */
    method Attach(x: Id, tag: int, prop: string)
      requires Valid() && x in graph.nodes
      modifies `graph
      ensures Valid() && graph.nodes == old(graph).nodes
      ensures graph == old(graph).(attachments := old(graph).attachments[x := old(graph).attachments[x] + [(tag, prop)]])
    {
      var g' := graph.(attachments := graph.attachments[x := graph.attachments[x] + [(tag, prop)]]);
      assert g'.attachments.Keys == graph.attachments.Keys;
      NewcomerAside(graph, g', nextId);
      graph := g';
    }

    /** A node hears that its input changed: it catches up, and owes its children the same. */
    method Refresh(x: Id, ghost told: set<Id>, ghost start: Graph)
      requires WellFormed(graph) && x in graph.nodes && Awaited(graph, told + {x})
      requires Started(start, graph)
      modifies `graph
      ensures Started(start, graph)
      ensures WellFormed(graph) && ClampsMoved(old(graph), graph) && Awaited(graph, told + Children(graph, x))
      ensures graph == Edited(old(graph), x, Heard(old(graph), x))
    {
      HeardMeans(graph, x, told);
      HeardOnce(start, graph, x);
      if graph.nodes[x].DiffClamp? {
        graph := Edited(graph, x, Moved(graph.nodes[x], ArgsOf(graph, x)[0]));
      }
    }

    /** Refreshes a node and then everything derived from it, depth first. */
    method Propagate(x: Id, ghost told: set<Id>, ghost start: Graph)
      requires WellFormed(graph) && x in graph.nodes && Awaited(graph, told + {x}) && Bounded(graph, nextId)
      requires Started(start, graph)
      modifies `graph
      ensures Started(start, graph)
      ensures WellFormed(graph) && ClampsMoved(old(graph), graph) && Awaited(graph, told)
      decreases nextId - graph.born[x], 1
    {
      Refresh(x, told, start);
      Descend(x, told, start);
    }

    method Descend(x: Id, ghost told: set<Id>, ghost start: Graph)
      requires WellFormed(graph) && x in graph.nodes && Awaited(graph, told + Children(graph, x)) && Bounded(graph, nextId)
      requires Started(start, graph)
      modifies `graph
      ensures Started(start, graph)
      ensures WellFormed(graph) && ClampsMoved(old(graph), graph) && Awaited(graph, told)
      decreases nextId - graph.born[x], 0
    {
      var children := graph.children[x];
      assert told + Children(graph, x) == told + IdsFrom(children, 0);
      for i := 0 to |children|
        invariant WellFormed(graph) && ClampsMoved(old(graph), graph)
        invariant Awaited(graph, told + IdsFrom(children, i)) && Started(start, graph)
      {
        IdsFromStep(told, children, i);
        ChildLater(graph, x, children[i]);
        Propagate(children[i], told + IdsFrom(children, i + 1), start);
      }
      assert told + IdsFrom(children, |children|) == told;
    }

    /** Sets a value and tells everything derived from it; every diff clamp is then up to date again. */
    method SetValue(x: Id, value: real)
      requires Valid() && x in graph.nodes && graph.nodes[x].Value?
      modifies `graph
      ensures Valid() && x in graph.nodes && ValueOf(graph, x) == value
      ensures ClampsMoved(Edited(old(graph), x, Value(value)), graph)
      ensures var changed := Edited(old(graph), x, Value(value));
              WellFormed(changed) && Ranked(changed.nodes, changed.born) && FirstMoved(changed, graph)
      ensures WellFormed(graph) && WellFormed(old(graph)) && forall y <- old(graph).nodes ::
                First(Edited(old(graph), x, Value(value)), y) ==> Follows(old(graph), graph, y)
    {
      NobodyAwaited(graph);
      assert Awaited(graph, {} + {x});
      EditOwes(graph, x, Value(value), {});
      graph := Edited(graph, x, Value(value));
      ghost var changed := graph;
      StartedHere(changed);
      Descend(x, {}, changed);
      AllMoved(changed, graph);
      ValueKept(changed, graph, x);
      NobodyAwaited(graph);
      FirstFollow(old(graph), x, value, graph);
    }
  }
}
