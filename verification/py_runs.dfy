/**
 What running checked code does, as far as hooks are concerned. An oracle resolves everything the
 checker can't know: branch directions, loop counts, short circuits, exceptions that a `try` or a
 context manager takes, and which callbacks a call runs. Fuel bounds the depth of calls and the length of loops; a run that
 exhausts it is `Stuck`, and so is code Python's compiler rejects.
 */
module PyRuns {
  import opened PySyntax

  type Oracle = nat -> nat

  datatype How = Fell | Returned | Broke | Continued

  /** The hooks called, in order; the oracle position reached; and how control left. */
  datatype Run = Stuck | Ran(trace: seq<string>, pos: nat, how: How)

  /** Something a call may run later: a lambda or comprehension body, or a nested function's. */
  datatype Closure = LambdaBody(e: Expr) | FunctionBody(b: Block)

  /** The bodies behind custom hook names (any other hook is a primitive one), and every closure. */
  datatype World = World(hooks: map<string, Block>, pool: seq<Closure>)

  /** A function activation that ended normally. */
  predicate Complete(r: Run) {
    r.Ran? && (r.how == Fell || r.how == Returned)
  }

  function After(trace: seq<string>, r: Run): Run {
    if r.Stuck? then Stuck else r.(trace := trace + r.trace)
  }

  function RunE(e: Expr, w: World, o: Oracle, p: nat, fuel: nat): Run
    decreases fuel, e
  {
    match e
    case Atom => Ran([], p, Fell)
    case Parts(es) => RunEs(es, w, o, p, fuel)
    case Call(n, args) =>
      var a := RunEs(args, w, o, p, fuel);
      if a.Stuck? || fuel == 0 then Stuck else
      var h := RunHook(n, w, o, a.pos, fuel - 1);
      if h.Stuck? then Stuck else
      After(a.trace + h.trace, Callbacks(w, o, h.pos, fuel - 1))
    case Compare(l, s, m) =>
      var a := RunE(l, w, o, p, fuel);
      if a.Stuck? then Stuck else
      var b := RunE(s, w, o, a.pos, fuel);
      if b.Stuck? then Stuck else
      After(a.trace + b.trace, RunUpTo(m, o(b.pos), w, o, b.pos + 1, fuel))
    case BoolOp(_, f, r) =>
      var a := RunE(f, w, o, p, fuel);
      if a.Stuck? then Stuck else
      After(a.trace, RunUpTo(r, o(a.pos), w, o, a.pos + 1, fuel))
    case IfExp(t, b, els) =>
      var a := RunE(t, w, o, p, fuel);
      if a.Stuck? then Stuck else
      After(a.trace, RunE(if o(a.pos) == 0 then b else els, w, o, a.pos + 1, fuel))
    case Lambda(d, _) => RunEs(d, w, o, p, fuel)
    case Comprehension(i, inner) =>
      var a := RunE(i, w, o, p, fuel);
      if a.Stuck? || fuel == 0 then Stuck else
      After(a.trace, RunPicks(inner, w, o, a.pos, fuel - 1))
  }

  function RunEs(es: Exprs, w: World, o: Oracle, p: nat, fuel: nat): Run
    decreases fuel, es
  {
    match es
    case NoExprs => Ran([], p, Fell)
    case ConsE(h, t) =>
      var a := RunE(h, w, o, p, fuel);
      if a.Stuck? then Stuck else
      After(a.trace, RunEs(t, w, o, a.pos, fuel))
  }

  /** The first `k` operands: a comparison chain or an `and`/`or` may stop after any of them. */
  function RunUpTo(es: Exprs, k: nat, w: World, o: Oracle, p: nat, fuel: nat): Run
    decreases fuel, es
  {
    if es.NoExprs? || k == 0 then Ran([], p, Fell) else
    var a := RunE(es.head, w, o, p, fuel);
    if a.Stuck? then Stuck else
    After(a.trace, RunUpTo(es.tail, k - 1, w, o, a.pos, fuel))
  }

  function RunNth(es: Exprs, k: nat, w: World, o: Oracle, p: nat, fuel: nat): Run
    decreases fuel, es
  {
    if es.NoExprs? then Ran([], p, Fell)
    else if k == 0 then RunE(es.head, w, o, p, fuel)
    else RunNth(es.tail, k - 1, w, o, p, fuel)
  }

  /** The parts of a comprehension run in any order, any number of times each. */
  function RunPicks(es: Exprs, w: World, o: Oracle, p: nat, fuel: nat): Run
    decreases fuel
  {
    if o(p) == 0 then Ran([], p + 1, Fell)
    else if fuel == 0 then Stuck else
    var a := RunNth(es, o(p) - 1, w, o, p + 1, fuel - 1);
    if a.Stuck? then Stuck else
    After(a.trace, RunPicks(es, w, o, a.pos, fuel - 1))
  }

  /** A custom hook runs its body; a primitive hook is one entry of the trace. */
  function RunHook(name: string, w: World, o: Oracle, p: nat, fuel: nat): Run
    decreases fuel
  {
    if !IsHookName(name) then Ran([], p, Fell)
    else if name !in w.hooks then Ran([name], p, Fell)
    else
      var r := RunB(w.hooks[name], w, o, p, fuel);
      if Complete(r) then r.(how := Fell) else Stuck
  }

  /** Any call may run any closures, in any order: they could have been passed to it. */
  function Callbacks(w: World, o: Oracle, p: nat, fuel: nat): Run
    decreases fuel
  {
    if o(p) == 0 || o(p) > |w.pool| then Ran([], p + 1, Fell)
    else if fuel == 0 then Stuck else
    var r := RunClosure(w.pool[o(p) - 1], w, o, p + 1, fuel - 1);
    if !Complete(r) then Stuck else
    After(r.trace, Callbacks(w, o, r.pos, fuel - 1))
  }

  function RunClosure(c: Closure, w: World, o: Oracle, p: nat, fuel: nat): Run
    decreases fuel
  {
    match c
    case LambdaBody(e) => RunE(e, w, o, p, fuel)
    case FunctionBody(b) => RunB(b, w, o, p, fuel)
  }

  function RunS(s: Stmt, w: World, o: Oracle, p: nat, fuel: nat): Run
    decreases fuel, s
  {
    match s
    case Simple(es) => RunEs(es, w, o, p, fuel)
    case Return(v) =>
      var a := RunE(v, w, o, p, fuel);
      if a.Stuck? then Stuck else a.(how := Returned)
    case Break => Ran([], p, Broke)
    case Continue => Ran([], p, Continued)
    case If(t, b, e) =>
      var a := RunE(t, w, o, p, fuel);
      if a.Stuck? then Stuck else
      After(a.trace, RunB(if o(a.pos) == 0 then b else e, w, o, a.pos + 1, fuel))
    case For(i, t, b, e) =>
      var a := RunE(i, w, o, p, fuel);
      if a.Stuck? || fuel == 0 then Stuck else
      After(a.trace, ForLoop(t, b, e, w, o, a.pos, fuel - 1))
    case While(t, b, e) =>
      if fuel == 0 then Stuck else WhileLoop(t, b, e, w, o, p, fuel - 1)
    case Try(b, h, e, f) =>
      var a := RunFirst(b, o(p), w, o, p + 1, fuel);
      if a.Stuck? then Stuck else
      var m := if a.how != Fell then a
               else if o(p) == 0 then After(a.trace, RunB(e, w, o, a.pos, fuel))
               else After(a.trace, RunA(h, w, o, a.pos, fuel));
      if m.Stuck? then Stuck else
      var z := RunB(f, w, o, m.pos, fuel);
      if z.Stuck? then Stuck else
      Ran(m.trace + z.trace, z.pos, if z.how != Fell then z.how else m.how)
    case With(es, swallows, b) =>
      var a := RunEs(es, w, o, p, fuel);
      if a.Stuck? then Stuck else
      After(a.trace, if swallows then RunFirst(b, o(a.pos), w, o, a.pos + 1, fuel) else RunB(b, w, o, a.pos, fuel))
    case Match(e, cs) =>
      var a := RunE(e, w, o, p, fuel);
      if a.Stuck? then Stuck else
      After(a.trace, RunA(cs, w, o, a.pos, fuel))
    case Def(_, _, h, ann, _) =>
      var a := RunEs(h, w, o, p, fuel);
      if a.Stuck? then Stuck else
      After(a.trace, RunEs(ann, w, o, a.pos, fuel))
    case Class(h, b) =>
      var a := RunEs(h, w, o, p, fuel);
      if a.Stuck? then Stuck else
      var r := After(a.trace, RunB(b, w, o, a.pos, fuel));
      if r.Ran? && r.how == Fell then r else Stuck
  }

  function RunB(b: Block, w: World, o: Oracle, p: nat, fuel: nat): Run
    decreases fuel, b
  {
    match b
    case End => Ran([], p, Fell)
    case Seq(s, rest) =>
      var a := RunS(s, w, o, p, fuel);
      if a.Stuck? then Stuck
      else if a.how != Fell then a
      else After(a.trace, RunB(rest, w, o, a.pos, fuel))
  }

  /** The body of a `try` or of a `with` that swallows: all of it, or, after an exception, its first statements only. */
  function RunFirst(b: Block, cut: nat, w: World, o: Oracle, p: nat, fuel: nat): Run
    decreases fuel, b
  {
    if b.End? || cut == 1 then Ran([], p, Fell) else
    var a := RunS(b.first, w, o, p, fuel);
    if a.Stuck? then Stuck
    else if a.how != Fell then a
    else After(a.trace, RunFirst(b.rest, if cut == 0 then 0 else cut - 1, w, o, a.pos, fuel))
  }

  /** The first arm the oracle accepts; none is also possible. */
  function RunA(arms: Arms, w: World, o: Oracle, p: nat, fuel: nat): Run
    decreases fuel, arms
  {
    match arms
    case NoArms => Ran([], p, Fell)
    case Arm(t, b, rest) =>
      var a := RunE(t, w, o, p, fuel);
      if a.Stuck? then Stuck else
      After(a.trace, if o(a.pos) == 0 then RunA(rest, w, o, a.pos + 1, fuel) else RunB(b, w, o, a.pos + 1, fuel))
  }

  function ForLoop(target: Expr, body: Block, orelse: Block, w: World, o: Oracle, p: nat, fuel: nat): Run
    decreases fuel
  {
    if o(p) == 0 then RunB(orelse, w, o, p + 1, fuel)
    else if fuel == 0 then Stuck else
    var a := RunE(target, w, o, p + 1, fuel - 1);
    if a.Stuck? then Stuck else
    var r := RunB(body, w, o, a.pos, fuel - 1);
    if r.Stuck? then Stuck
    else if r.how == Broke then Ran(a.trace + r.trace, r.pos, Fell)
    else if r.how == Returned then After(a.trace, r)
    else After(a.trace + r.trace, ForLoop(target, body, orelse, w, o, r.pos, fuel - 1))
  }

  function WhileLoop(test: Expr, body: Block, orelse: Block, w: World, o: Oracle, p: nat, fuel: nat): Run
    decreases fuel
  {
    if fuel == 0 then Stuck else
    var a := RunE(test, w, o, p, fuel - 1);
    if a.Stuck? then Stuck
    else if o(a.pos) == 0 then After(a.trace, RunB(orelse, w, o, a.pos + 1, fuel - 1)) else
    var r := RunB(body, w, o, a.pos + 1, fuel - 1);
    if r.Stuck? then Stuck
    else if r.how == Broke then Ran(a.trace + r.trace, r.pos, Fell)
    else if r.how == Returned then After(a.trace, r)
    else After(a.trace + r.trace, WhileLoop(test, body, orelse, w, o, r.pos, fuel - 1))
  }
}
