/** The part of Python's syntax that the rules-of-hooks checker distinguishes. */
module PySyntax {
  /** Expressions, reduced to what is evaluated, in which order, and what may be skipped. */
  datatype Expr =
    | Atom
    | Parts(es: Exprs)                                  // operators, displays, subscripts, f-strings, await, ...
    | Call(name: string, args: Exprs)                   // final name of the callee; callee and arguments
    | Compare(left: Expr, second: Expr, more: Exprs)    // operands after the second may be skipped
    | BoolOp(isAnd: bool, first: Expr, others: Exprs)
    | IfExp(test: Expr, body: Expr, orelse: Expr)
    | Lambda(defaults: Exprs, body: Expr)
    | Comprehension(iter: Expr, inner: Exprs)           // first iterable; everything else in it

  datatype Exprs = NoExprs | ConsE(head: Expr, tail: Exprs)

  datatype Stmt =
    | Simple(es: Exprs)
    | Return(value: Expr)
    | Break
    | Continue
    | If(test: Expr, body: Block, orelse: Block)
    | For(iter: Expr, target: Expr, body: Block, orelse: Block)
    | While(test: Expr, body: Block, orelse: Block)
    | Try(body: Block, handlers: Arms, orelse: Block, finalbody: Block)
    | With(items: Exprs, swallows: bool, body: Block)   // one manager, which may swallow an exception; `as` targets begin the body
    | Match(subject: Expr, cases: Arms)
    | Def(name: string, component: bool, header: Exprs, annotations: Exprs, body: Block)   // header: decorators and defaults
    | Class(header: Exprs, body: Block)

  datatype Block = End | Seq(first: Stmt, rest: Block)

  /** Exception handlers (with their type) and match cases (with their guard). */
  datatype Arms = NoArms | Arm(test: Expr, body: Block, rest: Arms)

  function DropUnderscores(s: string): string {
    if s != "" && s[0] == '_' then DropUnderscores(s[1..]) else s
  }

  /** `use_` and a lowercase letter, after any leading underscores. */
  predicate IsHookName(name: string) {
    var t := DropUnderscores(name);
    |t| >= 5 && t[..4] == "use_" && 'a' <= t[4] <= 'z'
  }

  /** Whether a function's body starts a fresh checking context: a component or a custom hook. */
  predicate IsOwner(s: Stmt) {
    s.Def? && (s.component || IsHookName(s.name))
  }

  /** Whether a `return` of the enclosing function occurs in a statement. */
  predicate HasReturn(s: Stmt) {
    match s
    case Simple(_) => false
    case Return(_) => true
    case Break => false
    case Continue => false
    case If(_, b, e) => HasReturnB(b) || HasReturnB(e)
    case For(_, _, b, e) => HasReturnB(b) || HasReturnB(e)
    case While(_, b, e) => HasReturnB(b) || HasReturnB(e)
    case Try(b, h, e, f) => HasReturnB(b) || HasReturnA(h) || HasReturnB(e) || HasReturnB(f)
    case With(_, _, b) => HasReturnB(b)
    case Match(_, cs) => HasReturnA(cs)
    case Def(_, _, _, _, _) => false
    case Class(_, _) => false
  }

  predicate HasReturnB(b: Block) {
    b.Seq? && (HasReturn(b.first) || HasReturnB(b.rest))
  }

  predicate HasReturnA(a: Arms) {
    a.Arm? && (HasReturnB(a.body) || HasReturnA(a.rest))
  }

  // No hook call anywhere that running the code could reach, nested function bodies apart.

  predicate QuietE(e: Expr) {
    match e
    case Atom => true
    case Parts(es) => QuietEs(es)
    case Call(n, args) => !IsHookName(n) && QuietEs(args)
    case Compare(l, s, m) => QuietE(l) && QuietE(s) && QuietEs(m)
    case BoolOp(_, f, r) => QuietE(f) && QuietEs(r)
    case IfExp(t, b, o) => QuietE(t) && QuietE(b) && QuietE(o)
    case Lambda(d, b) => QuietEs(d) && QuietE(b)
    case Comprehension(i, inner) => QuietE(i) && QuietEs(inner)
  }

  predicate QuietEs(es: Exprs) {
    es.ConsE? ==> QuietE(es.head) && QuietEs(es.tail)
  }

  predicate QuietS(s: Stmt) {
    match s
    case Simple(es) => QuietEs(es)
    case Return(v) => QuietE(v)
    case Break => true
    case Continue => true
    case If(t, b, e) => QuietE(t) && QuietB(b) && QuietB(e)
    case For(i, t, b, e) => QuietE(i) && QuietE(t) && QuietB(b) && QuietB(e)
    case While(t, b, e) => QuietE(t) && QuietB(b) && QuietB(e)
    case Try(b, h, e, f) => QuietB(b) && QuietA(h) && QuietB(e) && QuietB(f)
    case With(es, _, b) => QuietEs(es) && QuietB(b)
    case Match(e, cs) => QuietE(e) && QuietA(cs)
    case Def(_, _, h, a, _) => QuietEs(h) && QuietEs(a)
    case Class(h, b) => QuietEs(h) && QuietB(b)
  }

  predicate QuietB(b: Block) {
    b.Seq? ==> QuietS(b.first) && QuietB(b.rest)
  }

  predicate QuietA(a: Arms) {
    a.Arm? ==> QuietE(a.test) && QuietB(a.body) && QuietA(a.rest)
  }

  // Three positions Python may skip or repeat and the checker treats as unconditional: the operands of a
  // comparison after the second, the target of a `for`, and the body of a `with` whose manager swallows exceptions.

  predicate PlainE(e: Expr) {
    match e
    case Atom => true
    case Parts(es) => PlainEs(es)
    case Call(_, args) => PlainEs(args)
    case Compare(l, s, m) => PlainE(l) && PlainE(s) && QuietEs(m)
    case BoolOp(_, f, r) => PlainE(f) && PlainEs(r)
    case IfExp(t, b, o) => PlainE(t) && PlainE(b) && PlainE(o)
    case Lambda(d, b) => PlainEs(d) && PlainE(b)
    case Comprehension(i, inner) => PlainE(i) && PlainEs(inner)
  }

  predicate PlainEs(es: Exprs) {
    es.ConsE? ==> PlainE(es.head) && PlainEs(es.tail)
  }

  /** No hook call among the code that a body runs unconditionally: what a swallowing manager may skip. */
  predicate StillS(s: Stmt) {
    match s
    case Simple(es) => QuietEs(es)
    case Return(v) => QuietE(v)
    case If(t, _, _) => QuietE(t)
    case For(i, t, _, _) => QuietE(i) && QuietE(t)
    case With(es, _, b) => QuietEs(es) && StillB(b)
    case Match(e, _) => QuietE(e)
    case Def(_, _, h, a, _) => QuietEs(h) && QuietEs(a)
    case Class(h, _) => QuietEs(h)
    case _ => true
  }

  predicate StillB(b: Block) {
    b.Seq? ==> StillS(b.first) && (b.first.Return? || StillB(b.rest))
  }

  /** No hook call in those positions, among the code that a body runs unconditionally. Nested function bodies
      are not part of it, and neither is what follows a `return` in its block. */
  predicate SteadyS(s: Stmt) {
    match s
    case Simple(es) => PlainEs(es)
    case Return(v) => PlainE(v)
    case If(t, _, _) => PlainE(t)
    case For(i, t, _, _) => PlainE(i) && QuietE(t)
    case With(es, swallows, b) => PlainEs(es) && if swallows then StillB(b) else SteadyB(b)
    case Match(e, _) => PlainE(e)
    case Def(_, _, h, a, _) => PlainEs(h) && PlainEs(a)
    case Class(h, _) => PlainEs(h)
    case _ => true
  }

  predicate SteadyB(b: Block) {
    b.Seq? ==> SteadyS(b.first) && (b.first.Return? || SteadyB(b.rest))
  }
}
