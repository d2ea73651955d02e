/** The checker itself: a visitor that mutates its context and findings while it walks. */
module LintChecker {
  import opened PySyntax
  import opened Wrappers
  import opened LintRules
  import opened LintPrecision

  datatype Node = S(stmt: Stmt) | E(expr: Expr)

  // -- the iterative scope walk behind "does this statement contain a return" --

  predicate NodeReturns(n: Node) {
    n.S? && HasReturn(n.stmt)
  }

  predicate AnyReturns(stack: seq<Node>) {
    exists i :: 0 <= i < |stack| && NodeReturns(stack[i])
  }

  function ExprNodes(es: Exprs): seq<Node> {
    if es.ConsE? then [E(es.head)] + ExprNodes(es.tail) else []
  }

  function BlockNodes(b: Block): seq<Node> {
    if b.Seq? then [S(b.first)] + BlockNodes(b.rest) else []
  }

  function ArmNodes(a: Arms): seq<Node> {
    if a.Arm? then [E(a.test)] + BlockNodes(a.body) + ArmNodes(a.rest) else []
  }

  /** Child nodes in source order; a nested scope is not entered. */
  function Children(n: Node): seq<Node> {
    match n
    case E(e) =>
      (match e
       case Atom => []
       case Parts(es) => ExprNodes(es)
       case Call(_, args) => ExprNodes(args)
       case Compare(l, s, m) => [E(l), E(s)] + ExprNodes(m)
       case BoolOp(_, f, r) => [E(f)] + ExprNodes(r)
       case IfExp(t, b, o) => [E(t), E(b), E(o)]
       case Lambda(_, _) => []
       case Comprehension(_, _) => [])
    case S(s) =>
      (match s
       case Simple(es) => ExprNodes(es)
       case Return(v) => [E(v)]
       case Break => []
       case Continue => []
       case If(t, b, e) => [E(t)] + BlockNodes(b) + BlockNodes(e)
       case For(i, t, b, e) => [E(t), E(i)] + BlockNodes(b) + BlockNodes(e)
       case While(t, b, e) => [E(t)] + BlockNodes(b) + BlockNodes(e)
       case Try(b, h, e, f) => BlockNodes(b) + ArmNodes(h) + BlockNodes(e) + BlockNodes(f)
       case With(es, _, b) => ExprNodes(es) + BlockNodes(b)
       case Match(e, cs) => [E(e)] + ArmNodes(cs)
       case Def(_, _, _, _, _) => []
       case Class(_, _) => [])
  }

  lemma {:induction false} AnyReturnsConcat(a: seq<Node>, b: seq<Node>)
    ensures AnyReturns(a + b) == (AnyReturns(a) || AnyReturns(b))
  {
    if AnyReturns(a) {
      var i :| 0 <= i < |a| && NodeReturns(a[i]);
      assert NodeReturns((a + b)[i]);
    }
    if AnyReturns(b) {
      var i :| 0 <= i < |b| && NodeReturns(b[i]);
      assert NodeReturns((a + b)[|a| + i]);
    }
  }

  lemma {:induction false} ExprNodesReturn(es: Exprs)
    ensures !AnyReturns(ExprNodes(es))
  {
    if es.ConsE? {
      ExprNodesReturn(es.tail);
      AnyReturnsConcat([E(es.head)], ExprNodes(es.tail));
    }
  }

  lemma {:induction false} BlockNodesReturn(b: Block)
    ensures AnyReturns(BlockNodes(b)) == HasReturnB(b)
  {
    if b.Seq? {
      BlockNodesReturn(b.rest);
      AnyReturnsConcat([S(b.first)], BlockNodes(b.rest));
      assert HasReturn(b.first) ==> NodeReturns([S(b.first)][0]);
    }
  }

  lemma {:induction false} ArmNodesReturn(a: Arms)
    ensures AnyReturns(ArmNodes(a)) == HasReturnA(a)
  {
    if a.Arm? {
      BlockNodesReturn(a.body);
      ArmNodesReturn(a.rest);
      AnyReturnsConcat([E(a.test)], BlockNodes(a.body));
      AnyReturnsConcat([E(a.test)] + BlockNodes(a.body), ArmNodes(a.rest));
    }
  }

  /** Below a node that is no `return` itself, a return is found exactly among its children. */
  lemma {:induction false} ChildrenReturn(n: Node)
    requires !(n.S? && n.stmt.Return?)
    ensures AnyReturns(Children(n)) == NodeReturns(n)
  {
    match n
    case E(e) =>
      match e {
       case Parts(es) => ExprNodesReturn(es);
       case Call(_, args) => ExprNodesReturn(args);
       case Compare(l, s, m) => ExprNodesReturn(m); AnyReturnsConcat([E(l), E(s)], ExprNodes(m));
       case BoolOp(_, f, r) => ExprNodesReturn(r); AnyReturnsConcat([E(f)], ExprNodes(r));
       case _ =>
      }
    case S(s) =>
      match s {
       case Simple(es) => ExprNodesReturn(es);
       case If(t, b, e) => TwoBlocks([E(t)], b, e);
       case For(i, t, b, e) => TwoBlocks([E(t), E(i)], b, e);
       case While(t, b, e) => TwoBlocks([E(t)], b, e);
       case Try(b, h, e, f) =>
         BlockNodesReturn(b); ArmNodesReturn(h);
         AnyReturnsConcat(BlockNodes(b), ArmNodes(h));
         TwoBlocks(BlockNodes(b) + ArmNodes(h), e, f);
       case With(es, _, b) =>
         ExprNodesReturn(es); BlockNodesReturn(b); AnyReturnsConcat(ExprNodes(es), BlockNodes(b));
       case Match(e, cs) => ArmNodesReturn(cs); AnyReturnsConcat([E(e)], ArmNodes(cs));
       case _ =>
      }
  }

  lemma TwoBlocks(before: seq<Node>, b: Block, e: Block)
    ensures AnyReturns(before + BlockNodes(b) + BlockNodes(e)) == (AnyReturns(before) || HasReturnB(b) || HasReturnB(e))
  {
    BlockNodesReturn(b);
    BlockNodesReturn(e);
    AnyReturnsConcat(before, BlockNodes(b));
    AnyReturnsConcat(before + BlockNodes(b), BlockNodes(e));
  }

  function Reversed(s: seq<Node>): (r: seq<Node>)
    ensures |r| == |s| && forall i :: 0 <= i < |s| ==> r[i] == s[|s| - 1 - i]
  {
    if s == [] then [] else Reversed(s[1..]) + [s[0]]
  }

  lemma ReversedReturns(s: seq<Node>)
    ensures AnyReturns(Reversed(s)) == AnyReturns(s)
  {
    if AnyReturns(s) {
      var i :| 0 <= i < |s| && NodeReturns(s[i]);
      assert NodeReturns(Reversed(s)[|s| - 1 - i]);
    }
  }

  // -- termination of the walk: the number of nodes left on the stack --

  function Size(n: Node): nat
    decreases n, 1
  {
    match n
    case E(e) => SizeE(e)
    case S(s) => SizeS(s)
  }

  function SizeE(e: Expr): nat {
    1 + match e
        case Atom => 0
        case Parts(es) => SizeEs(es)
        case Call(_, args) => SizeEs(args)
        case Compare(l, s, m) => SizeE(l) + SizeE(s) + SizeEs(m)
        case BoolOp(_, f, r) => SizeE(f) + SizeEs(r)
        case IfExp(t, b, o) => SizeE(t) + SizeE(b) + SizeE(o)
        case Lambda(_, _) => 0
        case Comprehension(_, _) => 0
  }

  function SizeEs(es: Exprs): nat {
    if es.ConsE? then SizeE(es.head) + SizeEs(es.tail) else 0
  }

  function SizeS(s: Stmt): nat {
    1 + match s
        case Simple(es) => SizeEs(es)
        case Return(v) => SizeE(v)
        case Break => 0
        case Continue => 0
        case If(t, b, e) => SizeE(t) + SizeB(b) + SizeB(e)
        case For(i, t, b, e) => SizeE(i) + SizeE(t) + SizeB(b) + SizeB(e)
        case While(t, b, e) => SizeE(t) + SizeB(b) + SizeB(e)
        case Try(b, h, e, f) => SizeB(b) + SizeA(h) + SizeB(e) + SizeB(f)
        case With(es, _, b) => SizeEs(es) + SizeB(b)
        case Match(e, cs) => SizeE(e) + SizeA(cs)
        case Def(_, _, _, _, _) => 0
        case Class(_, _) => 0
  }

  function SizeB(b: Block): nat {
    if b.Seq? then SizeS(b.first) + SizeB(b.rest) else 0
  }

  function SizeA(a: Arms): nat {
    if a.Arm? then SizeE(a.test) + SizeB(a.body) + SizeA(a.rest) else 0
  }

  function Total(stack: seq<Node>): nat {
    if stack == [] then 0 else Size(stack[0]) + Total(stack[1..])
  }

  lemma {:induction false} TotalConcat(a: seq<Node>, b: seq<Node>)
    ensures Total(a + b) == Total(a) + Total(b)
  {
    if a == [] {
      assert a + b == b;
    } else {
      assert (a + b)[1..] == a[1..] + b;
      TotalConcat(a[1..], b);
    }
  }

  lemma {:induction false} TotalExprNodes(es: Exprs)
    ensures Total(ExprNodes(es)) == SizeEs(es)
  {
    if es.ConsE? {
      TotalExprNodes(es.tail);
      TotalConcat([E(es.head)], ExprNodes(es.tail));
    }
  }

  lemma {:induction false} TotalBlockNodes(b: Block)
    ensures Total(BlockNodes(b)) == SizeB(b)
  {
    if b.Seq? {
      TotalBlockNodes(b.rest);
      TotalConcat([S(b.first)], BlockNodes(b.rest));
    }
  }

  lemma {:induction false} TotalArmNodes(a: Arms)
    ensures Total(ArmNodes(a)) == SizeA(a)
  {
    if a.Arm? {
      TotalBlockNodes(a.body);
      TotalArmNodes(a.rest);
      TotalConcat([E(a.test)], BlockNodes(a.body));
      TotalConcat([E(a.test)] + BlockNodes(a.body), ArmNodes(a.rest));
    }
  }

  lemma {:induction false} TotalReversed(s: seq<Node>)
    ensures Total(Reversed(s)) == Total(s)
  {
    if s != [] {
      TotalReversed(s[1..]);
      TotalConcat(Reversed(s[1..]), [s[0]]);
    }
  }

  lemma TotalTwoBlocks(before: seq<Node>, b: Block, e: Block)
    ensures Total(before + BlockNodes(b) + BlockNodes(e)) == Total(before) + SizeB(b) + SizeB(e)
  {
    TotalBlockNodes(b);
    TotalBlockNodes(e);
    TotalConcat(before, BlockNodes(b));
    TotalConcat(before + BlockNodes(b), BlockNodes(e));
  }

  lemma {:induction false} ChildrenSmaller(n: Node)
    ensures Total(Children(n)) < Size(n)
  {
    match n
    case E(e) => ExprChildrenSmaller(e);
    case S(s) => StmtChildrenSmaller(s);
  }

  lemma {:induction false} ExprChildrenSmaller(e: Expr)
    ensures Total(Children(E(e))) < SizeE(e)
  {
    match e
    case Parts(es) => TotalExprNodes(es);
    case Call(_, args) => TotalExprNodes(args);
    case Compare(l, s, m) =>
      TotalExprNodes(m);
      TotalConcat([E(l), E(s)], ExprNodes(m));
      TotalPair(l, s);
    case BoolOp(_, f, r) => TotalExprNodes(r); TotalConcat([E(f)], ExprNodes(r));
    case IfExp(t, b, o) => TotalConcat([E(t)], [E(b), E(o)]); TotalPair(b, o);
    case _ =>
  }

  lemma TotalPair(a: Expr, b: Expr)
    ensures Total([E(a), E(b)]) == SizeE(a) + SizeE(b)
  {
    TotalConcat([E(a)], [E(b)]);
    assert Total([E(a)]) == SizeE(a) && Total([E(b)]) == SizeE(b);
    assert [E(a), E(b)] == [E(a)] + [E(b)];
  }

  lemma {:induction false} StmtChildrenSmaller(s: Stmt)
    ensures Total(Children(S(s))) < SizeS(s)
  {
    match s
    case Simple(es) => TotalExprNodes(es);
    case If(t, b, e) => TotalTwoBlocks([E(t)], b, e);
    case For(i, t, b, e) => TotalTwoBlocks([E(t), E(i)], b, e); TotalPair(t, i);
    case While(t, b, e) => TotalTwoBlocks([E(t)], b, e);
    case Try(b, h, e, f) =>
      TotalBlockNodes(b);
      TotalArmNodes(h);
      TotalConcat(BlockNodes(b), ArmNodes(h));
      TotalTwoBlocks(BlockNodes(b) + ArmNodes(h), e, f);
    case With(es, _, b) => TotalExprNodes(es); TotalBlockNodes(b); TotalConcat(ExprNodes(es), BlockNodes(b));
    case Match(e, cs) => TotalArmNodes(cs); TotalConcat([E(e)], ArmNodes(cs));
    case _ =>
  }

  /** Walks the statement's own scope with an explicit stack, stopping at the first return. */
  method ContainsReturn(s: Stmt) returns (found: bool)
    ensures found == HasReturn(s)
  {
    var stack := [S(s)];
    assert NodeReturns(stack[0]) == HasReturn(s);
    while stack != []
      invariant AnyReturns(stack) == HasReturn(s)
      decreases Total(stack)
    {
      var node := stack[|stack| - 1];
      var below := stack[..|stack| - 1];
      assert stack == below + [node];
      AnyReturnsConcat(below, [node]);
      assert AnyReturns([node]) == NodeReturns([node][0]);
      if node.S? && node.stmt.Return? {
        return true;
      }
      ChildrenReturn(node);
      ReversedReturns(Children(node));
      AnyReturnsConcat(below, Reversed(Children(node)));
      ChildrenSmaller(node);
      TotalReversed(Children(node));
      TotalConcat(below, Reversed(Children(node)));
      TotalConcat(below, [node]);
      stack := below + Reversed(Children(node));
    }
    return false;
  }

  // -- the visitor --

  lemma AppendedThree(f: seq<Finding>, a: seq<Finding>, b: seq<Finding>, c: seq<Finding>)
    ensures f + a + b + c == f + (a + (b + c))
  {
  }

  lemma Appended(f: seq<Finding>, a: seq<Finding>, b: seq<Finding>, c: seq<Finding>, d: seq<Finding>)
    ensures f + a + b + c + d == f + (a + b + c + d)
  {
  }

  class Checker {
    var findings: seq<Finding>
    var owned: bool           // a component or custom hook encloses the current position
    var earlyReturn: bool     // that owner has already met an early return
    var reason: Option<Why>
    var direct: bool

    ghost function Context(): Ctx
      reads this
    {
      Ctx(owned, reason, direct, earlyReturn)
    }

    constructor ()
      ensures findings == [] && Context() == MODULE
    {
      findings, owned, earlyReturn, reason, direct := [], false, false, None, false;
    }

    /** Checks a module's top level. */
    method VisitModule(body: Block)
      requires findings == [] && Context() == MODULE
      modifies this
      ensures findings == LintB(body, MODULE).findings
      ensures findings == Reports(SpotsB(body, None, []))
      ensures findings == [] <==> forall x <- SpotsB(body, None, []) :: Open(x)
    {
      VisitBlock(body);
      ModuleExact(body);
      PreciseExactlyWhen(body);
    }

    method Enter(why: Why, leavesScope: bool) returns (savedReason: Option<Why>, savedDirect: bool)
      modifies `reason, `direct
      ensures Context() == if leavesScope then Leaving(old(Context()), why) else Under(old(Context()), why)
      ensures savedReason == old(reason) && savedDirect == old(direct)
    {
      savedReason, savedDirect := reason, direct;
      if reason.None? {
        reason := Some(why);
      }
      if leavesScope {
        direct := false;
      }
    }

    method VisitExpr(e: Expr)
      modifies this
      ensures findings == old(findings) + LintE(e, old(Context())) && Context() == old(Context())
      decreases e, 1
    {
      match e
      case Atom =>
      case Parts(es) => VisitExprs(es);
      case Call(_, _) => VisitCall(e);
      case Compare(l, s, m) => VisitCompare(e);
      case BoolOp(_, _, _) => VisitBoolOp(e);
      case IfExp(_, _, _) => VisitIfExp(e);
      case Lambda(_, _) => VisitLambda(e);
      case Comprehension(_, _) => VisitComprehension(e);
    }

    method VisitCall(e: Expr)
      requires e.Call?
      modifies this
      ensures findings == old(findings) + LintE(e, old(Context())) && Context() == old(Context())
      decreases e, 0
    {
      if IsHookName(e.name) {
        CheckHookPlacement(e.name);
      }
      VisitExprs(e.args);
    }

    method VisitCompare(e: Expr)
      requires e.Compare?
      modifies this
      ensures findings == old(findings) + LintE(e, old(Context())) && Context() == old(Context())
      decreases e, 0
    {
      VisitExpr(e.left);
      VisitExpr(e.second);
      VisitExprs(e.more);
    }

    method VisitBoolOp(e: Expr)
      requires e.BoolOp?
      modifies this
      ensures findings == old(findings) + LintE(e, old(Context())) && Context() == old(Context())
      decreases e, 0
    {
      VisitExpr(e.first);
      var savedReason, savedDirect := Enter(InRightSide(e.isAnd), false);
      VisitExprs(e.others);
      reason, direct := savedReason, savedDirect;
    }

    method VisitIfExp(e: Expr)
      requires e.IfExp?
      modifies this
      ensures findings == old(findings) + LintE(e, old(Context())) && Context() == old(Context())
      decreases e, 0
    {
      VisitExpr(e.test);
      var savedReason, savedDirect := Enter(InCondExpr, false);
      VisitExpr(e.body);
      VisitExpr(e.orelse);
      reason, direct := savedReason, savedDirect;
    }

    method VisitLambda(e: Expr)
      requires e.Lambda?
      modifies this
      ensures findings == old(findings) + LintE(e, old(Context())) && Context() == old(Context())
      decreases e, 0
    {
      VisitExprs(e.defaults);
      var savedReason, savedDirect := Enter(InLambda, true);
      VisitExpr(e.body);
      reason, direct := savedReason, savedDirect;
    }

    method VisitComprehension(e: Expr)
      requires e.Comprehension?
      modifies this
      ensures findings == old(findings) + LintE(e, old(Context())) && Context() == old(Context())
      decreases e, 0
    {
      VisitExpr(e.iter);
      var savedReason, savedDirect := Enter(InComprehension, true);
      VisitExprs(e.inner);
      reason, direct := savedReason, savedDirect;
    }

    method VisitExprs(es: Exprs)
      modifies this
      ensures findings == old(findings) + LintEs(es, old(Context())) && Context() == old(Context())
      decreases es
    {
      if es.ConsE? {
        VisitExpr(es.head);
        VisitExprs(es.tail);
      }
    }

    method CheckHookPlacement(hook: string)
      modifies `findings
      ensures findings == old(findings) + Placement(hook, Context())
    {
      if !owned {
        findings := findings + [Outside(hook)];
      } else if reason.Some? {
        findings := findings + [Conditional(hook, reason.value)];
      } else if earlyReturn {
        findings := findings + [AfterReturn(hook)];
      }
    }

    ghost predicate Visited(before: seq<Finding>, c: Ctx, v: Verdict)
      reads this
    {
      findings == before + v.findings && Context() == c.(early := v.early)
    }

    method VisitBlock(b: Block)
      modifies this
      ensures Visited(old(findings), old(Context()), LintB(b, old(Context())))
      decreases b
    {
      if b.Seq? {
        VisitStmt(b.first);
        var exits := ContainsReturn(b.first);
        if owned && direct && !b.first.Return? && !b.first.Def? && !b.first.Class? && exits {
          earlyReturn := true;
        }
        VisitBlock(b.rest);
      }
    }

    method VisitArms(a: Arms)
      modifies this
      ensures Visited(old(findings), old(Context()), LintA(a, old(Context())))
      decreases a
    {
      if a.Arm? {
        VisitExpr(a.test);
        VisitBlock(a.body);
        VisitArms(a.rest);
      }
    }

    method VisitStmt(s: Stmt)
      modifies this
      ensures Visited(old(findings), old(Context()), LintS(s, old(Context())))
      decreases s, 2
    {
      match s
      case Simple(es) => VisitExprs(es);
      case Return(v) => VisitExpr(v);
      case Break =>
      case Continue =>
      case If(_, _, _) => VisitIf(s);
      case For(_, _, _, _) => VisitFor(s);
      case While(_, _, _) => VisitWhile(s);
      case Try(_, _, _, _) => VisitTry(s);
      case With(es, _, b) => VisitWith(s);
      case Match(e, cs) => VisitMatch(s);
      case Def(_, _, _, _, _) => VisitFunction(s);
      case Class(h, b) => VisitClass(s);
    }

    method VisitIf(s: Stmt)
      requires s.If?
      modifies this
      ensures Visited(old(findings), old(Context()), LintS(s, old(Context())))
      decreases s, 0
    {
      ghost var c := Context();
      ghost var vb := LintB(s.body, Under(c, InIf));
      ghost var ve := LintB(s.orelse, Under(c, InIf).(early := vb.early));
      VisitExpr(s.test);
      var savedReason, savedDirect := Enter(InIf, false);
      VisitBlock(s.body);
      VisitBlock(s.orelse);
      reason, direct := savedReason, savedDirect;
      AppendedThree(old(findings), LintE(s.test, c), vb.findings, ve.findings);
    }

    method VisitFor(s: Stmt)
      requires s.For?
      modifies this
      ensures Visited(old(findings), old(Context()), LintS(s, old(Context())))
      decreases s, 0
    {
      ghost var c, u := Context(), Under(Context(), InFor);
      ghost var vb := LintB(s.body, u);
      ghost var ve := LintB(s.orelse, u.(early := vb.early));
      VisitExpr(s.iter);
      VisitExpr(s.target);
      assert findings == old(findings) + (LintE(s.iter, c) + LintE(s.target, c));
      var savedReason, savedDirect := Enter(InFor, false);
      VisitBlock(s.body);
      VisitBlock(s.orelse);
      reason, direct := savedReason, savedDirect;
      AppendedThree(old(findings), LintE(s.iter, c) + LintE(s.target, c), vb.findings, ve.findings);
    }

    method VisitWhile(s: Stmt)
      requires s.While?
      modifies this
      ensures Visited(old(findings), old(Context()), LintS(s, old(Context())))
      decreases s, 0
    {
      ghost var u := Under(Context(), InWhile);
      ghost var vb := LintB(s.body, u);
      ghost var ve := LintB(s.orelse, u.(early := vb.early));
      var savedReason, savedDirect := Enter(InWhile, false);
      VisitExpr(s.test);
      VisitBlock(s.body);
      VisitBlock(s.orelse);
      reason, direct := savedReason, savedDirect;
      AppendedThree(old(findings), LintE(s.test, u), vb.findings, ve.findings);
    }

    method VisitTry(s: Stmt)
      requires s.Try?
      modifies this
      ensures Visited(old(findings), old(Context()), LintS(s, old(Context())))
      decreases s, 1
    {
      var savedReason, savedDirect := Enter(InTry, false);
      VisitTryBlocks(s);
      reason, direct := savedReason, savedDirect;
    }

    method VisitTryBlocks(s: Stmt)
      requires s.Try?
      modifies this
      ensures Visited(old(findings), old(Context()), LintTry(s, old(Context())))
      decreases s, 0
    {
      ghost var u := Context();
      ghost var vb := LintB(s.body, u);
      ghost var vh := LintA(s.handlers, u.(early := vb.early));
      ghost var ve := LintB(s.orelse, u.(early := vh.early));
      ghost var vf := LintB(s.finalbody, u.(early := ve.early));
      VisitBlock(s.body);
      VisitArms(s.handlers);
      VisitBlock(s.orelse);
      VisitBlock(s.finalbody);
      Appended(old(findings), vb.findings, vh.findings, ve.findings, vf.findings);
    }

    method VisitWith(s: Stmt)
      requires s.With?
      modifies this
      ensures Visited(old(findings), old(Context()), LintS(s, old(Context())))
      decreases s, 0
    {
      VisitExprs(s.items);
      VisitBlock(s.body);
    }

    method VisitMatch(s: Stmt)
      requires s.Match?
      modifies this
      ensures Visited(old(findings), old(Context()), LintS(s, old(Context())))
      decreases s, 0
    {
      VisitExpr(s.subject);
      var savedReason, savedDirect := Enter(InMatch, false);
      VisitArms(s.cases);
      reason, direct := savedReason, savedDirect;
    }

    method VisitClass(s: Stmt)
      requires s.Class?
      modifies this
      ensures Visited(old(findings), old(Context()), LintS(s, old(Context())))
      decreases s, 0
    {
      VisitExprs(s.header);
      if owned {
        var savedReason, savedDirect := Enter(InClass, true);
        VisitBlock(s.body);
        reason, direct := savedReason, savedDirect;
      } else {
        VisitBlock(s.body);
      }
    }

    method VisitFunction(s: Stmt)
      requires s.Def?
      modifies this
      ensures Visited(old(findings), old(Context()), LintS(s, old(Context())))
      decreases s, 0
    {
      VisitExprs(s.header);
      if IsOwner(s) {
        var savedOwned, savedEarly, savedReason, savedDirect := owned, earlyReturn, reason, direct;
        owned, earlyReturn, reason, direct := true, false, None, true;
        VisitBlock(s.body);
        owned, earlyReturn, reason, direct := savedOwned, savedEarly, savedReason, savedDirect;
      } else if owned {
        var savedReason, savedDirect := Enter(InFunction(s.name), true);
        VisitBlock(s.body);
        reason, direct := savedReason, savedDirect;
      } else {
        VisitBlock(s.body);
      }
    }
  }
}
