/** The findings call by call: where each hook call stands on the syntax, and what that position alone reports. */
module LintPrecision {
  import opened PySyntax
  import opened Wrappers
  import opened LintRules

  /** One thing between an owner's body and a hook call: a construct that may skip, repeat or postpone what is in
      it, or a statement that comes earlier in a block. */
  datatype Step = Within(why: Why) | Past(stmt: Stmt)

  /** A hook call: the component or hook whose body it stands in, if any, and the way to it from there. */
  datatype Spot = Spot(hook: string, owner: Option<Stmt>, steps: seq<Step>)

  // -- the hook calls the checker visits, in order --

  function SpotsE(e: Expr, o: Option<Stmt>, p: seq<Step>): seq<Spot> {
    match e
    case Atom => []
    case Parts(es) => SpotsEs(es, o, p)
    case Call(n, args) => (if IsHookName(n) then [Spot(n, o, p)] else []) + SpotsEs(args, o, p)
    case Compare(l, s, m) => SpotsE(l, o, p) + SpotsE(s, o, p) + SpotsEs(m, o, p)
    case BoolOp(isAnd, f, r) => SpotsE(f, o, p) + SpotsEs(r, o, p + [Within(InRightSide(isAnd))])
    case IfExp(t, b, e) =>
      SpotsE(t, o, p) + SpotsE(b, o, p + [Within(InCondExpr)]) + SpotsE(e, o, p + [Within(InCondExpr)])
    case Lambda(d, b) => SpotsEs(d, o, p) + SpotsE(b, o, p + [Within(InLambda)])
    case Comprehension(i, inner) => SpotsE(i, o, p) + SpotsEs(inner, o, p + [Within(InComprehension)])
  }

  function SpotsEs(es: Exprs, o: Option<Stmt>, p: seq<Step>): seq<Spot> {
    if es.ConsE? then SpotsE(es.head, o, p) + SpotsEs(es.tail, o, p) else []
  }

  function SpotsS(s: Stmt, o: Option<Stmt>, p: seq<Step>): seq<Spot> {
    match s
    case Simple(es) => SpotsEs(es, o, p)
    case Return(v) => SpotsE(v, o, p)
    case Break => []
    case Continue => []
    case If(t, b, e) => SpotsE(t, o, p) + (SpotsB(b, o, p + [Within(InIf)]) + SpotsB(e, o, p + [Within(InIf)]))
    case For(i, t, b, e) =>
      SpotsE(i, o, p) + SpotsE(t, o, p) + (SpotsB(b, o, p + [Within(InFor)]) + SpotsB(e, o, p + [Within(InFor)]))
    case While(t, b, e) =>
      var q := p + [Within(InWhile)];
      SpotsE(t, o, q) + (SpotsB(b, o, q) + SpotsB(e, o, q))
    case Try(b, h, e, f) =>
      var q := p + [Within(InTry)];
      SpotsB(b, o, q) + SpotsA(h, o, q) + SpotsB(e, o, q) + SpotsB(f, o, q)
    case With(es, _, b) => SpotsEs(es, o, p) + SpotsB(b, o, p)
    case Match(e, cs) => SpotsE(e, o, p) + SpotsA(cs, o, p + [Within(InMatch)])
    case Def(n, _, h, _, b) =>
      SpotsEs(h, o, p) + if IsOwner(s) then SpotsB(b, Some(s), []) else SpotsB(b, o, p + [Within(InFunction(n))])
    case Class(h, b) => SpotsEs(h, o, p) + SpotsB(b, o, p + [Within(InClass)])
  }

  function SpotsB(b: Block, o: Option<Stmt>, p: seq<Step>): seq<Spot> {
    if b.Seq? then SpotsS(b.first, o, p) + SpotsB(b.rest, o, p + [Past(b.first)]) else []
  }

  function SpotsA(a: Arms, o: Option<Stmt>, p: seq<Step>): seq<Spot> {
    if a.Arm? then SpotsE(a.test, o, p) + SpotsB(a.body, o, p) + SpotsA(a.rest, o, p) else []
  }

  // -- what a position reports --

  // The statements of one function's own scope: a nested function or class is one of them, its body is not.

  function OwnScopeS(s: Stmt): seq<Stmt> {
    [s] + match s
          case If(_, b, e) => OwnScopeB(b) + OwnScopeB(e)
          case For(_, _, b, e) => OwnScopeB(b) + OwnScopeB(e)
          case While(_, b, e) => OwnScopeB(b) + OwnScopeB(e)
          case Try(b, h, e, f) => OwnScopeB(b) + OwnScopeA(h) + OwnScopeB(e) + OwnScopeB(f)
          case With(_, _, b) => OwnScopeB(b)
          case Match(_, cs) => OwnScopeA(cs)
          case _ => []
  }

  function OwnScopeB(b: Block): seq<Stmt> {
    if b.Seq? then OwnScopeS(b.first) + OwnScopeB(b.rest) else []
  }

  function OwnScopeA(a: Arms): seq<Stmt> {
    if a.Arm? then OwnScopeB(a.body) + OwnScopeA(a.rest) else []
  }

  predicate Returns(s: Stmt) {
    exists x <- OwnScopeS(s) :: x.Return?
  }

  /** A statement other than `return` with a `return` of the same function in it. */
  predicate MayLeave(x: Step) {
    x.Past? && !x.stmt.Return? && Returns(x.stmt)
  }

  predicate Unconditional(p: seq<Step>) {
    forall x <- p :: x.Past?
  }

  predicate AfterExit(p: seq<Step>) {
    exists x <- p :: MayLeave(x)
  }

  /** The outermost of the constructs on the way. */
  function Outermost(p: seq<Step>): Why
    requires !Unconditional(p)
  {
    if p[0].Within? then p[0].why else Outermost(p[1..])
  }

  function Report(x: Spot): seq<Finding> {
    if x.owner.None? then [Outside(x.hook)]
    else if !Unconditional(x.steps) then [Conditional(x.hook, Outermost(x.steps))]
    else if AfterExit(x.steps) then [AfterReturn(x.hook)]
    else []
  }

  function Reports(xs: seq<Spot>): seq<Finding> {
    if xs == [] then [] else Report(xs[0]) + Reports(xs[1..])
  }

  lemma {:induction false} ReportsConcat(a: seq<Spot>, b: seq<Spot>)
    ensures Reports(a + b) == Reports(a) + Reports(b)
  {
    if a == [] {
      assert a + b == b;
    } else {
      assert (a + b)[1..] == a[1..] + b;
      ReportsConcat(a[1..], b);
    }
  }

  lemma ReportsOne(x: Spot)
    ensures Reports([x]) == Report(x)
  {
    assert [x][1..] == [];
  }

  // -- a return in a statement's own scope --

  lemma {:induction false} HasReturnMeans(s: Stmt)
    ensures HasReturn(s) <==> Returns(s)
  {
    match s
    case If(_, b, e) => HasReturnMeansB(b); HasReturnMeansB(e);
    case For(_, _, b, e) => HasReturnMeansB(b); HasReturnMeansB(e);
    case While(_, b, e) => HasReturnMeansB(b); HasReturnMeansB(e);
    case Try(b, h, e, f) => HasReturnMeansB(b); HasReturnMeansA(h); HasReturnMeansB(e); HasReturnMeansB(f);
    case With(_, _, b) => HasReturnMeansB(b);
    case Match(_, cs) => HasReturnMeansA(cs);
    case Return(_) => assert OwnScopeS(s)[0].Return?;
    case _ =>
  }

  lemma {:induction false} HasReturnMeansB(b: Block)
    ensures HasReturnB(b) <==> exists x <- OwnScopeB(b) :: x.Return?
  {
    if b.Seq? {
      HasReturnMeans(b.first);
      HasReturnMeansB(b.rest);
    }
  }

  lemma {:induction false} HasReturnMeansA(a: Arms)
    ensures HasReturnA(a) <==> exists x <- OwnScopeA(a) :: x.Return?
  {
    if a.Arm? {
      HasReturnMeansB(a.body);
      HasReturnMeansA(a.rest);
    }
  }

  // -- when the checker has met an early return --

  lemma {:induction false} EarlyS(s: Stmt, c: Ctx)
    ensures c.early ==> LintS(s, c).early
    ensures LintS(s, c).early ==> c.early || (c.owned && c.direct && LeavesEarly(s))
    decreases s, 1
  {
    match s
    case If(_, b, e) =>
      var u := Under(c, InIf);
      EarlyB(b, u); EarlyB(e, u.(early := LintB(b, u).early));
    case For(_, _, b, e) =>
      var u := Under(c, InFor);
      EarlyB(b, u); EarlyB(e, u.(early := LintB(b, u).early));
    case While(_, b, e) =>
      var u := Under(c, InWhile);
      EarlyB(b, u); EarlyB(e, u.(early := LintB(b, u).early));
    case Try(_, _, _, _) => EarlyTry(s, Under(c, InTry));
    case With(_, _, b) => EarlyB(b, c);
    case Match(_, cs) => EarlyA(cs, Under(c, InMatch));
    case Def(n, _, _, _, b) =>
      if !IsOwner(s) { EarlyB(b, if c.owned then Leaving(c, InFunction(n)) else c); }
    case Class(_, b) => EarlyB(b, if c.owned then Leaving(c, InClass) else c);
    case _ =>
  }

  lemma {:induction false} EarlyTry(s: Stmt, u: Ctx)
    requires s.Try?
    ensures u.early ==> LintTry(s, u).early
    ensures LintTry(s, u).early ==> u.early || (u.owned && u.direct && LeavesEarly(s))
    decreases s, 0
  {
    var uh := u.(early := LintB(s.body, u).early);
    var ue := u.(early := LintA(s.handlers, uh).early);
    EarlyB(s.body, u);
    EarlyA(s.handlers, uh);
    EarlyB(s.orelse, ue);
    EarlyB(s.finalbody, u.(early := LintB(s.orelse, ue).early));
  }

  lemma {:induction false} EarlyB(b: Block, c: Ctx)
    ensures c.early ==> LintB(b, c).early
    ensures LintB(b, c).early ==> c.early || (c.owned && c.direct && HasReturnB(b))
    decreases b, 1
  {
    if b.Seq? {
      EarlyS(b.first, c);
      EarlyB(b.rest, c.(early := EarlyAfter(b.first, c)));
    }
  }

  lemma {:induction false} EarlyA(a: Arms, c: Ctx)
    ensures c.early ==> LintA(a, c).early
    ensures LintA(a, c).early ==> c.early || (c.owned && c.direct && HasReturnA(a))
    decreases a, 1
  {
    if a.Arm? {
      EarlyB(a.body, c);
      EarlyA(a.rest, c.(early := LintB(a.body, c).early));
    }
  }

  // -- the walking context knows the position --

  ghost predicate Stands(c: Ctx, o: Option<Stmt>, p: seq<Step>) {
    && c.owned == o.Some?
    && (c.owned ==>
      && (c.reason.None? <==> Unconditional(p))
      && (if c.reason.None? then c.direct && c.early == AfterExit(p) else c.reason.value == Outermost(p)))
  }

  lemma {:induction false} OutermostOfMore(p: seq<Step>, x: Step)
    requires !Unconditional(p)
    ensures !Unconditional(p + [x]) && Outermost(p + [x]) == Outermost(p)
  {
    var y :| y in p && !y.Past?;
    assert y in p + [x];
    if p[0].Past? {
      assert (p + [x])[1..] == p[1..] + [x];
      assert y in p[1..];
      OutermostOfMore(p[1..], x);
    }
  }

  lemma {:induction false} OutermostAfter(p: seq<Step>, why: Why)
    requires Unconditional(p)
    ensures !Unconditional(p + [Within(why)]) && Outermost(p + [Within(why)]) == why
  {
    var q := p + [Within(why)];
    assert Within(why) in q;
    if p == [] {
      assert q == [Within(why)];
    } else {
      assert q[0] == p[0] && p[0] in p && q[1..] == p[1..] + [Within(why)];
      assert forall x <- p[1..] :: x in p;
      OutermostAfter(p[1..], why);
    }
  }

  lemma StandsWithin(c: Ctx, o: Option<Stmt>, p: seq<Step>, why: Why)
    requires Stands(c, o, p)
    ensures Stands(Under(c, why), o, p + [Within(why)]) && Stands(Leaving(c, why), o, p + [Within(why)])
    ensures c.owned ==> Under(c, why).reason.Some?
  {
    if c.owned {
      if c.reason.None? { OutermostAfter(p, why); } else { OutermostOfMore(p, Within(why)); }
    }
  }

  lemma StandsPast(c: Ctx, o: Option<Stmt>, p: seq<Step>, s: Stmt)
    requires Stands(c, o, p)
    ensures Stands(c.(early := EarlyAfter(s, c)), o, p + [Past(s)])
  {
    if c.owned {
      EarlyS(s, c);
      if c.reason.None? {
        HasReturnMeans(s);
        assert s.Def? || s.Class? ==> OwnScopeS(s) == [s];
        assert MayLeave(Past(s)) <==> LeavesEarly(s);
        assert forall y <- p + [Past(s)] :: y in p || y == Past(s);
        assert AfterExit(p + [Past(s)]) <==> AfterExit(p) || MayLeave(Past(s)) by {
          assert Past(s) in p + [Past(s)];
          assert forall y <- p :: y in p + [Past(s)];
        }
      } else {
        OutermostOfMore(p, Past(s));
      }
    }
  }

  // -- the findings are what the positions report --

  lemma {:induction false} ExactE(e: Expr, c: Ctx, o: Option<Stmt>, p: seq<Step>)
    requires Stands(c, o, p)
    ensures LintE(e, c) == Reports(SpotsE(e, o, p))
    decreases e, 1
  {
    match e
    case Atom =>
    case Parts(es) => ExactEs(es, c, o, p);
    case Call(n, args) =>
      ExactEs(args, c, o, p);
      if !IsHookName(n) {
        assert LintE(e, c) == LintEs(args, c) && SpotsE(e, o, p) == SpotsEs(args, o, p);
      } else {
        ReportsOne(Spot(n, o, p));
        assert Placement(n, c) == Report(Spot(n, o, p));
        ReportsConcat([Spot(n, o, p)], SpotsEs(args, o, p));
      }
    case Compare(_, _, _) => ExactCompare(e, c, o, p);
    case BoolOp(isAnd, f, r) =>
      var q := p + [Within(InRightSide(isAnd))];
      StandsWithin(c, o, p, InRightSide(isAnd));
      ExactE(f, c, o, p); ExactEs(r, Under(c, InRightSide(isAnd)), o, q);
      ReportsConcat(SpotsE(f, o, p), SpotsEs(r, o, q));
    case IfExp(_, _, _) => ExactIfExp(e, c, o, p);
    case Lambda(d, b) =>
      var q := p + [Within(InLambda)];
      StandsWithin(c, o, p, InLambda);
      ExactEs(d, c, o, p); ExactE(b, Leaving(c, InLambda), o, q);
      ReportsConcat(SpotsEs(d, o, p), SpotsE(b, o, q));
    case Comprehension(i, inner) =>
      var q := p + [Within(InComprehension)];
      StandsWithin(c, o, p, InComprehension);
      ExactE(i, c, o, p); ExactEs(inner, Leaving(c, InComprehension), o, q);
      ReportsConcat(SpotsE(i, o, p), SpotsEs(inner, o, q));
  }

  lemma {:induction false} ExactCompare(e: Expr, c: Ctx, o: Option<Stmt>, p: seq<Step>)
    requires e.Compare? && Stands(c, o, p)
    ensures LintE(e, c) == Reports(SpotsE(e, o, p))
    decreases e, 0
  {
    var l, s, m := SpotsE(e.left, o, p), SpotsE(e.second, o, p), SpotsEs(e.more, o, p);
    ExactE(e.left, c, o, p); ExactE(e.second, c, o, p); ExactEs(e.more, c, o, p);
    ReportsConcat(l, s);
    ReportsConcat(l + s, m);
  }

  lemma {:induction false} ExactIfExp(e: Expr, c: Ctx, o: Option<Stmt>, p: seq<Step>)
    requires e.IfExp? && Stands(c, o, p)
    ensures LintE(e, c) == Reports(SpotsE(e, o, p))
    decreases e, 0
  {
    var q, u := p + [Within(InCondExpr)], Under(c, InCondExpr);
    var t, b, f := SpotsE(e.test, o, p), SpotsE(e.body, o, q), SpotsE(e.orelse, o, q);
    StandsWithin(c, o, p, InCondExpr);
    ExactE(e.test, c, o, p); ExactE(e.body, u, o, q); ExactE(e.orelse, u, o, q);
    ReportsConcat(t, b);
    ReportsConcat(t + b, f);
  }

  lemma {:induction false} ExactEs(es: Exprs, c: Ctx, o: Option<Stmt>, p: seq<Step>)
    requires Stands(c, o, p)
    ensures LintEs(es, c) == Reports(SpotsEs(es, o, p))
  {
    if es.ConsE? {
      ExactE(es.head, c, o, p);
      ExactEs(es.tail, c, o, p);
      ReportsConcat(SpotsE(es.head, o, p), SpotsEs(es.tail, o, p));
    }
  }

  lemma {:induction false} ExactS(s: Stmt, c: Ctx, o: Option<Stmt>, p: seq<Step>)
    requires Stands(c, o, p)
    ensures LintS(s, c).findings == Reports(SpotsS(s, o, p))
    decreases s, 1
  {
    match s
    case Simple(es) => ExactEs(es, c, o, p);
    case Return(v) => ExactE(v, c, o, p);
    case Break =>
    case Continue =>
    case If(_, _, _) => ExactIf(s, c, o, p);
    case For(_, _, _, _) => ExactFor(s, c, o, p);
    case While(_, _, _) => ExactWhile(s, c, o, p);
    case Try(_, _, _, _) =>
      StandsWithin(c, o, p, InTry);
      ExactTry(s, Under(c, InTry), o, p + [Within(InTry)]);
    case With(es, _, b) =>
      ExactEs(es, c, o, p); ExactB(b, c, o, p);
      ReportsConcat(SpotsEs(es, o, p), SpotsB(b, o, p));
    case Match(e, cs) =>
      var q := p + [Within(InMatch)];
      StandsWithin(c, o, p, InMatch);
      ExactE(e, c, o, p); ExactA(cs, Under(c, InMatch), o, q);
      ReportsConcat(SpotsE(e, o, p), SpotsA(cs, o, q));
    case Def(n, _, h, _, b) =>
      ExactEs(h, c, o, p);
      if IsOwner(s) {
        ExactB(b, OWNER, Some(s), []);
        ReportsConcat(SpotsEs(h, o, p), SpotsB(b, Some(s), []));
      } else {
        var q := p + [Within(InFunction(n))];
        StandsWithin(c, o, p, InFunction(n));
        ExactB(b, if c.owned then Leaving(c, InFunction(n)) else c, o, q);
        ReportsConcat(SpotsEs(h, o, p), SpotsB(b, o, q));
      }
    case Class(h, b) =>
      var q := p + [Within(InClass)];
      StandsWithin(c, o, p, InClass);
      ExactEs(h, c, o, p);
      ExactB(b, if c.owned then Leaving(c, InClass) else c, o, q);
      ReportsConcat(SpotsEs(h, o, p), SpotsB(b, o, q));
  }

  lemma {:induction false} ExactIf(s: Stmt, c: Ctx, o: Option<Stmt>, p: seq<Step>)
    requires s.If? && Stands(c, o, p)
    ensures LintS(s, c).findings == Reports(SpotsS(s, o, p))
    decreases s, 0
  {
    var q, u := p + [Within(InIf)], Under(c, InIf);
    var t, b, e := SpotsE(s.test, o, p), SpotsB(s.body, o, q), SpotsB(s.orelse, o, q);
    StandsWithin(c, o, p, InIf);
    ExactE(s.test, c, o, p);
    ExactB(s.body, u, o, q); ExactB(s.orelse, u.(early := LintB(s.body, u).early), o, q);
    ReportsConcat(b, e);
    ReportsConcat(t, b + e);
  }

  lemma {:induction false} ExactWhile(s: Stmt, c: Ctx, o: Option<Stmt>, p: seq<Step>)
    requires s.While? && Stands(c, o, p)
    ensures LintS(s, c).findings == Reports(SpotsS(s, o, p))
    decreases s, 0
  {
    var q, u := p + [Within(InWhile)], Under(c, InWhile);
    var t, b, e := SpotsE(s.test, o, q), SpotsB(s.body, o, q), SpotsB(s.orelse, o, q);
    StandsWithin(c, o, p, InWhile);
    ExactE(s.test, u, o, q);
    ExactB(s.body, u, o, q); ExactB(s.orelse, u.(early := LintB(s.body, u).early), o, q);
    ReportsConcat(b, e);
    ReportsConcat(t, b + e);
  }

  lemma {:induction false} ExactFor(s: Stmt, c: Ctx, o: Option<Stmt>, p: seq<Step>)
    requires s.For? && Stands(c, o, p)
    ensures LintS(s, c).findings == Reports(SpotsS(s, o, p))
    decreases s, 0
  {
    var q, u := p + [Within(InFor)], Under(c, InFor);
    var i, t, b, e := SpotsE(s.iter, o, p), SpotsE(s.target, o, p), SpotsB(s.body, o, q), SpotsB(s.orelse, o, q);
    StandsWithin(c, o, p, InFor);
    ExactE(s.iter, c, o, p); ExactE(s.target, c, o, p);
    ExactB(s.body, u, o, q); ExactB(s.orelse, u.(early := LintB(s.body, u).early), o, q);
    ReportsConcat(i, t);
    ReportsConcat(b, e);
    ReportsConcat(i + t, b + e);
  }

  lemma {:induction false} ExactTry(s: Stmt, u: Ctx, o: Option<Stmt>, q: seq<Step>)
    requires s.Try? && Stands(u, o, q) && (u.owned ==> u.reason.Some?)
    ensures LintTry(s, u).findings ==
            Reports(SpotsB(s.body, o, q) + SpotsA(s.handlers, o, q) + SpotsB(s.orelse, o, q) + SpotsB(s.finalbody, o, q))
    decreases s, 0
  {
    var uh := u.(early := LintB(s.body, u).early);
    var ue := u.(early := LintA(s.handlers, uh).early);
    var b, h, e, f := SpotsB(s.body, o, q), SpotsA(s.handlers, o, q), SpotsB(s.orelse, o, q), SpotsB(s.finalbody, o, q);
    ExactB(s.body, u, o, q);
    ExactA(s.handlers, uh, o, q);
    ExactB(s.orelse, ue, o, q);
    ExactB(s.finalbody, u.(early := LintB(s.orelse, ue).early), o, q);
    ReportsConcat(b, h);
    ReportsConcat(b + h, e);
    ReportsConcat(b + h + e, f);
  }

  lemma {:induction false} ExactB(b: Block, c: Ctx, o: Option<Stmt>, p: seq<Step>)
    requires Stands(c, o, p)
    ensures LintB(b, c).findings == Reports(SpotsB(b, o, p))
    decreases b, 1
  {
    if b.Seq? {
      ExactS(b.first, c, o, p);
      StandsPast(c, o, p, b.first);
      ExactB(b.rest, c.(early := EarlyAfter(b.first, c)), o, p + [Past(b.first)]);
      ReportsConcat(SpotsS(b.first, o, p), SpotsB(b.rest, o, p + [Past(b.first)]));
    }
  }

  lemma {:induction false} ExactA(a: Arms, c: Ctx, o: Option<Stmt>, q: seq<Step>)
    requires Stands(c, o, q) && (c.owned ==> c.reason.Some?)
    ensures LintA(a, c).findings == Reports(SpotsA(a, o, q))
    decreases a, 1
  {
    if a.Arm? {
      ExactE(a.test, c, o, q);
      ExactB(a.body, c, o, q);
      ExactA(a.rest, c.(early := LintB(a.body, c).early), o, q);
      ReportsConcat(SpotsE(a.test, o, q), SpotsB(a.body, o, q));
      ReportsConcat(SpotsE(a.test, o, q) + SpotsB(a.body, o, q), SpotsA(a.rest, o, q));
    }
  }

  // -- what each finding means --

  lemma {:induction false} OutermostMeans(p: seq<Step>)
    requires !Unconditional(p)
    ensures exists i :: 0 <= i < |p| && p[i] == Within(Outermost(p)) && Unconditional(p[..i])
  {
    if p[0].Within? {
      assert Unconditional(p[..0]);
    } else {
      var y :| y in p && !y.Past?;
      assert y in p[1..];
      OutermostMeans(p[1..]);
      var i :| 0 <= i < |p| - 1 && p[1..][i] == Within(Outermost(p)) && Unconditional(p[1..][..i]);
      assert p[..i + 1] == [p[0]] + p[1..][..i];
      assert p[i + 1] == Within(Outermost(p)) && Unconditional(p[..i + 1]);
    }
  }

  lemma {:induction false} ReportsMeans(xs: seq<Spot>, f: Finding)
    ensures f in Reports(xs) <==> exists x <- xs :: f in Report(x)
  {
    if xs != [] {
      assert xs == [xs[0]] + xs[1..];
      ReportsMeans(xs[1..], f);
    }
  }

  /** A hook call evaluated once, unconditionally and before the first statement holding a `return`. */
  predicate Open(x: Spot) {
    x.owner.Some? && Unconditional(x.steps) && !AfterExit(x.steps)
  }

  /** Exactly the calls standing in open positions are not reported. */
  lemma {:induction false} CleanMeans(xs: seq<Spot>)
    ensures Reports(xs) == [] <==> forall x <- xs :: Open(x)
  {
    if xs != [] {
      CleanMeans(xs[1..]);
      assert Report(xs[0]) == [] <==> Open(xs[0]);
      assert Reports(xs) == [] <==> Report(xs[0]) == [] && Reports(xs[1..]) == [];
      assert forall x <- xs :: x == xs[0] || x in xs[1..];
      assert xs[0] in xs && forall x <- xs[1..] :: x in xs;
    }
  }

  // -- what the way to a call passes is its owner's own scope --

  ghost predicate Placed(x: Spot) {
    x.owner.Some? ==>
      && IsOwner(x.owner.value)
      && (Unconditional(x.steps) ==> forall y <- x.steps :: y.stmt in OwnScopeB(x.owner.value.body))
  }

  ghost predicate Inside(o: Option<Stmt>, p: seq<Step>, scope: seq<Stmt>) {
    o.Some? ==>
      && IsOwner(o.value)
      && (Unconditional(p) ==>
        && (forall y <- p :: y.stmt in OwnScopeB(o.value.body))
        && (forall s <- scope :: s in OwnScopeB(o.value.body)))
  }

  lemma InsideWithin(o: Option<Stmt>, p: seq<Step>, why: Why)
    requires Inside(o, p, [])
    ensures forall scope :: Inside(o, p + [Within(why)], scope)
  {
    assert Within(why) in p + [Within(why)];
  }

  lemma {:induction false} PlacedE(e: Expr, o: Option<Stmt>, p: seq<Step>)
    requires Inside(o, p, [])
    ensures forall x <- SpotsE(e, o, p) :: Placed(x)
  {
    match e
    case Atom =>
    case Parts(es) => PlacedEs(es, o, p);
    case Call(n, args) => PlacedEs(args, o, p);
    case Compare(l, s, m) => PlacedE(l, o, p); PlacedE(s, o, p); PlacedEs(m, o, p);
    case BoolOp(isAnd, f, r) =>
      InsideWithin(o, p, InRightSide(isAnd));
      PlacedE(f, o, p); PlacedEs(r, o, p + [Within(InRightSide(isAnd))]);
    case IfExp(t, b, f) =>
      InsideWithin(o, p, InCondExpr);
      PlacedE(t, o, p); PlacedE(b, o, p + [Within(InCondExpr)]); PlacedE(f, o, p + [Within(InCondExpr)]);
    case Lambda(d, b) =>
      InsideWithin(o, p, InLambda);
      PlacedEs(d, o, p); PlacedE(b, o, p + [Within(InLambda)]);
    case Comprehension(i, inner) =>
      InsideWithin(o, p, InComprehension);
      PlacedE(i, o, p); PlacedEs(inner, o, p + [Within(InComprehension)]);
  }

  lemma {:induction false} PlacedEs(es: Exprs, o: Option<Stmt>, p: seq<Step>)
    requires Inside(o, p, [])
    ensures forall x <- SpotsEs(es, o, p) :: Placed(x)
  {
    if es.ConsE? {
      PlacedE(es.head, o, p);
      PlacedEs(es.tail, o, p);
    }
  }

  lemma {:induction false} PlacedS(s: Stmt, o: Option<Stmt>, p: seq<Step>)
    requires Inside(o, p, OwnScopeS(s))
    ensures forall x <- SpotsS(s, o, p) :: Placed(x)
  {
    match s
    case Simple(es) => PlacedEs(es, o, p);
    case Return(v) => PlacedE(v, o, p);
    case Break =>
    case Continue =>
    case If(t, b, e) =>
      InsideWithin(o, p, InIf);
      PlacedE(t, o, p); PlacedB(b, o, p + [Within(InIf)]); PlacedB(e, o, p + [Within(InIf)]);
    case For(i, t, b, e) =>
      InsideWithin(o, p, InFor);
      PlacedE(i, o, p); PlacedE(t, o, p); PlacedB(b, o, p + [Within(InFor)]); PlacedB(e, o, p + [Within(InFor)]);
    case While(t, b, e) =>
      InsideWithin(o, p, InWhile);
      PlacedE(t, o, p + [Within(InWhile)]); PlacedB(b, o, p + [Within(InWhile)]); PlacedB(e, o, p + [Within(InWhile)]);
    case Try(b, h, e, f) =>
      var q := p + [Within(InTry)];
      InsideWithin(o, p, InTry);
      PlacedB(b, o, q); PlacedA(h, o, q); PlacedB(e, o, q); PlacedB(f, o, q);
    case With(es, _, b) => PlacedEs(es, o, p); PlacedB(b, o, p);
    case Match(e, cs) =>
      InsideWithin(o, p, InMatch);
      PlacedE(e, o, p); PlacedA(cs, o, p + [Within(InMatch)]);
    case Def(n, _, h, _, b) =>
      PlacedEs(h, o, p);
      if IsOwner(s) {
        PlacedB(b, Some(s), []);
      } else {
        InsideWithin(o, p, InFunction(n));
        PlacedB(b, o, p + [Within(InFunction(n))]);
      }
    case Class(h, b) =>
      InsideWithin(o, p, InClass);
      PlacedEs(h, o, p); PlacedB(b, o, p + [Within(InClass)]);
  }

  lemma {:induction false} PlacedB(b: Block, o: Option<Stmt>, p: seq<Step>)
    requires Inside(o, p, OwnScopeB(b))
    ensures forall x <- SpotsB(b, o, p) :: Placed(x)
  {
    if b.Seq? {
      assert OwnScopeS(b.first)[0] == b.first;
      PlacedS(b.first, o, p);
      PlacedB(b.rest, o, p + [Past(b.first)]);
    }
  }

  lemma {:induction false} PlacedA(a: Arms, o: Option<Stmt>, p: seq<Step>)
    requires Inside(o, p, OwnScopeA(a))
    ensures forall x <- SpotsA(a, o, p) :: Placed(x)
  {
    if a.Arm? {
      PlacedE(a.test, o, p);
      PlacedB(a.body, o, p);
      PlacedA(a.rest, o, p);
    }
  }

  // -- the checker's answers --

  /** The findings of a module are those of its hook calls, one verdict each. */
  lemma ModuleExact(m: Block)
    ensures LintB(m, MODULE).findings == Reports(SpotsB(m, None, []))
  {
    ExactB(m, MODULE, None, []);
  }

  /** No finding at all exactly when every hook call stands in an open position. */
  lemma PreciseExactlyWhen(m: Block)
    ensures LintB(m, MODULE).findings == [] <==> forall x <- SpotsB(m, None, []) :: Open(x)
  {
    ModuleExact(m);
    CleanMeans(SpotsB(m, None, []));
  }

  lemma {:induction false} ReturnInScope(b: Block, s: Stmt)
    requires s in OwnScopeB(b) && HasReturn(s)
    ensures HasReturnB(b)
    decreases b
  {
    if s in OwnScopeS(b.first) { ReturnInScopeS(b.first, s); } else { ReturnInScope(b.rest, s); }
  }

  lemma {:induction false} ReturnInScopeS(t: Stmt, s: Stmt)
    requires s in OwnScopeS(t) && HasReturn(s)
    ensures HasReturn(t)
    decreases t
  {
    if s != t {
      match t
      case If(_, b, e) => if s in OwnScopeB(b) { ReturnInScope(b, s); } else { ReturnInScope(e, s); }
      case For(_, _, b, e) => if s in OwnScopeB(b) { ReturnInScope(b, s); } else { ReturnInScope(e, s); }
      case While(_, b, e) => if s in OwnScopeB(b) { ReturnInScope(b, s); } else { ReturnInScope(e, s); }
      case Try(b, h, e, f) =>
        if s in OwnScopeB(b) { ReturnInScope(b, s); }
        else if s in OwnScopeA(h) { ReturnInScopeA(h, s); }
        else if s in OwnScopeB(e) { ReturnInScope(e, s); }
        else { ReturnInScope(f, s); }
      case With(_, _, b) => ReturnInScope(b, s);
      case Match(_, cs) => ReturnInScopeA(cs, s);
    }
  }

  lemma {:induction false} ReturnInScopeA(a: Arms, s: Stmt)
    requires s in OwnScopeA(a) && HasReturn(s)
    ensures HasReturnA(a)
    decreases a
  {
    if s in OwnScopeB(a.body) { ReturnInScope(a.body, s); } else { ReturnInScopeA(a.rest, s); }
  }

  /** A call is reported as after an early return only in a component or hook with a `return` of its own. */
  lemma AfterReturnNeedsReturn(m: Block, hook: string)
    requires AfterReturn(hook) in LintB(m, MODULE).findings
    ensures exists x <- SpotsB(m, None, []) ::
      x.hook == hook && x.owner.Some? && IsOwner(x.owner.value) && exists y <- OwnScopeB(x.owner.value.body) :: y.Return?
  {
    var xs := SpotsB(m, None, []);
    ModuleExact(m);
    ReportsMeans(xs, AfterReturn(hook));
    PlacedB(m, None, []);
    var x :| x in xs && AfterReturn(hook) in Report(x);
    var s :| s in x.steps && MayLeave(s);
    HasReturnMeans(s.stmt);
    ReturnInScope(x.owner.value.body, s.stmt);
    HasReturnMeansB(x.owner.value.body);
  }

  lemma {:induction false} DroppedMeans(s: string) returns (k: nat)
    ensures k <= |s| && (forall i :: 0 <= i < k ==> s[i] == '_') && (k < |s| ==> s[k] != '_')
    ensures DropUnderscores(s) == s[k..]
  {
    k := 0;
    if s != "" && s[0] == '_' {
      var j := DroppedMeans(s[1..]);
      k := j + 1;
      assert s[1..][j..] == s[k..];
      assert forall i :: 0 < i < k ==> s[i] == s[1..][i - 1];
    }
  }

  predicate HookAt(name: string, k: nat) {
    && k + 5 <= |name|
    && (forall i :: 0 <= i < k ==> name[i] == '_')
    && name[k..k + 4] == "use_"
    && 'a' <= name[k + 4] <= 'z'
  }

  /** A hook's name: underscores, `use_` and a lowercase letter, then anything. */
  lemma HookNamesExactly(name: string)
    ensures IsHookName(name) <==> exists k: nat :: HookAt(name, k)
  {
    var k := DroppedMeans(name);
    if |name| >= k + 5 {
      assert name[k..][..4] == name[k..k + 4] && name[k..][4] == name[k + 4];
    }
    if j: nat :| HookAt(name, j) {
      assert name[j] == name[j..j + 4][0] == 'u';
      assert j == k;
    }
    assert IsHookName(name) ==> HookAt(name, k);
  }
}
