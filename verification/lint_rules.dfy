/** What the rules-of-hooks checker reports, as a function of the syntax and its walking context. */
module LintRules {
  import opened PySyntax
  import opened Wrappers

  /** Why a position is conditional, relative to the enclosing component or hook. */
  datatype Why =
    | InIf | InFor | InWhile | InTry | InMatch | InCondExpr | InRightSide(isAnd: bool)
    | InLambda | InComprehension | InFunction(name: string) | InClass

  /** PN101 inside a construct, PN101 after an early return, and PN102. */
  datatype Finding = Conditional(hook: string, why: Why) | AfterReturn(hook: string) | Outside(hook: string)

  /** The walking context: is there an owner, why is this conditional, is this the owner's own scope,
      has the owner already met an early return. */
  datatype Ctx = Ctx(owned: bool, reason: Option<Why>, direct: bool, early: bool)

  datatype Verdict = Verdict(findings: seq<Finding>, early: bool)

  const MODULE := Ctx(false, None, false, false)
  const OWNER := Ctx(true, None, true, false)

  function Under(c: Ctx, why: Why): Ctx {
    if c.reason.None? then c.(reason := Some(why)) else c
  }

  function Leaving(c: Ctx, why: Why): Ctx {
    Under(c, why).(direct := false)
  }

  /** A context in which every hook call is reported. */
  predicate Muted(c: Ctx) {
    !c.owned || c.reason.Some? || c.early
  }

  function Placement(hook: string, c: Ctx): seq<Finding> {
    if !c.owned then [Outside(hook)]
    else if c.reason.Some? then [Conditional(hook, c.reason.value)]
    else if c.early then [AfterReturn(hook)]
    else []
  }

  function LintE(e: Expr, c: Ctx): seq<Finding> {
    match e
    case Atom => []
    case Parts(es) => LintEs(es, c)
    case Call(n, args) => (if IsHookName(n) then Placement(n, c) else []) + LintEs(args, c)
    case Compare(l, s, m) => LintE(l, c) + LintE(s, c) + LintEs(m, c)
    case BoolOp(isAnd, f, r) => LintE(f, c) + LintEs(r, Under(c, InRightSide(isAnd)))
    case IfExp(t, b, o) => LintE(t, c) + LintE(b, Under(c, InCondExpr)) + LintE(o, Under(c, InCondExpr))
    case Lambda(d, b) => LintEs(d, c) + LintE(b, Leaving(c, InLambda))
    case Comprehension(i, inner) => LintE(i, c) + LintEs(inner, Leaving(c, InComprehension))
  }

  function LintEs(es: Exprs, c: Ctx): seq<Finding> {
    match es
    case NoExprs => []
    case ConsE(h, t) => LintE(h, c) + LintEs(t, c)
  }

  /** Whether passing this statement ends the part of the body in which hooks are allowed. */
  predicate LeavesEarly(s: Stmt) {
    !s.Return? && !s.Def? && !s.Class? && HasReturn(s)
  }

  /** First findings, then those of a block checked with the early-return flag reached so far. */
  function AndThen(f: seq<Finding>, v: Verdict): Verdict {
    v.(findings := f + v.findings)
  }

  function LintTry(s: Stmt, u: Ctx): Verdict
    requires s.Try?
    decreases s, 0
  {
    var vb := LintB(s.body, u);
    var vh := LintA(s.handlers, u.(early := vb.early));
    var ve := LintB(s.orelse, u.(early := vh.early));
    AndThen(vb.findings + vh.findings + ve.findings, LintB(s.finalbody, u.(early := ve.early)))
  }

  function LintS(s: Stmt, c: Ctx): Verdict
    decreases s, 1
  {
    match s
    case Simple(es) => Verdict(LintEs(es, c), c.early)
    case Return(v) => Verdict(LintE(v, c), c.early)
    case Break => Verdict([], c.early)
    case Continue => Verdict([], c.early)
    case If(t, b, e) =>
      var u := Under(c, InIf);
      var vb := LintB(b, u);
      AndThen(LintE(t, c), AndThen(vb.findings, LintB(e, u.(early := vb.early))))
    case For(i, t, b, e) =>
      var u := Under(c, InFor);
      var vb := LintB(b, u);
      AndThen(LintE(i, c) + LintE(t, c), AndThen(vb.findings, LintB(e, u.(early := vb.early))))
    case While(t, b, e) =>
      var u := Under(c, InWhile);
      var vb := LintB(b, u);
      AndThen(LintE(t, u), AndThen(vb.findings, LintB(e, u.(early := vb.early))))
    case Try(_, _, _, _) => LintTry(s, Under(c, InTry))
    case With(es, _, b) => AndThen(LintEs(es, c), LintB(b, c))
    case Match(e, cs) => AndThen(LintE(e, c), LintA(cs, Under(c, InMatch)))
    case Def(n, _, h, _, b) =>
      if IsOwner(s) then Verdict(LintEs(h, c) + LintB(b, OWNER).findings, c.early)
      else if c.owned then AndThen(LintEs(h, c), LintB(b, Leaving(c, InFunction(n))))
      else AndThen(LintEs(h, c), LintB(b, c))
    case Class(h, b) =>
      AndThen(LintEs(h, c), LintB(b, if c.owned then Leaving(c, InClass) else c))
  }

  function LintB(b: Block, c: Ctx): Verdict {
    match b
    case End => Verdict([], c.early)
    case Seq(s, rest) =>
      var v := LintS(s, c);
      var early := v.early || (c.owned && c.direct && LeavesEarly(s));
      AndThen(v.findings, LintB(rest, c.(early := early)))
  }

  function LintA(a: Arms, c: Ctx): Verdict {
    match a
    case NoArms => Verdict([], c.early)
    case Arm(t, b, rest) =>
      var vb := LintB(b, c);
      AndThen(LintE(t, c), AndThen(vb.findings, LintA(rest, c.(early := vb.early))))
  }

  // The checker visits a function's decorators and defaults, and not its annotations, which run with them.
  // These are the findings it would report there.

  function UnseenTry(s: Stmt, u: Ctx): seq<Finding>
    requires s.Try?
    decreases s, 0
  {
    var uh := u.(early := LintB(s.body, u).early);
    var ue := u.(early := LintA(s.handlers, uh).early);
    UnseenB(s.body, u) + UnseenA(s.handlers, uh) + UnseenB(s.orelse, ue) +
    UnseenB(s.finalbody, u.(early := LintB(s.orelse, ue).early))
  }

  function UnseenS(s: Stmt, c: Ctx): seq<Finding>
    decreases s, 1
  {
    match s
    case If(_, b, e) =>
      var u := Under(c, InIf);
      UnseenB(b, u) + UnseenB(e, u.(early := LintB(b, u).early))
    case For(_, _, b, e) =>
      var u := Under(c, InFor);
      UnseenB(b, u) + UnseenB(e, u.(early := LintB(b, u).early))
    case While(_, b, e) =>
      var u := Under(c, InWhile);
      UnseenB(b, u) + UnseenB(e, u.(early := LintB(b, u).early))
    case Try(_, _, _, _) => UnseenTry(s, Under(c, InTry))
    case With(_, _, b) => UnseenB(b, c)
    case Match(_, cs) => UnseenA(cs, Under(c, InMatch))
    case Def(n, _, _, a, b) =>
      LintEs(a, c) + UnseenB(b, if IsOwner(s) then OWNER else if c.owned then Leaving(c, InFunction(n)) else c)
    case Class(_, b) => UnseenB(b, if c.owned then Leaving(c, InClass) else c)
    case _ => []
  }

  function UnseenB(b: Block, c: Ctx): seq<Finding> {
    match b
    case End => []
    case Seq(s, rest) => UnseenS(s, c) + UnseenB(rest, c.(early := EarlyAfter(s, c)))
  }

  function UnseenA(a: Arms, c: Ctx): seq<Finding> {
    match a
    case NoArms => []
    case Arm(_, b, rest) => UnseenB(b, c) + UnseenA(rest, c.(early := LintB(b, c).early))
  }

  /** Whether the owner has met an early return once the statement was visited. */
  function EarlyAfter(s: Stmt, c: Ctx): bool {
    LintS(s, c).early || (c.owned && c.direct && LeavesEarly(s))
  }

  // In a context that reports every hook call, no findings means no hook calls.

  lemma {:induction false} MutedQuietE(e: Expr, c: Ctx)
    requires Muted(c) && LintE(e, c) == []
    ensures QuietE(e)
  {
    match e
    case Atom =>
    case Parts(es) => MutedQuietEs(es, c);
    case Call(n, args) => MutedQuietEs(args, c);
    case Compare(l, s, m) => MutedQuietE(l, c); MutedQuietE(s, c); MutedQuietEs(m, c);
    case BoolOp(isAnd, f, r) => MutedQuietE(f, c); MutedQuietEs(r, Under(c, InRightSide(isAnd)));
    case IfExp(t, b, o) =>
      MutedQuietE(t, c); MutedQuietE(b, Under(c, InCondExpr)); MutedQuietE(o, Under(c, InCondExpr));
    case Lambda(d, b) => MutedQuietEs(d, c); MutedQuietE(b, Leaving(c, InLambda));
    case Comprehension(i, inner) => MutedQuietE(i, c); MutedQuietEs(inner, Leaving(c, InComprehension));
  }

  lemma {:induction false} MutedQuietEs(es: Exprs, c: Ctx)
    requires Muted(c) && LintEs(es, c) == []
    ensures QuietEs(es)
  {
    if es.ConsE? {
      MutedQuietE(es.head, c);
      MutedQuietEs(es.tail, c);
    }
  }

  lemma {:induction false} MutedQuietS(s: Stmt, c: Ctx)
    requires Muted(c) && LintS(s, c).findings == [] && UnseenS(s, c) == []
    ensures QuietS(s) && (c.early ==> LintS(s, c).early)
    decreases s, 1
  {
    match s
    case Simple(es) => MutedQuietEs(es, c);
    case Return(v) => MutedQuietE(v, c);
    case Break =>
    case Continue =>
    case If(t, b, e) =>
      var u := Under(c, InIf);
      MutedQuietE(t, c); MutedQuietB(b, u); MutedQuietB(e, u.(early := LintB(b, u).early));
    case For(i, t, b, e) =>
      var u := Under(c, InFor);
      MutedQuietE(i, c); MutedQuietE(t, c); MutedQuietB(b, u); MutedQuietB(e, u.(early := LintB(b, u).early));
    case While(t, b, e) =>
      var u := Under(c, InWhile);
      MutedQuietE(t, u); MutedQuietB(b, u); MutedQuietB(e, u.(early := LintB(b, u).early));
    case Try(_, _, _, _) => MutedQuietTry(s, Under(c, InTry));
    case With(es, _, b) => MutedQuietEs(es, c); MutedQuietB(b, c);
    case Match(e, cs) => MutedQuietE(e, c); MutedQuietA(cs, Under(c, InMatch));
    case Def(n, _, h, a, b) =>
      MutedQuietEs(h, c); MutedQuietEs(a, c);
      if !IsOwner(s) { MutedQuietB(b, if c.owned then Leaving(c, InFunction(n)) else c); }
    case Class(h, b) => MutedQuietEs(h, c); MutedQuietB(b, if c.owned then Leaving(c, InClass) else c);
  }

  lemma {:induction false} MutedQuietTry(s: Stmt, u: Ctx)
    requires s.Try? && Muted(u) && LintTry(s, u).findings == [] && UnseenTry(s, u) == []
    ensures QuietS(s) && (u.early ==> LintTry(s, u).early)
    decreases s, 0
  {
    var uh := u.(early := LintB(s.body, u).early);
    var ue := u.(early := LintA(s.handlers, uh).early);
    MutedQuietB(s.body, u);
    MutedQuietA(s.handlers, uh);
    MutedQuietB(s.orelse, ue);
    MutedQuietB(s.finalbody, u.(early := LintB(s.orelse, ue).early));
  }

  lemma {:induction false} MutedQuietB(b: Block, c: Ctx)
    requires Muted(c) && LintB(b, c).findings == [] && UnseenB(b, c) == []
    ensures QuietB(b) && (c.early ==> LintB(b, c).early)
    decreases b, 1
  {
    if b.Seq? {
      MutedQuietS(b.first, c);
      MutedQuietB(b.rest, c.(early := EarlyAfter(b.first, c)));
    }
  }

  lemma {:induction false} MutedQuietA(a: Arms, c: Ctx)
    requires Muted(c) && LintA(a, c).findings == [] && UnseenA(a, c) == []
    ensures QuietA(a) && (c.early ==> LintA(a, c).early)
    decreases a, 1
  {
    if a.Arm? {
      MutedQuietE(a.test, c);
      MutedQuietB(a.body, c);
      MutedQuietA(a.rest, c.(early := LintB(a.body, c).early));
    }
  }
}
