/** Exactly when the checker is sound: it misses a hook only where the code can skip or repeat it. */
module LintExactness {
  import opened PySyntax
  import opened LintRules
  import opened PyRuns
  import opened LintSoundness

  // -- runs by their choices: any oracle that makes them, from any position, gives the same run --

  ghost predicate Follows(o: Oracle, p: nat, c: seq<nat>) {
    forall i :: 0 <= i < |c| ==> o(p + i) == c[i]
  }

  lemma FollowsSplit(o: Oracle, p: nat, a: seq<nat>, b: seq<nat>)
    requires Follows(o, p, a + b)
    ensures Follows(o, p, a) && Follows(o, p + |a|, b)
    ensures b != [] ==> o(p + |a|) == b[0]
  {
    forall i | 0 <= i < |a| ensures o(p + i) == a[i] {
      assert (a + b)[i] == a[i];
    }
    forall i | 0 <= i < |b| ensures o(p + |a| + i) == b[i] {
      assert (a + b)[|a| + i] == b[i];
      assert p + (|a| + i) == p + |a| + i;
    }
    if b != [] { assert o(p + |a| + 0) == b[0]; }
  }

  ghost predicate GoesE(e: Expr, c: seq<nat>, t: seq<string>) {
    forall o: Oracle, p: nat, f: nat :: f >= 1 && Follows(o, p, c) ==> RunE(e, BARE, o, p, f) == Ran(t, p + |c|, Fell)
  }

  ghost predicate GoesEs(es: Exprs, c: seq<nat>, t: seq<string>) {
    forall o: Oracle, p: nat, f: nat :: f >= 1 && Follows(o, p, c) ==> RunEs(es, BARE, o, p, f) == Ran(t, p + |c|, Fell)
  }

  ghost predicate GoesUpTo(es: Exprs, k: nat, c: seq<nat>, t: seq<string>) {
    forall o: Oracle, p: nat, f: nat ::
      f >= 1 && Follows(o, p, c) ==> RunUpTo(es, k, BARE, o, p, f) == Ran(t, p + |c|, Fell)
  }

  // -- how the runs of an expression are made of those of its parts --

  function HookOf(name: string): seq<string> {
    if IsHookName(name) then [name] else []
  }

  lemma StepCall(n: string, args: Exprs, c: seq<nat>, t: seq<string>)
    requires GoesEs(args, c, t)
    ensures GoesE(Call(n, args), c + [0], t + HookOf(n))
  {
    forall o: Oracle, p: nat, f: nat | f >= 1 && Follows(o, p, c + [0])
      ensures RunE(Call(n, args), BARE, o, p, f) == Ran(t + HookOf(n), p + |c + [0]|, Fell)
    {
      FollowsSplit(o, p, c, [0]);
      var a := RunEs(args, BARE, o, p, f);
      assert RunHook(n, BARE, o, a.pos, f - 1) == Ran(HookOf(n), a.pos, Fell);
      assert Callbacks(BARE, o, a.pos, f - 1) == Ran([], a.pos + 1, Fell);
    }
  }

  lemma StepCompare(l: Expr, s: Expr, m: Exprs, c1: seq<nat>, t1: seq<string>, c2: seq<nat>, t2: seq<string>,
                    k: nat, c3: seq<nat>, t3: seq<string>)
    requires GoesE(l, c1, t1) && GoesE(s, c2, t2) && GoesUpTo(m, k, c3, t3)
    ensures GoesE(Compare(l, s, m), c1 + (c2 + ([k] + c3)), t1 + t2 + t3)
  {
    var c := c1 + (c2 + ([k] + c3));
    forall o: Oracle, p: nat, f: nat | f >= 1 && Follows(o, p, c)
      ensures RunE(Compare(l, s, m), BARE, o, p, f) == Ran(t1 + t2 + t3, p + |c|, Fell)
    {
      FollowsSplit(o, p, c1, c2 + ([k] + c3));
      var a := RunE(l, BARE, o, p, f);
      FollowsSplit(o, a.pos, c2, [k] + c3);
      var b := RunE(s, BARE, o, a.pos, f);
      FollowsSplit(o, b.pos, [k], c3);
      assert RunUpTo(m, k, BARE, o, b.pos + 1, f) == Ran(t3, b.pos + 1 + |c3|, Fell);
    }
  }

  lemma NoneUpTo(es: Exprs)
    ensures GoesUpTo(es, 0, [], [])
  {
  }

  function Len(es: Exprs): nat {
    if es.ConsE? then 1 + Len(es.tail) else 0
  }

  lemma {:induction false} RunAllOperands(es: Exprs, k: nat, w: World, o: Oracle, p: nat, f: nat)
    requires k >= Len(es)
    ensures RunUpTo(es, k, w, o, p, f) == RunEs(es, w, o, p, f)
    decreases es
  {
    if es.ConsE? {
      var a := RunE(es.head, w, o, p, f);
      if a.Ran? { RunAllOperands(es.tail, k - 1, w, o, a.pos, f); }
    }
  }

  lemma AllUpTo(es: Exprs, c: seq<nat>, t: seq<string>)
    requires GoesEs(es, c, t)
    ensures GoesUpTo(es, Len(es), c, t)
  {
    forall o: Oracle, p: nat, f: nat | f >= 1 && Follows(o, p, c)
      ensures RunUpTo(es, Len(es), BARE, o, p, f) == Ran(t, p + |c|, Fell)
    {
      RunAllOperands(es, Len(es), BARE, o, p, f);
    }
  }

  lemma StepBoolOp(isAnd: bool, first: Expr, others: Exprs, c: seq<nat>, t: seq<string>)
    requires GoesE(first, c, t)
    ensures GoesE(BoolOp(isAnd, first, others), c + [0], t)
  {
    forall o: Oracle, p: nat, f: nat | f >= 1 && Follows(o, p, c + [0])
      ensures RunE(BoolOp(isAnd, first, others), BARE, o, p, f) == Ran(t, p + |c + [0]|, Fell)
    {
      FollowsSplit(o, p, c, [0]);
      var a := RunE(first, BARE, o, p, f);
      assert RunUpTo(others, 0, BARE, o, a.pos + 1, f) == Ran([], a.pos + 1, Fell);
    }
  }

  lemma StepIfExp(test: Expr, body: Expr, orelse: Expr, c1: seq<nat>, t1: seq<string>, c2: seq<nat>, t2: seq<string>)
    requires GoesE(test, c1, t1) && GoesE(body, c2, t2)
    ensures GoesE(IfExp(test, body, orelse), c1 + ([0] + c2), t1 + t2)
  {
    var c := c1 + ([0] + c2);
    forall o: Oracle, p: nat, f: nat | f >= 1 && Follows(o, p, c)
      ensures RunE(IfExp(test, body, orelse), BARE, o, p, f) == Ran(t1 + t2, p + |c|, Fell)
    {
      FollowsSplit(o, p, c1, [0] + c2);
      var a := RunE(test, BARE, o, p, f);
      FollowsSplit(o, a.pos, [0], c2);
      assert RunE(body, BARE, o, a.pos + 1, f) == Ran(t2, a.pos + 1 + |c2|, Fell);
    }
  }

  lemma StepComprehension(iter: Expr, inner: Exprs, c: seq<nat>, t: seq<string>)
    requires GoesE(iter, c, t)
    ensures GoesE(Comprehension(iter, inner), c + [0], t)
  {
    forall o: Oracle, p: nat, f: nat | f >= 1 && Follows(o, p, c + [0])
      ensures RunE(Comprehension(iter, inner), BARE, o, p, f) == Ran(t, p + |c + [0]|, Fell)
    {
      FollowsSplit(o, p, c, [0]);
      var a := RunE(iter, BARE, o, p, f);
      assert RunPicks(inner, BARE, o, a.pos, f - 1) == Ran([], a.pos + 1, Fell);
    }
  }

  lemma StepCons(head: Expr, tail: Exprs, c1: seq<nat>, t1: seq<string>, c2: seq<nat>, t2: seq<string>)
    requires GoesE(head, c1, t1) && GoesEs(tail, c2, t2)
    ensures GoesEs(ConsE(head, tail), c1 + c2, t1 + t2)
  {
    forall o: Oracle, p: nat, f: nat | f >= 1 && Follows(o, p, c1 + c2)
      ensures RunEs(ConsE(head, tail), BARE, o, p, f) == Ran(t1 + t2, p + |c1 + c2|, Fell)
    {
      FollowsSplit(o, p, c1, c2);
      var a := RunE(head, BARE, o, p, f);
      assert RunEs(tail, BARE, o, a.pos, f) == Ran(t2, a.pos + |c2|, Fell);
    }
  }

  // -- every expression has a run; it calls a hook when the expression surely does --

  lemma {:induction false} PlaysE(e: Expr) returns (c: seq<nat>, t: seq<string>)
    ensures GoesE(e, c, t)
    ensures LintE(e, OWNER) == [] && PlainE(e) && !QuietE(e) ==> t != []
    decreases e
  {
    match e
    case Atom => c, t := [], [];
    case Parts(es) => c, t := PlaysEs(es);
    case Call(n, args) =>
      c, t := PlaysEs(args);
      StepCall(n, args, c, t);
      c, t := c + [0], t + HookOf(n);
    case Compare(l, s, m) =>
      var c1, t1 := PlaysE(l);
      var c2, t2 := PlaysE(s);
      NoneUpTo(m);
      StepCompare(l, s, m, c1, t1, c2, t2, 0, [], []);
      c, t := c1 + (c2 + ([0] + [])), t1 + t2 + [];
    case BoolOp(isAnd, f, r) =>
      c, t := PlaysE(f);
      StepBoolOp(isAnd, f, r, c, t);
      if LintE(e, OWNER) == [] { MutedQuietEs(r, Under(OWNER, InRightSide(isAnd))); }
      c := c + [0];
    case IfExp(test, b, els) =>
      var c1, t1 := PlaysE(test);
      var c2, t2 := PlaysE(b);
      StepIfExp(test, b, els, c1, t1, c2, t2);
      if LintE(e, OWNER) == [] { MutedQuietE(b, Under(OWNER, InCondExpr)); MutedQuietE(els, Under(OWNER, InCondExpr)); }
      c, t := c1 + ([0] + c2), t1 + t2;
    case Lambda(d, b) =>
      c, t := PlaysEs(d);
      if LintE(e, OWNER) == [] { MutedQuietE(b, Leaving(OWNER, InLambda)); }
    case Comprehension(i, inner) =>
      c, t := PlaysE(i);
      StepComprehension(i, inner, c, t);
      if LintE(e, OWNER) == [] { MutedQuietEs(inner, Leaving(OWNER, InComprehension)); }
      c := c + [0];
  }

  lemma {:induction false} PlaysEs(es: Exprs) returns (c: seq<nat>, t: seq<string>)
    ensures GoesEs(es, c, t)
    ensures LintEs(es, OWNER) == [] && PlainEs(es) && !QuietEs(es) ==> t != []
    decreases es
  {
    c, t := [], [];
    if es.ConsE? {
      var c1, t1 := PlaysE(es.head);
      var c2, t2 := PlaysEs(es.tail);
      StepCons(es.head, es.tail, c1, t1, c2, t2);
      c, t := c1 + c2, t1 + t2;
    }
  }

  // -- an accepted expression with a missed hook has a run that calls more hooks than another --

  lemma {:induction false} QuietPlainE(e: Expr)
    requires QuietE(e)
    ensures PlainE(e)
  {
    match e
    case Atom =>
    case Parts(es) => QuietPlainEs(es);
    case Call(_, args) => QuietPlainEs(args);
    case Compare(l, s, m) => QuietPlainE(l); QuietPlainE(s);
    case BoolOp(_, f, r) => QuietPlainE(f); QuietPlainEs(r);
    case IfExp(t, b, o) => QuietPlainE(t); QuietPlainE(b); QuietPlainE(o);
    case Lambda(d, b) => QuietPlainEs(d); QuietPlainE(b);
    case Comprehension(i, inner) => QuietPlainE(i); QuietPlainEs(inner);
  }

  lemma {:induction false} QuietPlainEs(es: Exprs)
    requires QuietEs(es)
    ensures PlainEs(es)
  {
    if es.ConsE? { QuietPlainE(es.head); QuietPlainEs(es.tail); }
  }

  lemma {:induction false} MissE(e: Expr) returns (c: seq<nat>, t: seq<string>, c': seq<nat>, t': seq<string>)
    requires LintE(e, OWNER) == [] && !PlainE(e)
    ensures GoesE(e, c, t) && GoesE(e, c', t') && |t| < |t'|
    decreases e, 1
  {
    match e
    case Parts(es) => c, t, c', t' := MissEs(es);
    case Call(n, args) =>
      c, t, c', t' := MissEs(args);
      StepCall(n, args, c, t);
      StepCall(n, args, c', t');
      c, t, c', t' := c + [0], t + HookOf(n), c' + [0], t' + HookOf(n);
    case Compare(l, s, m) => c, t, c', t' := MissCompare(e);
    case BoolOp(isAnd, f, r) =>
      MutedQuietEs(r, Under(OWNER, InRightSide(isAnd)));
      QuietPlainEs(r);
      c, t, c', t' := MissE(f);
      StepBoolOp(isAnd, f, r, c, t);
      StepBoolOp(isAnd, f, r, c', t');
      c, c' := c + [0], c' + [0];
    case IfExp(test, b, els) =>
      MutedQuietE(b, Under(OWNER, InCondExpr));
      MutedQuietE(els, Under(OWNER, InCondExpr));
      QuietPlainE(b);
      QuietPlainE(els);
      var c1, t1, c1', t1' := MissE(test);
      var c2, t2 := PlaysE(b);
      StepIfExp(test, b, els, c1, t1, c2, t2);
      StepIfExp(test, b, els, c1', t1', c2, t2);
      c, t, c', t' := c1 + ([0] + c2), t1 + t2, c1' + ([0] + c2), t1' + t2;
    case Lambda(d, b) =>
      MutedQuietE(b, Leaving(OWNER, InLambda));
      QuietPlainE(b);
      c, t, c', t' := MissEs(d);
    case Comprehension(i, inner) =>
      MutedQuietEs(inner, Leaving(OWNER, InComprehension));
      QuietPlainEs(inner);
      c, t, c', t' := MissE(i);
      StepComprehension(i, inner, c, t);
      StepComprehension(i, inner, c', t');
      c, c' := c + [0], c' + [0];
  }

  /** The chain may stop after its second operand, or go on to the missed hook. */
  lemma {:induction false} MissCompare(e: Expr) returns (c: seq<nat>, t: seq<string>, c': seq<nat>, t': seq<string>)
    requires LintE(e, OWNER) == [] && !PlainE(e) && e.Compare?
    ensures GoesE(e, c, t) && GoesE(e, c', t') && |t| < |t'|
    decreases e, 0
  {
    var l, s, m := e.left, e.second, e.more;
    NoneUpTo(m);
    var c1, t1 := PlaysE(l);
    var c2, t2 := PlaysE(s);
    if !PlainE(l) {
      var a, ta, a', ta' := MissE(l);
      StepCompare(l, s, m, a, ta, c2, t2, 0, [], []);
      StepCompare(l, s, m, a', ta', c2, t2, 0, [], []);
      c, t, c', t' := a + (c2 + ([0] + [])), ta + t2 + [], a' + (c2 + ([0] + [])), ta' + t2 + [];
    } else if !PlainE(s) {
      var b, tb, b', tb' := MissE(s);
      StepCompare(l, s, m, c1, t1, b, tb, 0, [], []);
      StepCompare(l, s, m, c1, t1, b', tb', 0, [], []);
      c, t, c', t' := c1 + (b + ([0] + [])), t1 + tb + [], c1 + (b' + ([0] + [])), t1 + tb' + [];
    } else {
      var c3, t3 := LoudEs(m);
      AllUpTo(m, c3, t3);
      StepCompare(l, s, m, c1, t1, c2, t2, 0, [], []);
      StepCompare(l, s, m, c1, t1, c2, t2, Len(m), c3, t3);
      c, t, c', t' := c1 + (c2 + ([0] + [])), t1 + t2 + [], c1 + (c2 + ([Len(m)] + c3)), t1 + t2 + t3;
    }
  }

  lemma {:induction false} MissEs(es: Exprs) returns (c: seq<nat>, t: seq<string>, c': seq<nat>, t': seq<string>)
    requires LintEs(es, OWNER) == [] && !PlainEs(es)
    ensures GoesEs(es, c, t) && GoesEs(es, c', t') && |t| < |t'|
    decreases es, 1
  {
    if !PlainE(es.head) {
      var c1, t1, c1', t1' := MissE(es.head);
      var c2, t2 := PlaysEs(es.tail);
      StepCons(es.head, es.tail, c1, t1, c2, t2);
      StepCons(es.head, es.tail, c1', t1', c2, t2);
      c, t, c', t' := c1 + c2, t1 + t2, c1' + c2, t1' + t2;
    } else {
      var c1, t1 := PlaysE(es.head);
      var c2, t2, c2', t2' := MissEs(es.tail);
      StepCons(es.head, es.tail, c1, t1, c2, t2);
      StepCons(es.head, es.tail, c1, t1, c2', t2');
      c, t, c', t' := c1 + c2, t1 + t2, c1 + c2', t1 + t2';
    }
  }

  /** An accepted expression with a hook call somewhere has a run that calls a hook. */
  lemma LoudE(e: Expr) returns (c: seq<nat>, t: seq<string>)
    requires LintE(e, OWNER) == [] && !QuietE(e)
    ensures GoesE(e, c, t) && t != []
    decreases e, 2
  {
    if PlainE(e) {
      c, t := PlaysE(e);
    } else {
      var _, _, c', t' := MissE(e);
      c, t := c', t';
    }
  }

  lemma LoudEs(es: Exprs) returns (c: seq<nat>, t: seq<string>)
    requires LintEs(es, OWNER) == [] && !QuietEs(es)
    ensures GoesEs(es, c, t) && t != []
    decreases es, 2
  {
    if PlainEs(es) {
      c, t := PlaysEs(es);
    } else {
      var _, _, c', t' := MissEs(es);
      c, t := c', t';
    }
  }

  // -- statements: what Python's compiler demands, and how much fuel the runs below need --

  predicate LegalS(s: Stmt, loop: bool, fun: bool) {
    match s
    case Simple(_) => true
    case Return(_) => fun
    case Break => loop
    case Continue => loop
    case If(_, b, e) => LegalB(b, loop, fun) && LegalB(e, loop, fun)
    case For(_, _, b, e) => LegalB(b, true, fun) && LegalB(e, loop, fun)
    case While(_, b, e) => LegalB(b, true, fun) && LegalB(e, loop, fun)
    case Try(b, h, e, f) => LegalB(b, loop, fun) && LegalA(h, loop, fun) && LegalB(e, loop, fun) && LegalB(f, loop, fun)
    case With(_, _, b) => LegalB(b, loop, fun)
    case Match(_, cs) => LegalA(cs, loop, fun)
    case Def(_, _, _, _, b) => LegalB(b, false, true)
    case Class(_, b) => LegalB(b, false, false)
  }

  predicate LegalB(b: Block, loop: bool, fun: bool) {
    b.Seq? ==> LegalS(b.first, loop, fun) && LegalB(b.rest, loop, fun)
  }

  predicate LegalA(a: Arms, loop: bool, fun: bool) {
    a.Arm? ==> LegalB(a.body, loop, fun) && LegalA(a.rest, loop, fun)
  }

  predicate LegalHow(h: How, loop: bool, fun: bool) {
    match h
    case Fell => true
    case Returned => fun
    case Broke => loop
    case Continued => loop
  }

  function FuelS(s: Stmt): nat {
    match s
    case If(_, b, e) => 1 + FuelB(b) + FuelB(e)
    case For(_, _, b, e) => 4 + FuelB(b) + FuelB(e)
    case While(_, b, e) => 4 + FuelB(b) + FuelB(e)
    case Try(b, _, e, f) => 1 + FuelB(b) + FuelB(e) + FuelB(f)
    case With(_, _, b) => 1 + FuelB(b)
    case Class(_, b) => 1 + FuelB(b)
    case _ => 1
  }

  function FuelB(b: Block): nat {
    if b.Seq? then 1 + FuelS(b.first) + FuelB(b.rest) else 1
  }

  ghost predicate GoesS(s: Stmt, c: seq<nat>, t: seq<string>, h: How) {
    forall o: Oracle, p: nat, f: nat :: f >= FuelS(s) && Follows(o, p, c) ==> RunS(s, BARE, o, p, f) == Ran(t, p + |c|, h)
  }

  ghost predicate GoesB(b: Block, c: seq<nat>, t: seq<string>, h: How) {
    forall o: Oracle, p: nat, f: nat :: f >= FuelB(b) && Follows(o, p, c) ==> RunB(b, BARE, o, p, f) == Ran(t, p + |c|, h)
  }

  ghost predicate GoesA(a: Arms, c: seq<nat>, t: seq<string>) {
    forall o: Oracle, p: nat, f: nat :: f >= 1 && Follows(o, p, c) ==> RunA(a, BARE, o, p, f) == Ran(t, p + |c|, Fell)
  }

  // -- how the runs of a statement are made of those of its parts --

  lemma StepIf(s: Stmt, c1: seq<nat>, t1: seq<string>, c2: seq<nat>, t2: seq<string>, h: How)
    requires s.If? && GoesE(s.test, c1, t1) && GoesB(s.body, c2, t2, h)
    ensures GoesS(s, c1 + ([0] + c2), t1 + t2, h)
  {
    var c := c1 + ([0] + c2);
    forall o: Oracle, p: nat, f: nat | f >= FuelS(s) && Follows(o, p, c)
      ensures RunS(s, BARE, o, p, f) == Ran(t1 + t2, p + |c|, h)
    {
      FollowsSplit(o, p, c1, [0] + c2);
      var a := RunE(s.test, BARE, o, p, f);
      assert a == Ran(t1, p + |c1|, Fell);
      FollowsSplit(o, a.pos, [0], c2);
      assert RunB(s.body, BARE, o, a.pos + 1, f) == Ran(t2, a.pos + 1 + |c2|, h);
    }
  }

  ghost predicate GoesLoop(s: Stmt, c: seq<nat>, t: seq<string>, h: How)
    requires s.For?
  {
    forall o: Oracle, p: nat, f: nat :: f + 1 >= FuelS(s) && Follows(o, p, c) ==>
      ForLoop(s.target, s.body, s.orelse, BARE, o, p, f) == Ran(t, p + |c|, h)
  }

  lemma StepFor(s: Stmt, c1: seq<nat>, t1: seq<string>, c2: seq<nat>, t2: seq<string>, h: How)
    requires s.For? && GoesE(s.iter, c1, t1) && GoesLoop(s, c2, t2, h)
    ensures GoesS(s, c1 + c2, t1 + t2, h)
  {
    forall o: Oracle, p: nat, f: nat | f >= FuelS(s) && Follows(o, p, c1 + c2)
      ensures RunS(s, BARE, o, p, f) == Ran(t1 + t2, p + |c1 + c2|, h)
    {
      FollowsSplit(o, p, c1, c2);
      var a := RunE(s.iter, BARE, o, p, f);
      assert ForLoop(s.target, s.body, s.orelse, BARE, o, a.pos, f - 1) == Ran(t2, a.pos + |c2|, h);
    }
  }

  lemma LoopNone(s: Stmt, c: seq<nat>, t: seq<string>, h: How)
    requires s.For? && GoesB(s.orelse, c, t, h)
    ensures GoesLoop(s, [0] + c, t, h)
  {
    forall o: Oracle, p: nat, f: nat | f + 1 >= FuelS(s) && Follows(o, p, [0] + c)
      ensures ForLoop(s.target, s.body, s.orelse, BARE, o, p, f) == Ran(t, p + |[0] + c|, h)
    {
      FollowsSplit(o, p, [], [0] + c);
      FollowsSplit(o, p, [0], c);
      assert RunB(s.orelse, BARE, o, p + 1, f) == Ran(t, p + 1 + |c|, h);
    }
  }

  /** One iteration, whose body breaks out or returns. */
  lemma LoopEnds(s: Stmt, c2: seq<nat>, t2: seq<string>, c3: seq<nat>, t3: seq<string>, hb: How)
    requires s.For? && GoesE(s.target, c2, t2) && GoesB(s.body, c3, t3, hb) && (hb == Broke || hb == Returned)
    ensures GoesLoop(s, [1] + (c2 + c3), t2 + t3, if hb == Broke then Fell else Returned)
  {
    var c := [1] + (c2 + c3);
    forall o: Oracle, p: nat, f: nat | f + 1 >= FuelS(s) && Follows(o, p, c)
      ensures ForLoop(s.target, s.body, s.orelse, BARE, o, p, f) ==
              Ran(t2 + t3, p + |c|, if hb == Broke then Fell else Returned)
    {
      FollowsSplit(o, p, [], c);
      FollowsSplit(o, p, [1], c2 + c3);
      FollowsSplit(o, p + 1, c2, c3);
      var a := RunE(s.target, BARE, o, p + 1, f - 1);
      assert RunB(s.body, BARE, o, a.pos, f - 1) == Ran(t3, a.pos + |c3|, hb);
    }
  }

  /** One iteration, whose body falls through or continues, and then the `else`. */
  lemma LoopOnce(s: Stmt, c2: seq<nat>, t2: seq<string>, c3: seq<nat>, t3: seq<string>, hb: How,
                 c4: seq<nat>, t4: seq<string>, h: How)
    requires s.For? && GoesE(s.target, c2, t2) && GoesB(s.body, c3, t3, hb) && hb != Broke && hb != Returned
    requires GoesB(s.orelse, c4, t4, h)
    ensures GoesLoop(s, [1] + (c2 + (c3 + ([0] + c4))), (t2 + t3) + t4, h)
  {
    var c := [1] + (c2 + (c3 + ([0] + c4)));
    forall o: Oracle, p: nat, f: nat | f + 1 >= FuelS(s) && Follows(o, p, c)
      ensures ForLoop(s.target, s.body, s.orelse, BARE, o, p, f) == Ran((t2 + t3) + t4, p + |c|, h)
    {
      OnceFollowed(o, p, c2, c3, c4);
      var a := RunE(s.target, BARE, o, p + 1, f - 1);
      assert a == Ran(t2, p + 1 + |c2|, Fell);
      var r := RunB(s.body, BARE, o, a.pos, f - 1);
      assert r == Ran(t3, a.pos + |c3|, hb);
      assert RunB(s.orelse, BARE, o, r.pos + 1, f - 1) == Ran(t4, r.pos + 1 + |c4|, h);
      LoopTurn(s, o, p, f, a, r);
    }
  }

  lemma OnceFollowed(o: Oracle, p: nat, c2: seq<nat>, c3: seq<nat>, c4: seq<nat>)
    requires Follows(o, p, [1] + (c2 + (c3 + ([0] + c4))))
    ensures o(p) == 1 && Follows(o, p + 1, c2) && Follows(o, p + 1 + |c2|, c3)
    ensures o(p + 1 + |c2| + |c3|) == 0 && Follows(o, p + 1 + |c2| + |c3| + 1, c4)
  {
    var c := [1] + (c2 + (c3 + ([0] + c4)));
    assert o(p + 0) == c[0];
    FollowsSplit(o, p, [1], c2 + (c3 + ([0] + c4)));
    FollowsSplit(o, p + 1, c2, c3 + ([0] + c4));
    FollowsSplit(o, p + 1 + |c2|, c3, [0] + c4);
    FollowsSplit(o, p + 1 + |c2| + |c3|, [0], c4);
  }

  lemma LoopTurn(s: Stmt, o: Oracle, p: nat, f: nat, a: Run, r: Run)
    requires s.For? && f >= 2 && o(p) == 1 && a.Ran? && RunE(s.target, BARE, o, p + 1, f - 1) == a
    requires r.Ran? && RunB(s.body, BARE, o, a.pos, f - 1) == r && r.how != Broke && r.how != Returned && o(r.pos) == 0
    ensures ForLoop(s.target, s.body, s.orelse, BARE, o, p, f) ==
            After(a.trace + r.trace, RunB(s.orelse, BARE, o, r.pos + 1, f - 1))
  {
  }

  lemma StepWhile(s: Stmt, c1: seq<nat>, t1: seq<string>, c2: seq<nat>, t2: seq<string>, h: How)
    requires s.While? && GoesE(s.test, c1, t1) && GoesB(s.orelse, c2, t2, h)
    ensures GoesS(s, c1 + ([0] + c2), t1 + t2, h)
  {
    var c := c1 + ([0] + c2);
    forall o: Oracle, p: nat, f: nat | f >= FuelS(s) && Follows(o, p, c)
      ensures RunS(s, BARE, o, p, f) == Ran(t1 + t2, p + |c|, h)
    {
      FollowsSplit(o, p, c1, [0] + c2);
      var a := RunE(s.test, BARE, o, p, f - 2);
      FollowsSplit(o, a.pos, [0], c2);
      assert RunB(s.orelse, BARE, o, a.pos + 1, f - 2) == Ran(t2, a.pos + 1 + |c2|, h);
    }
  }

  /** A `try` up to its `finally`, when its body raises nothing. */
  function Middle(s: Stmt, o: Oracle, p: nat, f: nat): Run
    requires s.Try?
  {
    var a := RunB(s.body, BARE, o, p + 1, f);
    if a.Stuck? || a.how != Fell then a else After(a.trace, RunB(s.orelse, BARE, o, a.pos, f))
  }

  ghost predicate GoesMiddle(s: Stmt, c: seq<nat>, t: seq<string>, h: How)
    requires s.Try?
  {
    && c != [] && c[0] == 0
    && forall o: Oracle, p: nat, f: nat :: f >= FuelS(s) && Follows(o, p, c) ==> Middle(s, o, p, f) == Ran(t, p + |c|, h)
  }

  lemma MiddleLeaves(s: Stmt, c1: seq<nat>, t1: seq<string>, h1: How)
    requires s.Try? && GoesB(s.body, c1, t1, h1) && h1 != Fell
    ensures GoesMiddle(s, [0] + c1, t1, h1)
  {
    forall o: Oracle, p: nat, f: nat | f >= FuelS(s) && Follows(o, p, [0] + c1)
      ensures Middle(s, o, p, f) == Ran(t1, p + |[0] + c1|, h1)
    {
      FollowsSplit(o, p, [0], c1);
    }
  }

  lemma MiddleFalls(s: Stmt, c1: seq<nat>, t1: seq<string>, c2: seq<nat>, t2: seq<string>, h: How)
    requires s.Try? && GoesB(s.body, c1, t1, Fell) && GoesB(s.orelse, c2, t2, h)
    ensures GoesMiddle(s, [0] + (c1 + c2), t1 + t2, h)
  {
    var c := [0] + (c1 + c2);
    forall o: Oracle, p: nat, f: nat | f >= FuelS(s) && Follows(o, p, c)
      ensures Middle(s, o, p, f) == Ran(t1 + t2, p + |c|, h)
    {
      FollowsSplit(o, p, [0], c1 + c2);
      FollowsSplit(o, p + 1, c1, c2);
      var a := RunB(s.body, BARE, o, p + 1, f);
      assert RunB(s.orelse, BARE, o, a.pos, f) == Ran(t2, a.pos + |c2|, h);
    }
  }

  lemma StepTry(s: Stmt, c1: seq<nat>, t1: seq<string>, h1: How, c3: seq<nat>, t3: seq<string>, h3: How)
    requires s.Try? && GoesMiddle(s, c1, t1, h1) && GoesB(s.finalbody, c3, t3, h3)
    ensures GoesS(s, c1 + c3, t1 + t3, if h3 != Fell then h3 else h1)
  {
    forall o: Oracle, p: nat, f: nat | f >= FuelS(s) && Follows(o, p, c1 + c3)
      ensures RunS(s, BARE, o, p, f) == Ran(t1 + t3, p + |c1 + c3|, if h3 != Fell then h3 else h1)
    {
      FollowsSplit(o, p, c1, c3);
      assert o(p + 0) == c1[0];
      RunAllStatements(s.body, BARE, o, p + 1, f);
      var m := Middle(s, o, p, f);
      assert m == Ran(t1, p + |c1|, h1);
      assert RunB(s.finalbody, BARE, o, m.pos, f) == Ran(t3, m.pos + |c3|, h3);
    }
  }

  lemma StepWith(s: Stmt, c1: seq<nat>, t1: seq<string>, c2: seq<nat>, t2: seq<string>, h: How)
    requires s.With? && !s.swallows && GoesEs(s.items, c1, t1) && GoesB(s.body, c2, t2, h)
    ensures GoesS(s, c1 + c2, t1 + t2, h)
  {
    forall o: Oracle, p: nat, f: nat | f >= FuelS(s) && Follows(o, p, c1 + c2)
      ensures RunS(s, BARE, o, p, f) == Ran(t1 + t2, p + |c1 + c2|, h)
    {
      FollowsSplit(o, p, c1, c2);
      var a := RunEs(s.items, BARE, o, p, f);
      assert RunB(s.body, BARE, o, a.pos, f) == Ran(t2, a.pos + |c2|, h);
    }
  }

  /** A manager that could swallow has nothing to swallow. */
  lemma StepWithWhole(s: Stmt, c1: seq<nat>, t1: seq<string>, c2: seq<nat>, t2: seq<string>, h: How)
    requires s.With? && s.swallows && GoesEs(s.items, c1, t1) && GoesB(s.body, c2, t2, h)
    ensures GoesS(s, c1 + ([0] + c2), t1 + t2, h)
  {
    var c := c1 + ([0] + c2);
    forall o: Oracle, p: nat, f: nat | f >= FuelS(s) && Follows(o, p, c)
      ensures RunS(s, BARE, o, p, f) == Ran(t1 + t2, p + |c|, h)
    {
      FollowsSplit(o, p, c1, [0] + c2);
      var a := RunEs(s.items, BARE, o, p, f);
      assert a == Ran(t1, p + |c1|, Fell);
      FollowsSplit(o, a.pos, [0], c2);
      RunAllStatements(s.body, BARE, o, a.pos + 1, f);
      assert RunB(s.body, BARE, o, a.pos + 1, f) == Ran(t2, a.pos + 1 + |c2|, h);
    }
  }

  /** It swallows an exception of the body's first statement. */
  lemma StepWithCut(s: Stmt, c1: seq<nat>, t1: seq<string>)
    requires s.With? && s.swallows && GoesEs(s.items, c1, t1)
    ensures GoesS(s, c1 + [1], t1, Fell)
  {
    forall o: Oracle, p: nat, f: nat | f >= FuelS(s) && Follows(o, p, c1 + [1])
      ensures RunS(s, BARE, o, p, f) == Ran(t1, p + |c1 + [1]|, Fell)
    {
      FollowsSplit(o, p, c1, [1]);
      var a := RunEs(s.items, BARE, o, p, f);
      assert a == Ran(t1, p + |c1|, Fell);
      assert RunFirst(s.body, 1, BARE, o, a.pos + 1, f) == Ran([], a.pos + 1, Fell);
      assert t1 + [] == t1;
    }
  }

  /** All of a `with`, whatever its manager does with exceptions. */
  lemma WholeWith(s: Stmt, c1: seq<nat>, t1: seq<string>, c2: seq<nat>, t2: seq<string>, h: How) returns (c: seq<nat>)
    requires s.With? && GoesEs(s.items, c1, t1) && GoesB(s.body, c2, t2, h)
    ensures GoesS(s, c, t1 + t2, h)
  {
    if s.swallows {
      StepWithWhole(s, c1, t1, c2, t2, h);
      c := c1 + ([0] + c2);
    } else {
      StepWith(s, c1, t1, c2, t2, h);
      c := c1 + c2;
    }
  }

  lemma StepMatch(s: Stmt, c1: seq<nat>, t1: seq<string>, c2: seq<nat>, t2: seq<string>)
    requires s.Match? && GoesE(s.subject, c1, t1) && GoesA(s.cases, c2, t2)
    ensures GoesS(s, c1 + c2, t1 + t2, Fell)
  {
    forall o: Oracle, p: nat, f: nat | f >= FuelS(s) && Follows(o, p, c1 + c2)
      ensures RunS(s, BARE, o, p, f) == Ran(t1 + t2, p + |c1 + c2|, Fell)
    {
      FollowsSplit(o, p, c1, c2);
      var a := RunE(s.subject, BARE, o, p, f);
      assert RunA(s.cases, BARE, o, a.pos, f) == Ran(t2, a.pos + |c2|, Fell);
    }
  }

  lemma StepDef(s: Stmt, c1: seq<nat>, t1: seq<string>, c2: seq<nat>, t2: seq<string>)
    requires s.Def? && GoesEs(s.header, c1, t1) && GoesEs(s.annotations, c2, t2)
    ensures GoesS(s, c1 + c2, t1 + t2, Fell)
  {
    forall o: Oracle, p: nat, f: nat | f >= FuelS(s) && Follows(o, p, c1 + c2)
      ensures RunS(s, BARE, o, p, f) == Ran(t1 + t2, p + |c1 + c2|, Fell)
    {
      FollowsSplit(o, p, c1, c2);
      var a := RunEs(s.header, BARE, o, p, f);
      assert RunEs(s.annotations, BARE, o, a.pos, f) == Ran(t2, a.pos + |c2|, Fell);
    }
  }

  lemma StepClass(s: Stmt, c1: seq<nat>, t1: seq<string>, c2: seq<nat>, t2: seq<string>)
    requires s.Class? && GoesEs(s.header, c1, t1) && GoesB(s.body, c2, t2, Fell)
    ensures GoesS(s, c1 + c2, t1 + t2, Fell)
  {
    forall o: Oracle, p: nat, f: nat | f >= FuelS(s) && Follows(o, p, c1 + c2)
      ensures RunS(s, BARE, o, p, f) == Ran(t1 + t2, p + |c1 + c2|, Fell)
    {
      FollowsSplit(o, p, c1, c2);
      var a := RunEs(s.header, BARE, o, p, f);
      assert RunB(s.body, BARE, o, a.pos, f) == Ran(t2, a.pos + |c2|, Fell);
    }
  }

  lemma StepArm(a: Arms, c1: seq<nat>, t1: seq<string>, c2: seq<nat>, t2: seq<string>)
    requires a.Arm? && GoesE(a.test, c1, t1) && GoesA(a.rest, c2, t2)
    ensures GoesA(a, c1 + ([0] + c2), t1 + t2)
  {
    var c := c1 + ([0] + c2);
    forall o: Oracle, p: nat, f: nat | f >= 1 && Follows(o, p, c)
      ensures RunA(a, BARE, o, p, f) == Ran(t1 + t2, p + |c|, Fell)
    {
      FollowsSplit(o, p, c1, [0] + c2);
      var x := RunE(a.test, BARE, o, p, f);
      FollowsSplit(o, x.pos, [0], c2);
      assert RunA(a.rest, BARE, o, x.pos + 1, f) == Ran(t2, x.pos + 1 + |c2|, Fell);
    }
  }

  /** A statement and, if control falls through it, the rest of its block. */
  lemma StepSeq(b: Block, c1: seq<nat>, t1: seq<string>, h1: How, c2: seq<nat>, t2: seq<string>, h: How)
    requires b.Seq? && GoesS(b.first, c1, t1, h1)
    requires if h1 == Fell then GoesB(b.rest, c2, t2, h) else c2 == [] && t2 == [] && h == h1
    ensures GoesB(b, c1 + c2, t1 + t2, h)
  {
    forall o: Oracle, p: nat, f: nat | f >= FuelB(b) && Follows(o, p, c1 + c2)
      ensures RunB(b, BARE, o, p, f) == Ran(t1 + t2, p + |c1 + c2|, h)
    {
      FollowsSplit(o, p, c1, c2);
      var a := RunS(b.first, BARE, o, p, f);
      assert a == Ran(t1, p + |c1|, h1);
      assert t1 + [] == t1;
    }
  }

  // -- every legal block has a run --

  lemma {:induction false} PlaysS(s: Stmt, loop: bool, fun: bool) returns (c: seq<nat>, t: seq<string>, h: How)
    requires LegalS(s, loop, fun)
    ensures GoesS(s, c, t, h) && LegalHow(h, loop, fun)
    decreases s, 1
  {
    match s
    case Simple(es) => c, t := PlaysEs(es); h := Fell;
    case Return(v) => c, t := PlaysE(v); h := Returned;
    case Break => c, t, h := [], [], Broke;
    case Continue => c, t, h := [], [], Continued;
    case If(test, b, _) =>
      var c1, t1 := PlaysE(test);
      var c2, t2, h2 := PlaysB(b, loop, fun);
      StepIf(s, c1, t1, c2, t2, h2);
      c, t, h := c1 + ([0] + c2), t1 + t2, h2;
    case For(i, _, _, e) =>
      var c1, t1 := PlaysE(i);
      var c2, t2, h2 := PlaysB(e, loop, fun);
      LoopNone(s, c2, t2, h2);
      StepFor(s, c1, t1, [0] + c2, t2, h2);
      c, t, h := c1 + ([0] + c2), t1 + t2, h2;
    case While(test, _, e) =>
      var c1, t1 := PlaysE(test);
      var c2, t2, h2 := PlaysB(e, loop, fun);
      StepWhile(s, c1, t1, c2, t2, h2);
      c, t, h := c1 + ([0] + c2), t1 + t2, h2;
    case Try(_, _, _, _) => c, t, h := PlaysTry(s, loop, fun);
    case With(es, _, b) =>
      var c1, t1 := PlaysEs(es);
      var c2, t2, h2 := PlaysB(b, loop, fun);
      c := WholeWith(s, c1, t1, c2, t2, h2);
      t, h := t1 + t2, h2;
    case Match(e, cs) =>
      var c1, t1 := PlaysE(e);
      var c2, t2 := PlaysA(cs);
      StepMatch(s, c1, t1, c2, t2);
      c, t, h := c1 + c2, t1 + t2, Fell;
    case Def(_, _, hd, ann, _) =>
      var c1, t1 := PlaysEs(hd);
      var c2, t2 := PlaysEs(ann);
      StepDef(s, c1, t1, c2, t2);
      c, t, h := c1 + c2, t1 + t2, Fell;
    case Class(hd, b) =>
      var c1, t1 := PlaysEs(hd);
      var c2, t2, h2 := PlaysB(b, false, false);
      StepClass(s, c1, t1, c2, t2);
      c, t, h := c1 + c2, t1 + t2, Fell;
  }

  lemma {:induction false} PlaysTry(s: Stmt, loop: bool, fun: bool) returns (c: seq<nat>, t: seq<string>, h: How)
    requires s.Try? && LegalS(s, loop, fun)
    ensures GoesS(s, c, t, h) && LegalHow(h, loop, fun)
    decreases s, 0
  {
    var c1, t1, h1 := PlaysB(s.body, loop, fun);
    if h1 == Fell {
      var c2, t2, h2 := PlaysB(s.orelse, loop, fun);
      MiddleFalls(s, c1, t1, c2, t2, h2);
      c1, t1, h1 := [0] + (c1 + c2), t1 + t2, h2;
    } else {
      MiddleLeaves(s, c1, t1, h1);
      c1 := [0] + c1;
    }
    var c3, t3, h3 := PlaysB(s.finalbody, loop, fun);
    StepTry(s, c1, t1, h1, c3, t3, h3);
    c, t, h := c1 + c3, t1 + t3, if h3 != Fell then h3 else h1;
  }

  lemma {:induction false} PlaysB(b: Block, loop: bool, fun: bool) returns (c: seq<nat>, t: seq<string>, h: How)
    requires LegalB(b, loop, fun)
    ensures GoesB(b, c, t, h) && LegalHow(h, loop, fun)
    decreases b, 1
  {
    c, t, h := [], [], Fell;
    if b.Seq? {
      var c1, t1, h1 := PlaysS(b.first, loop, fun);
      if h1 == Fell {
        var c2, t2, h2 := PlaysB(b.rest, loop, fun);
        StepSeq(b, c1, t1, h1, c2, t2, h2);
        c, t, h := c1 + c2, t1 + t2, h2;
      } else {
        StepSeq(b, c1, t1, h1, [], [], h1);
        c, t, h := c1 + [], t1 + [], h1;
      }
    }
  }

  lemma {:induction false} PlaysA(a: Arms) returns (c: seq<nat>, t: seq<string>)
    ensures GoesA(a, c, t)
    decreases a
  {
    c, t := [], [];
    if a.Arm? {
      var c1, t1 := PlaysE(a.test);
      var c2, t2 := PlaysA(a.rest);
      StepArm(a, c1, t1, c2, t2);
      c, t := c1 + ([0] + c2), t1 + t2;
    }
  }

  // -- what is known of a run without looking into it --

  function Choosing(c: seq<nat>): Oracle {
    (i: nat) => if i < |c| then c[i] else 0
  }

  lemma QuietRun(b: Block, c: seq<nat>, t: seq<string>, h: How)
    requires GoesB(b, c, t, h) && QuietB(b)
    ensures t == []
  {
    assert Follows(Choosing(c), 0, c);
    SilentB(b, BARE, Choosing(c), 0, FuelB(b));
  }

  lemma StayingRun(s: Stmt, c: seq<nat>, t: seq<string>, h: How)
    requires GoesS(s, c, t, h) && !HasReturn(s)
    ensures h != Returned
  {
    assert Follows(Choosing(c), 0, c);
    StaysS(s, BARE, Choosing(c), 0, FuelS(s));
  }

  lemma {:induction false} QuietStillB(b: Block)
    requires QuietB(b)
    ensures StillB(b)
  {
    if b.Seq? {
      QuietStillS(b.first);
      QuietStillB(b.rest);
    }
  }

  lemma {:induction false} QuietStillS(s: Stmt)
    requires QuietS(s)
    ensures StillS(s)
  {
    if s.With? { QuietStillB(s.body); }
  }

  lemma {:induction false} QuietSteadyB(b: Block)
    requires QuietB(b)
    ensures SteadyB(b)
  {
    if b.Seq? {
      QuietSteadyS(b.first);
      QuietSteadyB(b.rest);
    }
  }

  lemma {:induction false} QuietSteadyS(s: Stmt)
    requires QuietS(s)
    ensures SteadyS(s)
  {
    match s
    case Simple(es) => QuietPlainEs(es);
    case Return(v) => QuietPlainE(v);
    case If(t, _, _) => QuietPlainE(t);
    case For(i, _, _, _) => QuietPlainE(i);
    case With(es, _, b) => QuietPlainEs(es); QuietSteadyB(b); QuietStillB(b);
    case Match(e, _) => QuietPlainE(e);
    case Def(_, _, h, a, _) => QuietPlainEs(h); QuietPlainEs(a);
    case Class(h, _) => QuietPlainEs(h);
    case _ =>
  }

  // -- an accepted block with a missed hook has two complete runs that differ --

  predicate Done(h: How) {
    h == Fell || h == Returned
  }

  lemma {:induction false} MissS(s: Stmt)
    returns (c: seq<nat>, t: seq<string>, h: How, c': seq<nat>, t': seq<string>, h': How)
    requires LintS(s, OWNER).findings == [] && UnseenS(s, OWNER) == [] && LegalS(s, false, true) && !SteadyS(s)
    ensures GoesS(s, c, t, h) && GoesS(s, c', t', h') && |t| < |t'| && Done(h) && Done(h')
    decreases s, 1
  {
    match s
    case Simple(es) =>
      c, t, c', t' := MissEs(es);
      h, h' := Fell, Fell;
    case Return(v) =>
      c, t, c', t' := MissE(v);
      h, h' := Returned, Returned;
    case If(test, b, _) =>
      var c1, t1, c1', t1' := MissE(test);
      var c2, t2, h2 := PlaysB(b, false, true);
      StepIf(s, c1, t1, c2, t2, h2);
      StepIf(s, c1', t1', c2, t2, h2);
      c, t, h, c', t', h' := c1 + ([0] + c2), t1 + t2, h2, c1' + ([0] + c2), t1' + t2, h2;
    case For(_, _, _, _) => c, t, h, c', t', h' := MissFor(s);
    case With(es, _, b) => c, t, h, c', t', h' := MissWith(s);
    case Match(e, cs) =>
      var c1, t1, c1', t1' := MissE(e);
      var c2, t2 := PlaysA(cs);
      StepMatch(s, c1, t1, c2, t2);
      StepMatch(s, c1', t1', c2, t2);
      c, t, h, c', t', h' := c1 + c2, t1 + t2, Fell, c1' + c2, t1' + t2, Fell;
    case Def(_, _, hd, ann, _) =>
      if !PlainEs(hd) {
        var c1, t1, c1', t1' := MissEs(hd);
        var c2, t2 := PlaysEs(ann);
        StepDef(s, c1, t1, c2, t2);
        StepDef(s, c1', t1', c2, t2);
        c, t, h, c', t', h' := c1 + c2, t1 + t2, Fell, c1' + c2, t1' + t2, Fell;
      } else {
        var c1, t1 := PlaysEs(hd);
        var c2, t2, c2', t2' := MissEs(ann);
        StepDef(s, c1, t1, c2, t2);
        StepDef(s, c1, t1, c2', t2');
        c, t, h, c', t', h' := c1 + c2, t1 + t2, Fell, c1 + c2', t1 + t2', Fell;
      }
    case Class(hd, b) =>
      var c1, t1, c1', t1' := MissEs(hd);
      var c2, t2, h2 := PlaysB(b, false, false);
      StepClass(s, c1, t1, c2, t2);
      StepClass(s, c1', t1', c2, t2);
      c, t, h, c', t', h' := c1 + c2, t1 + t2, Fell, c1' + c2, t1' + t2, Fell;
  }

  /** No iteration, against one iteration that evaluates the target. */
  lemma {:induction false} MissFor(s: Stmt)
    returns (c: seq<nat>, t: seq<string>, h: How, c': seq<nat>, t': seq<string>, h': How)
    requires s.For? && LintS(s, OWNER).findings == [] && UnseenS(s, OWNER) == [] && LegalS(s, false, true) && !SteadyS(s)
    ensures GoesS(s, c, t, h) && GoesS(s, c', t', h') && |t| < |t'| && Done(h) && Done(h')
    decreases s, 0
  {
    var c2, t2, h2 := PlaysB(s.orelse, false, true);
    LoopNone(s, c2, t2, h2);
    if !PlainE(s.iter) {
      var c1, t1, c1', t1' := MissE(s.iter);
      StepFor(s, c1, t1, [0] + c2, t2, h2);
      StepFor(s, c1', t1', [0] + c2, t2, h2);
      c, t, h, c', t', h' := c1 + ([0] + c2), t1 + t2, h2, c1' + ([0] + c2), t1' + t2, h2;
    } else {
      var u := Under(OWNER, InFor);
      MutedQuietB(s.body, u);
      MutedQuietB(s.orelse, u.(early := LintB(s.body, u).early));
      QuietRun(s.orelse, c2, t2, h2);
      var c1, t1 := PlaysE(s.iter);
      StepFor(s, c1, t1, [0] + c2, t2, h2);
      c, t, h := c1 + ([0] + c2), t1 + t2, h2;
      var c3, t3 := LoudE(s.target);
      var c4, t4, h4 := PlaysB(s.body, true, true);
      if h4 == Broke || h4 == Returned {
        LoopEnds(s, c3, t3, c4, t4, h4);
        h' := if h4 == Broke then Fell else Returned;
        StepFor(s, c1, t1, [1] + (c3 + c4), t3 + t4, h');
        c', t' := c1 + ([1] + (c3 + c4)), t1 + (t3 + t4);
      } else {
        LoopOnce(s, c3, t3, c4, t4, h4, c2, t2, h2);
        StepFor(s, c1, t1, [1] + (c3 + (c4 + ([0] + c2))), (t3 + t4) + t2, h2);
        c', t', h' := c1 + ([1] + (c3 + (c4 + ([0] + c2)))), t1 + ((t3 + t4) + t2), h2;
      }
    }
  }

  lemma {:induction false} MissWith(s: Stmt)
    returns (c: seq<nat>, t: seq<string>, h: How, c': seq<nat>, t': seq<string>, h': How)
    requires s.With? && LintS(s, OWNER).findings == [] && UnseenS(s, OWNER) == [] && LegalS(s, false, true) && !SteadyS(s)
    ensures GoesS(s, c, t, h) && GoesS(s, c', t', h') && |t| < |t'| && Done(h) && Done(h')
    decreases s, 0
  {
    if !PlainEs(s.items) {
      var c1, t1, c1', t1' := MissEs(s.items);
      var c2, t2, h2 := PlaysB(s.body, false, true);
      c := WholeWith(s, c1, t1, c2, t2, h2);
      c' := WholeWith(s, c1', t1', c2, t2, h2);
      t, h, t', h' := t1 + t2, h2, t1' + t2, h2;
    } else if s.swallows {
      var c1, t1 := PlaysEs(s.items);
      var c2, t2, h2 := LoudB(s.body);
      StepWithCut(s, c1, t1);
      c' := WholeWith(s, c1, t1, c2, t2, h2);
      c, t, h, t', h' := c1 + [1], t1, Fell, t1 + t2, h2;
    } else {
      var c1, t1 := PlaysEs(s.items);
      var c2, t2, h2, c2', t2', h2' := MissB(s.body);
      c := WholeWith(s, c1, t1, c2, t2, h2);
      c' := WholeWith(s, c1, t1, c2', t2', h2');
      t, h, t', h' := t1 + t2, h2, t1 + t2', h2';
    }
  }

  /** An accepted statement with a hook call in its unconditional code has a run that calls a hook. */
  lemma {:induction false} LoudS(s: Stmt) returns (c: seq<nat>, t: seq<string>, h: How)
    requires LintS(s, OWNER).findings == [] && UnseenS(s, OWNER) == [] && LegalS(s, false, true) && !StillS(s)
    ensures GoesS(s, c, t, h) && t != [] && Done(h)
    decreases s, 2
  {
    if !SteadyS(s) {
      var _, _, _, c', t', h' := MissS(s);
      c, t, h := c', t', h';
    } else {
      c, t, h := LoudSteady(s);
    }
  }

  lemma {:induction false} LoudSteady(s: Stmt) returns (c: seq<nat>, t: seq<string>, h: How)
    requires LintS(s, OWNER).findings == [] && UnseenS(s, OWNER) == [] && LegalS(s, false, true)
    requires !StillS(s) && SteadyS(s)
    ensures GoesS(s, c, t, h) && t != [] && Done(h)
    decreases s, 1
  {
    h := Fell;
    if s.If? {
      c, t, h := LoudIf(s);
    } else if s.For? {
      IterClean(s);
      c, t, h := LoudFor(s);
    } else if s.With? {
      c, t, h := LoudWith(s);
    } else {
      c, t, h := LoudFlat(s);
    }
  }

  lemma LoudFlat(s: Stmt) returns (c: seq<nat>, t: seq<string>, h: How)
    requires !s.If? && !s.For? && !s.With?
    requires LintS(s, OWNER).findings == [] && UnseenS(s, OWNER) == [] && LegalS(s, false, true)
    requires !StillS(s) && SteadyS(s)
    ensures GoesS(s, c, t, h) && t != [] && Done(h)
  {
    h := Fell;
    if s.Match? {
      c, t := LoudMatch(s);
    } else if s.Def? {
      c, t := LoudDef(s);
    } else if s.Class? {
      c, t := LoudClass(s);
    } else {
      c, t, h := LoudSimple(s);
    }
  }

  lemma LoudSimple(s: Stmt) returns (c: seq<nat>, t: seq<string>, h: How)
    requires s.Simple? || s.Return?
    requires LintS(s, OWNER).findings == [] && !StillS(s)
    ensures GoesS(s, c, t, h) && t != [] && Done(h)
  {
    if s.Simple? {
      c, t := LoudEs(s.es);
      h := Fell;
    } else {
      c, t := LoudE(s.value);
      h := Returned;
    }
  }

  lemma LoudIf(s: Stmt) returns (c: seq<nat>, t: seq<string>, h: How)
    requires s.If? && LintS(s, OWNER).findings == [] && !StillS(s) && LegalS(s, false, true)
    ensures GoesS(s, c, t, h) && t != [] && Done(h)
  {
    var c1, t1 := LoudE(s.test);
    var c2, t2, h2 := PlaysB(s.body, false, true);
    StepIf(s, c1, t1, c2, t2, h2);
    c, t, h := c1 + ([0] + c2), t1 + t2, h2;
  }

  lemma LoudMatch(s: Stmt) returns (c: seq<nat>, t: seq<string>)
    requires s.Match? && LintE(s.subject, OWNER) == [] && !QuietE(s.subject)
    ensures GoesS(s, c, t, Fell) && t != []
  {
    var c1, t1 := LoudE(s.subject);
    var c2, t2 := PlaysA(s.cases);
    StepMatch(s, c1, t1, c2, t2);
    c, t := c1 + c2, t1 + t2;
  }

  lemma LoudDef(s: Stmt) returns (c: seq<nat>, t: seq<string>)
    requires s.Def? && LintEs(s.header, OWNER) == [] && LintEs(s.annotations, OWNER) == [] && SteadyS(s) && !StillS(s)
    ensures GoesS(s, c, t, Fell) && t != []
  {
    var c1, t1 := PlaysEs(s.header);
    var c2, t2 := PlaysEs(s.annotations);
    StepDef(s, c1, t1, c2, t2);
    c, t := c1 + c2, t1 + t2;
  }

  lemma LoudClass(s: Stmt) returns (c: seq<nat>, t: seq<string>)
    requires s.Class? && LintEs(s.header, OWNER) == [] && !QuietEs(s.header) && LegalS(s, false, true)
    ensures GoesS(s, c, t, Fell) && t != []
  {
    var c1, t1 := LoudEs(s.header);
    var c2, t2, h2 := PlaysB(s.body, false, false);
    StepClass(s, c1, t1, c2, t2);
    c, t := c1 + c2, t1 + t2;
  }

  /** A loop without an iteration. */
  lemma PlaysNoTurn(s: Stmt) returns (c: seq<nat>, t: seq<string>, h: How)
    requires s.For? && LegalS(s, false, true)
    ensures GoesLoop(s, c, t, h) && Done(h)
  {
    var c2, t2, h2 := PlaysB(s.orelse, false, true);
    LoopNone(s, c2, t2, h2);
    c, t, h := [0] + c2, t2, h2;
  }

  lemma IterClean(s: Stmt)
    requires s.For? && LintS(s, OWNER).findings == []
    ensures LintE(s.iter, OWNER) == []
  {
    var rest := LintE(s.target, OWNER);
    assert |LintS(s, OWNER).findings| >= |LintE(s.iter, OWNER) + rest| >= |LintE(s.iter, OWNER)|;
  }

  lemma LoudFor(s: Stmt) returns (c: seq<nat>, t: seq<string>, h: How)
    requires s.For? && LintE(s.iter, OWNER) == [] && !QuietE(s.iter) && LegalS(s, false, true)
    ensures GoesS(s, c, t, h) && t != [] && Done(h)
  {
    var c1, t1 := LoudE(s.iter);
    var c2, t2, h2 := PlaysNoTurn(s);
    StepFor(s, c1, t1, c2, t2, h2);
    c, t, h := c1 + c2, t1 + t2, h2;
    assert |t| >= |t1|;
  }

  lemma {:induction false} LoudWith(s: Stmt) returns (c: seq<nat>, t: seq<string>, h: How)
    requires s.With? && LintS(s, OWNER).findings == [] && UnseenS(s, OWNER) == [] && LegalS(s, false, true)
    requires !StillS(s) && SteadyS(s)
    ensures GoesS(s, c, t, h) && t != [] && Done(h)
    decreases s, 0
  {
    var c1, t1 := PlaysEs(s.items);
    var c2, t2, h2;
    if StillB(s.body) {
      c2, t2, h2 := PlaysB(s.body, false, true);
    } else {
      c2, t2, h2 := LoudB(s.body);
    }
    c := WholeWith(s, c1, t1, c2, t2, h2);
    t, h := t1 + t2, h2;
  }

  lemma {:induction false} LoudB(b: Block) returns (c: seq<nat>, t: seq<string>, h: How)
    requires LintB(b, OWNER).findings == [] && UnseenB(b, OWNER) == [] && LegalB(b, false, true) && !StillB(b)
    ensures GoesB(b, c, t, h) && t != [] && Done(h)
    decreases b, 2
  {
    var s, next := b.first, OWNER.(early := EarlyAfter(b.first, OWNER));
    if next.early {
      MutedQuietB(b.rest, next);
      QuietStillB(b.rest);
    }
    if !StillS(s) {
      var c1, t1, h1 := LoudS(s);
      if h1 == Returned {
        StepSeq(b, c1, t1, h1, [], [], h1);
        c, t, h := c1 + [], t1 + [], h1;
      } else {
        var c2, t2, h2 := PlaysB(b.rest, false, true);
        c, h := GoOn(b, c1, t1, h1, c2, t2, h2);
        t := t1 + t2;
      }
    } else {
      var c1, t1, h1 := PlaysS(s, false, true);
      StayingRun(s, c1, t1, h1);
      var c2, t2, h2 := LoudB(b.rest);
      c, h := GoOn(b, c1, t1, h1, c2, t2, h2);
      t := t1 + t2;
    }
  }

  /** The rest of a block after one of its statements: a run that falls through goes on, and one that returned is over. */
  lemma {:induction false} GoOn(b: Block, c1: seq<nat>, t1: seq<string>, h1: How, c2: seq<nat>, t2: seq<string>, h2: How)
    returns (c: seq<nat>, h: How)
    requires b.Seq? && GoesS(b.first, c1, t1, h1) && Done(h1) && GoesB(b.rest, c2, t2, h2) && Done(h2)
    requires h1 == Returned ==> t2 == []
    ensures GoesB(b, c, t1 + t2, h) && Done(h)
  {
    if h1 == Fell {
      StepSeq(b, c1, t1, h1, c2, t2, h2);
      c, h := c1 + c2, h2;
    } else {
      StepSeq(b, c1, t1, h1, [], [], h1);
      c, h := c1 + [], h1;
    }
  }

  lemma {:induction false} MissB(b: Block)
    returns (c: seq<nat>, t: seq<string>, h: How, c': seq<nat>, t': seq<string>, h': How)
    requires LintB(b, OWNER).findings == [] && UnseenB(b, OWNER) == [] && LegalB(b, false, true) && !SteadyB(b)
    ensures GoesB(b, c, t, h) && GoesB(b, c', t', h') && |t| < |t'| && Done(h) && Done(h')
    decreases b, 1
  {
    var s, next := b.first, OWNER.(early := EarlyAfter(b.first, OWNER));
    if next.early {
      MutedQuietB(b.rest, next);
      QuietSteadyB(b.rest);
    }
    if !SteadyS(s) {
      var c1, t1, h1, c1', t1', h1' := MissS(s);
      if s.Return? {
        c, t, h, c', t', h' := MissReturn(b, c1, t1, h1, c1', t1', h1');
      } else {
        var c2, t2, h2 := PlaysB(b.rest, false, true);
        if next.early {
          QuietRun(b.rest, c2, t2, h2);
        } else {
          StayingRun(s, c1, t1, h1);
          StayingRun(s, c1', t1', h1');
        }
        c, h := GoOn(b, c1, t1, h1, c2, t2, h2);
        c', h' := GoOn(b, c1', t1', h1', c2, t2, h2);
        t, t' := t1 + t2, t1' + t2;
      }
    } else {
      var c1, t1, h1 := PlaysS(s, false, true);
      StayingRun(s, c1, t1, h1);
      var c2, t2, h2, c2', t2', h2' := MissB(b.rest);
      c, h := GoOn(b, c1, t1, h1, c2, t2, h2);
      c', h' := GoOn(b, c1, t1, h1, c2', t2', h2');
      t, t' := t1 + t2, t1 + t2';
    }
  }

  lemma MissReturn(b: Block, c1: seq<nat>, t1: seq<string>, h1: How, c1': seq<nat>, t1': seq<string>, h1': How)
    returns (c: seq<nat>, t: seq<string>, h: How, c': seq<nat>, t': seq<string>, h': How)
    requires b.Seq? && b.first.Return? && GoesS(b.first, c1, t1, h1) && GoesS(b.first, c1', t1', h1') && |t1| < |t1'|
    ensures GoesB(b, c, t, h) && GoesB(b, c', t', h') && |t| < |t'| && Done(h) && Done(h')
  {
    assert Follows(Choosing(c1), 0, c1) && Follows(Choosing(c1'), 0, c1');
    assert RunS(b.first, BARE, Choosing(c1), 0, 1).how == Returned;
    assert RunS(b.first, BARE, Choosing(c1'), 0, 1).how == Returned;
    StepSeq(b, c1, t1, h1, [], [], h1);
    StepSeq(b, c1', t1', h1', [], [], h1');
    c, t, h, c', t', h' := c1 + [], t1 + [], h1, c1' + [], t1' + [], h1';
  }

  // -- the exact condition --

  /** Every two complete runs of a body call the same hooks. */
  ghost predicate Agrees(body: Block, w: World) {
    forall o: Oracle, p: nat, f: nat, o': Oracle, p': nat, f': nat ::
      Complete(RunB(body, w, o, p, f)) && Complete(RunB(body, w, o', p', f')) ==>
        RunB(body, w, o, p, f).trace == RunB(body, w, o', p', f').trace
  }

  /** A body in which the checker misses a hook calls more hooks on one run than on another. */
  lemma MissedDiffers(body: Block)
    requires LintB(body, OWNER).findings == [] && UnseenB(body, OWNER) == [] && LegalB(body, false, true)
    requires !SteadyB(body)
    ensures !Agrees(body, BARE)
  {
    var c, t, h, c', t', h' := MissB(body);
    assert Follows(Choosing(c), 0, c) && Follows(Choosing(c'), 0, c');
    var r, r' := RunB(body, BARE, Choosing(c), 0, FuelB(body)), RunB(body, BARE, Choosing(c'), 0, FuelB(body));
    assert r == Ran(t, |c|, h) && r' == Ran(t', |c'|, h');
    assert Complete(r) && Complete(r');
  }

  /** In a module without findings, annotations counted, all runs of every component and custom hook agree, whatever
      world it is linked into, exactly when no owner body has a hook in the target of a `for`, in a comparison after
      its second operand, or in a `with` that may swallow an exception. */
  lemma SoundExactlyWhen(m: Block)
    requires LintB(m, MODULE).findings == [] && UnseenB(m, MODULE) == [] && LegalB(m, false, false)
    ensures (forall w, body :: Linked(m, w) && OwnerInB(m, body) ==> Agrees(body, w)) <==> AllSteady(m)
  {
    if AllSteady(m) {
      forall w, body | Linked(m, w) && OwnerInB(m, body) ensures Agrees(body, w) {
        forall o: Oracle, p: nat, f: nat, o': Oracle, p': nat, f': nat
          | Complete(RunB(body, w, o, p, f)) && Complete(RunB(body, w, o', p', f'))
          ensures RunB(body, w, o, p, f).trace == RunB(body, w, o', p', f').trace
        {
          CheckerSound(m, w, body, o, p, f, o', p', f');
        }
      }
    } else {
      var body :| OwnerInB(m, body) && !SteadyB(body);
      OwnersCleanB(m, MODULE, body);
      OwnersLegalB(m, false, false, body);
      assert Linked(m, BARE);
      MissedDiffers(body);
    }
  }

  lemma {:induction false} OwnersLegalS(s: Stmt, loop: bool, fun: bool, x: Block)
    requires LegalS(s, loop, fun) && OwnerInS(s, x)
    ensures LegalB(x, false, true)
  {
    match s
    case If(_, b, e) => if OwnerInB(b, x) { OwnersLegalB(b, loop, fun, x); } else { OwnersLegalB(e, loop, fun, x); }
    case For(_, _, b, e) => if OwnerInB(b, x) { OwnersLegalB(b, true, fun, x); } else { OwnersLegalB(e, loop, fun, x); }
    case While(_, b, e) => if OwnerInB(b, x) { OwnersLegalB(b, true, fun, x); } else { OwnersLegalB(e, loop, fun, x); }
    case Try(b, h, e, f) =>
      if OwnerInB(b, x) { OwnersLegalB(b, loop, fun, x); }
      else if OwnerInA(h, x) { OwnersLegalA(h, loop, fun, x); }
      else if OwnerInB(e, x) { OwnersLegalB(e, loop, fun, x); }
      else { OwnersLegalB(f, loop, fun, x); }
    case With(_, _, b) => OwnersLegalB(b, loop, fun, x);
    case Match(_, cs) => OwnersLegalA(cs, loop, fun, x);
    case Def(_, _, _, _, b) => if OwnerInB(b, x) { OwnersLegalB(b, false, true, x); }
    case Class(_, b) => OwnersLegalB(b, false, false, x);
    case _ =>
  }

  lemma {:induction false} OwnersLegalB(b: Block, loop: bool, fun: bool, x: Block)
    requires LegalB(b, loop, fun) && OwnerInB(b, x)
    ensures LegalB(x, false, true)
  {
    if OwnerInS(b.first, x) { OwnersLegalS(b.first, loop, fun, x); } else { OwnersLegalB(b.rest, loop, fun, x); }
  }

  lemma {:induction false} OwnersLegalA(a: Arms, loop: bool, fun: bool, x: Block)
    requires LegalA(a, loop, fun) && OwnerInA(a, x)
    ensures LegalB(x, false, true)
  {
    if OwnerInB(a.body, x) { OwnersLegalB(a.body, loop, fun, x); } else { OwnersLegalA(a.rest, loop, fun, x); }
  }
}
