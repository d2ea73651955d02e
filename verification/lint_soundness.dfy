/** Soundness of the checker: code without findings calls the same hooks on every complete run. */
module LintSoundness {
  import opened PySyntax
  import opened LintRules
  import opened PyRuns

  predicate QuietC(c: Closure) {
    match c
    case LambdaBody(e) => QuietE(e)
    case FunctionBody(b) => QuietB(b)
  }

  /** A component or custom hook body the checker accepts, annotations included, and does not miss a hook in. */
  predicate CleanBody(b: Block) {
    LintB(b, OWNER).findings == [] && UnseenB(b, OWNER) == [] && SteadyB(b)
  }

  ghost predicate CleanWorld(w: World) {
    && (forall n <- w.hooks :: CleanBody(w.hooks[n]))
    && (forall i :: 0 <= i < |w.pool| ==> QuietC(w.pool[i]))
  }

  // -- code without hook calls calls no hooks, whatever callbacks it runs --

  lemma {:induction false} SilentE(e: Expr, w: World, o: Oracle, p: nat, fuel: nat)
    requires CleanWorld(w) && QuietE(e)
    ensures var r := RunE(e, w, o, p, fuel); r.Ran? ==> r.trace == []
    decreases fuel, e
  {
    match e
    case Atom =>
    case Parts(es) => SilentEs(es, w, o, p, fuel);
    case Call(n, args) =>
      SilentEs(args, w, o, p, fuel);
      var a := RunEs(args, w, o, p, fuel);
      if a.Ran? && fuel > 0 { SilentCallbacks(w, o, a.pos, fuel - 1); }
    case Compare(l, s, m) =>
      SilentE(l, w, o, p, fuel);
      var a := RunE(l, w, o, p, fuel);
      if a.Ran? {
        SilentE(s, w, o, a.pos, fuel);
        var b := RunE(s, w, o, a.pos, fuel);
        if b.Ran? { SilentUpTo(m, o(b.pos), w, o, b.pos + 1, fuel); }
      }
    case BoolOp(_, f, r) =>
      SilentE(f, w, o, p, fuel);
      var a := RunE(f, w, o, p, fuel);
      if a.Ran? { SilentUpTo(r, o(a.pos), w, o, a.pos + 1, fuel); }
    case IfExp(t, b, els) =>
      SilentE(t, w, o, p, fuel);
      var a := RunE(t, w, o, p, fuel);
      if a.Ran? { SilentE(if o(a.pos) == 0 then b else els, w, o, a.pos + 1, fuel); }
    case Lambda(d, _) => SilentEs(d, w, o, p, fuel);
    case Comprehension(i, inner) =>
      SilentE(i, w, o, p, fuel);
      var a := RunE(i, w, o, p, fuel);
      if a.Ran? && fuel > 0 { SilentPicks(inner, w, o, a.pos, fuel - 1); }
  }

  lemma {:induction false} SilentEs(es: Exprs, w: World, o: Oracle, p: nat, fuel: nat)
    requires CleanWorld(w) && QuietEs(es)
    ensures var r := RunEs(es, w, o, p, fuel); r.Ran? ==> r.trace == []
    decreases fuel, es
  {
    if es.ConsE? {
      SilentE(es.head, w, o, p, fuel);
      var a := RunE(es.head, w, o, p, fuel);
      if a.Ran? { SilentEs(es.tail, w, o, a.pos, fuel); }
    }
  }

  lemma {:induction false} SilentUpTo(es: Exprs, k: nat, w: World, o: Oracle, p: nat, fuel: nat)
    requires CleanWorld(w) && QuietEs(es)
    ensures var r := RunUpTo(es, k, w, o, p, fuel); r.Ran? ==> r.trace == []
    decreases fuel, es
  {
    if es.ConsE? && k > 0 {
      SilentE(es.head, w, o, p, fuel);
      var a := RunE(es.head, w, o, p, fuel);
      if a.Ran? { SilentUpTo(es.tail, k - 1, w, o, a.pos, fuel); }
    }
  }

  lemma {:induction false} SilentNth(es: Exprs, k: nat, w: World, o: Oracle, p: nat, fuel: nat)
    requires CleanWorld(w) && QuietEs(es)
    ensures var r := RunNth(es, k, w, o, p, fuel); r.Ran? ==> r.trace == []
    decreases fuel, es
  {
    if es.ConsE? {
      if k == 0 { SilentE(es.head, w, o, p, fuel); } else { SilentNth(es.tail, k - 1, w, o, p, fuel); }
    }
  }

  lemma {:induction false} SilentPicks(es: Exprs, w: World, o: Oracle, p: nat, fuel: nat)
    requires CleanWorld(w) && QuietEs(es)
    ensures var r := RunPicks(es, w, o, p, fuel); r.Ran? ==> r.trace == []
    decreases fuel
  {
    if o(p) != 0 && fuel > 0 {
      SilentNth(es, o(p) - 1, w, o, p + 1, fuel - 1);
      var a := RunNth(es, o(p) - 1, w, o, p + 1, fuel - 1);
      if a.Ran? { SilentPicks(es, w, o, a.pos, fuel - 1); }
    }
  }

  lemma {:induction false} SilentCallbacks(w: World, o: Oracle, p: nat, fuel: nat)
    requires CleanWorld(w)
    ensures var r := Callbacks(w, o, p, fuel); r.Ran? ==> r.trace == []
    decreases fuel
  {
    if 0 < o(p) <= |w.pool| && fuel > 0 {
      var c := w.pool[o(p) - 1];
      match c {
        case LambdaBody(e) => SilentE(e, w, o, p + 1, fuel - 1);
        case FunctionBody(b) => SilentB(b, w, o, p + 1, fuel - 1);
      }
      var r := RunClosure(c, w, o, p + 1, fuel - 1);
      if Complete(r) { SilentCallbacks(w, o, r.pos, fuel - 1); }
    }
  }

  lemma {:induction false} SilentS(s: Stmt, w: World, o: Oracle, p: nat, fuel: nat)
    requires CleanWorld(w) && QuietS(s)
    ensures var r := RunS(s, w, o, p, fuel); r.Ran? ==> r.trace == []
    decreases fuel, s
  {
    match s
    case Simple(es) => SilentEs(es, w, o, p, fuel);
    case Return(v) => SilentE(v, w, o, p, fuel);
    case Break =>
    case Continue =>
    case If(t, b, e) =>
      SilentE(t, w, o, p, fuel);
      var a := RunE(t, w, o, p, fuel);
      if a.Ran? { SilentB(if o(a.pos) == 0 then b else e, w, o, a.pos + 1, fuel); }
    case For(i, t, b, e) =>
      SilentE(i, w, o, p, fuel);
      var a := RunE(i, w, o, p, fuel);
      if a.Ran? && fuel > 0 { SilentFor(t, b, e, w, o, a.pos, fuel - 1); }
    case While(t, b, e) =>
      if fuel > 0 { SilentWhile(s, w, o, p, fuel - 1); }
    case Try(_, _, _, _) => SilentTry(s, w, o, p, fuel);
    case With(es, _, b) =>
      SilentEs(es, w, o, p, fuel);
      var a := RunEs(es, w, o, p, fuel);
      if a.Ran? { SilentB(b, w, o, a.pos, fuel); SilentFirst(b, o(a.pos), w, o, a.pos + 1, fuel); }
    case Match(e, cs) =>
      SilentE(e, w, o, p, fuel);
      var a := RunE(e, w, o, p, fuel);
      if a.Ran? { SilentA(cs, w, o, a.pos, fuel); }
    case Def(_, _, h, ann, _) =>
      SilentEs(h, w, o, p, fuel);
      var a := RunEs(h, w, o, p, fuel);
      if a.Ran? { SilentEs(ann, w, o, a.pos, fuel); }
    case Class(h, b) =>
      SilentEs(h, w, o, p, fuel);
      var a := RunEs(h, w, o, p, fuel);
      if a.Ran? { SilentB(b, w, o, a.pos, fuel); }
  }

  lemma {:induction false} SilentTry(s: Stmt, w: World, o: Oracle, p: nat, fuel: nat)
    requires s.Try? && CleanWorld(w) && QuietS(s)
    ensures var r := RunS(s, w, o, p, fuel); r.Ran? ==> r.trace == []
    decreases fuel, s, 0
  {
    SilentFirst(s.body, o(p), w, o, p + 1, fuel);
    var a := RunFirst(s.body, o(p), w, o, p + 1, fuel);
    if a.Ran? {
      SilentB(s.orelse, w, o, a.pos, fuel);
      SilentA(s.handlers, w, o, a.pos, fuel);
      var m := if a.how != Fell then a
               else if o(p) == 0 then After(a.trace, RunB(s.orelse, w, o, a.pos, fuel))
               else After(a.trace, RunA(s.handlers, w, o, a.pos, fuel));
      if m.Ran? { SilentB(s.finalbody, w, o, m.pos, fuel); }
    }
  }

  lemma {:induction false} SilentB(b: Block, w: World, o: Oracle, p: nat, fuel: nat)
    requires CleanWorld(w) && QuietB(b)
    ensures var r := RunB(b, w, o, p, fuel); r.Ran? ==> r.trace == []
    decreases fuel, b
  {
    if b.Seq? {
      SilentS(b.first, w, o, p, fuel);
      var a := RunS(b.first, w, o, p, fuel);
      if a.Ran? { SilentB(b.rest, w, o, a.pos, fuel); }
    }
  }

  lemma {:induction false} SilentFirst(b: Block, cut: nat, w: World, o: Oracle, p: nat, fuel: nat)
    requires CleanWorld(w) && QuietB(b)
    ensures var r := RunFirst(b, cut, w, o, p, fuel); r.Ran? ==> r.trace == []
    decreases fuel, b
  {
    if b.Seq? && cut != 1 {
      SilentS(b.first, w, o, p, fuel);
      var a := RunS(b.first, w, o, p, fuel);
      if a.Ran? { SilentFirst(b.rest, if cut == 0 then 0 else cut - 1, w, o, a.pos, fuel); }
    }
  }

  lemma {:induction false} SilentA(arms: Arms, w: World, o: Oracle, p: nat, fuel: nat)
    requires CleanWorld(w) && QuietA(arms)
    ensures var r := RunA(arms, w, o, p, fuel); r.Ran? ==> r.trace == []
    decreases fuel, arms
  {
    if arms.Arm? {
      SilentE(arms.test, w, o, p, fuel);
      var a := RunE(arms.test, w, o, p, fuel);
      if a.Ran? {
        SilentA(arms.rest, w, o, a.pos + 1, fuel);
        SilentB(arms.body, w, o, a.pos + 1, fuel);
      }
    }
  }

  lemma {:induction false} SilentFor(t: Expr, b: Block, e: Block, w: World, o: Oracle, p: nat, fuel: nat)
    requires CleanWorld(w) && QuietE(t) && QuietB(b) && QuietB(e)
    ensures var r := ForLoop(t, b, e, w, o, p, fuel); r.Ran? ==> r.trace == []
    decreases fuel
  {
    if o(p) == 0 {
      SilentB(e, w, o, p + 1, fuel);
    } else if fuel > 0 {
      SilentE(t, w, o, p + 1, fuel - 1);
      var a := RunE(t, w, o, p + 1, fuel - 1);
      if a.Ran? {
        SilentB(b, w, o, a.pos, fuel - 1);
        var r := RunB(b, w, o, a.pos, fuel - 1);
        if r.Ran? { SilentFor(t, b, e, w, o, r.pos, fuel - 1); }
      }
    }
  }

  lemma {:induction false} SilentWhile(s: Stmt, w: World, o: Oracle, p: nat, fuel: nat)
    requires CleanWorld(w) && s.While? && QuietS(s)
    ensures var r := WhileLoop(s.test, s.body, s.orelse, w, o, p, fuel); r.Ran? ==> r.trace == []
    decreases fuel
  {
    if fuel > 0 {
      SilentE(s.test, w, o, p, fuel - 1);
      var a := RunE(s.test, w, o, p, fuel - 1);
      if a.Ran? {
        SilentB(s.orelse, w, o, a.pos + 1, fuel - 1);
        SilentB(s.body, w, o, a.pos + 1, fuel - 1);
        var r := RunB(s.body, w, o, a.pos + 1, fuel - 1);
        if r.Ran? { SilentWhile(s, w, o, r.pos, fuel - 1); }
      }
    }
  }

  // -- nor does an accepted body whose unconditional code calls none, wherever an exception cuts it --

  lemma {:induction false} RunAllStatements(b: Block, w: World, o: Oracle, p: nat, f: nat)
    ensures RunFirst(b, 0, w, o, p, f) == RunB(b, w, o, p, f)
    decreases b
  {
    if b.Seq? {
      var a := RunS(b.first, w, o, p, f);
      if a.Ran? { RunAllStatements(b.rest, w, o, a.pos, f); }
    }
  }

  /** All but a `with` is then free of hook calls altogether. */
  lemma StillQuiet(s: Stmt)
    requires LintS(s, OWNER).findings == [] && UnseenS(s, OWNER) == [] && StillS(s) && !s.With?
    ensures QuietS(s)
  {
    match s
    case If(_, b, e) =>
      var u := Under(OWNER, InIf);
      MutedQuietB(b, u); MutedQuietB(e, u.(early := LintB(b, u).early));
    case For(_, _, b, e) =>
      var u := Under(OWNER, InFor);
      MutedQuietB(b, u); MutedQuietB(e, u.(early := LintB(b, u).early));
    case While(t, b, e) =>
      var u := Under(OWNER, InWhile);
      MutedQuietE(t, u); MutedQuietB(b, u); MutedQuietB(e, u.(early := LintB(b, u).early));
    case Try(_, _, _, _) => MutedQuietTry(s, Under(OWNER, InTry));
    case Match(_, cs) => MutedQuietA(cs, Under(OWNER, InMatch));
    case Class(_, b) => MutedQuietB(b, Leaving(OWNER, InClass));
    case _ =>
  }

  lemma {:induction false} SilentStill(b: Block, cut: nat, w: World, o: Oracle, p: nat, fuel: nat)
    requires CleanWorld(w) && LintB(b, OWNER).findings == [] && UnseenB(b, OWNER) == [] && StillB(b)
    ensures var r := RunFirst(b, cut, w, o, p, fuel); r.Ran? ==> r.trace == []
    decreases fuel, b
  {
    if b.Seq? && cut != 1 {
      var next := OWNER.(early := EarlyAfter(b.first, OWNER));
      SilentStillS(b.first, w, o, p, fuel);
      var a := RunS(b.first, w, o, p, fuel);
      if a.Ran? && a.how == Fell {
        if next.early {
          MutedQuietB(b.rest, next);
          SilentFirst(b.rest, if cut == 0 then 0 else cut - 1, w, o, a.pos, fuel);
        } else if !b.first.Return? {
          SilentStill(b.rest, if cut == 0 then 0 else cut - 1, w, o, a.pos, fuel);
        }
      }
    }
  }

  lemma {:induction false} SilentStillS(s: Stmt, w: World, o: Oracle, p: nat, fuel: nat)
    requires CleanWorld(w) && LintS(s, OWNER).findings == [] && UnseenS(s, OWNER) == [] && StillS(s)
    ensures var r := RunS(s, w, o, p, fuel); r.Ran? ==> r.trace == []
    decreases fuel, s
  {
    if s.With? {
      SilentEs(s.items, w, o, p, fuel);
      var a := RunEs(s.items, w, o, p, fuel);
      if a.Ran? {
        SilentStill(s.body, o(a.pos), w, o, a.pos + 1, fuel);
        SilentStill(s.body, 0, w, o, a.pos, fuel);
        RunAllStatements(s.body, w, o, a.pos, fuel);
      }
    } else {
      StillQuiet(s);
      SilentS(s, w, o, p, fuel);
    }
  }

  // -- a statement in which the scope walk finds no `return` never returns --

  lemma {:induction false} ExprsFall(es: Exprs, w: World, o: Oracle, p: nat, fuel: nat)
    ensures var r := RunEs(es, w, o, p, fuel); r.Ran? ==> r.how == Fell
    decreases es
  {
    if es.ConsE? {
      var a := RunE(es.head, w, o, p, fuel);
      if a.Ran? { ExprsFall(es.tail, w, o, a.pos, fuel); }
    }
  }

  lemma {:induction false} StaysS(s: Stmt, w: World, o: Oracle, p: nat, fuel: nat)
    requires !HasReturn(s)
    ensures var r := RunS(s, w, o, p, fuel); r.Ran? ==> r.how != Returned
    decreases fuel, s
  {
    match s
    case Simple(es) => ExprsFall(es, w, o, p, fuel);
    case Return(_) =>
    case Break =>
    case Continue =>
    case If(t, b, e) =>
      var a := RunE(t, w, o, p, fuel);
      if a.Ran? { StaysB(if o(a.pos) == 0 then b else e, w, o, a.pos + 1, fuel); }
    case For(i, t, b, e) =>
      var a := RunE(i, w, o, p, fuel);
      if a.Ran? && fuel > 0 { StaysFor(t, b, e, w, o, a.pos, fuel - 1); }
    case While(t, b, e) =>
      if fuel > 0 { StaysWhile(t, b, e, w, o, p, fuel - 1); }
    case Try(b, h, e, f) =>
      StaysFirst(b, o(p), w, o, p + 1, fuel);
      var a := RunFirst(b, o(p), w, o, p + 1, fuel);
      if a.Ran? {
        StaysB(e, w, o, a.pos, fuel);
        StaysA(h, w, o, a.pos, fuel);
        var m := if a.how != Fell then a
                 else if o(p) == 0 then After(a.trace, RunB(e, w, o, a.pos, fuel))
                 else After(a.trace, RunA(h, w, o, a.pos, fuel));
        if m.Ran? { StaysB(f, w, o, m.pos, fuel); }
      }
    case With(es, _, b) =>
      var a := RunEs(es, w, o, p, fuel);
      if a.Ran? { StaysB(b, w, o, a.pos, fuel); StaysFirst(b, o(a.pos), w, o, a.pos + 1, fuel); }
    case Match(e, cs) =>
      var a := RunE(e, w, o, p, fuel);
      if a.Ran? { StaysA(cs, w, o, a.pos, fuel); }
    case Def(_, _, h, ann, _) =>
      var a := RunEs(h, w, o, p, fuel);
      if a.Ran? { ExprsFall(ann, w, o, a.pos, fuel); }
    case Class(_, _) =>
  }

  lemma {:induction false} StaysB(b: Block, w: World, o: Oracle, p: nat, fuel: nat)
    requires !HasReturnB(b)
    ensures var r := RunB(b, w, o, p, fuel); r.Ran? ==> r.how != Returned
    decreases fuel, b
  {
    if b.Seq? {
      StaysS(b.first, w, o, p, fuel);
      var a := RunS(b.first, w, o, p, fuel);
      if a.Ran? { StaysB(b.rest, w, o, a.pos, fuel); }
    }
  }

  lemma {:induction false} StaysFirst(b: Block, cut: nat, w: World, o: Oracle, p: nat, fuel: nat)
    requires !HasReturnB(b)
    ensures var r := RunFirst(b, cut, w, o, p, fuel); r.Ran? ==> r.how != Returned
    decreases fuel, b
  {
    if b.Seq? && cut != 1 {
      StaysS(b.first, w, o, p, fuel);
      var a := RunS(b.first, w, o, p, fuel);
      if a.Ran? { StaysFirst(b.rest, if cut == 0 then 0 else cut - 1, w, o, a.pos, fuel); }
    }
  }

  lemma {:induction false} StaysA(arms: Arms, w: World, o: Oracle, p: nat, fuel: nat)
    requires !HasReturnA(arms)
    ensures var r := RunA(arms, w, o, p, fuel); r.Ran? ==> r.how != Returned
    decreases fuel, arms
  {
    if arms.Arm? {
      var a := RunE(arms.test, w, o, p, fuel);
      if a.Ran? {
        StaysA(arms.rest, w, o, a.pos + 1, fuel);
        StaysB(arms.body, w, o, a.pos + 1, fuel);
      }
    }
  }

  lemma {:induction false} StaysFor(t: Expr, b: Block, e: Block, w: World, o: Oracle, p: nat, fuel: nat)
    requires !HasReturnB(b) && !HasReturnB(e)
    ensures var r := ForLoop(t, b, e, w, o, p, fuel); r.Ran? ==> r.how != Returned
    decreases fuel
  {
    if o(p) == 0 {
      StaysB(e, w, o, p + 1, fuel);
    } else if fuel > 0 {
      var a := RunE(t, w, o, p + 1, fuel - 1);
      if a.Ran? {
        StaysB(b, w, o, a.pos, fuel - 1);
        var r := RunB(b, w, o, a.pos, fuel - 1);
        if r.Ran? { StaysFor(t, b, e, w, o, r.pos, fuel - 1); }
      }
    }
  }

  lemma {:induction false} StaysWhile(t: Expr, b: Block, e: Block, w: World, o: Oracle, p: nat, fuel: nat)
    requires !HasReturnB(b) && !HasReturnB(e)
    ensures var r := WhileLoop(t, b, e, w, o, p, fuel); r.Ran? ==> r.how != Returned
    decreases fuel
  {
    if fuel > 0 {
      var a := RunE(t, w, o, p, fuel - 1);
      if a.Ran? {
        StaysB(e, w, o, a.pos + 1, fuel - 1);
        StaysB(b, w, o, a.pos + 1, fuel - 1);
        var r := RunB(b, w, o, a.pos + 1, fuel - 1);
        if r.Ran? { StaysWhile(t, b, e, w, o, r.pos, fuel - 1); }
      }
    }
  }

  // -- two runs of accepted code agree on the hooks they call --

  lemma {:induction false} SameE(e: Expr, w: World, o: Oracle, p: nat, f: nat, o': Oracle, p': nat, f': nat)
    requires CleanWorld(w) && LintE(e, OWNER) == [] && PlainE(e)
    requires RunE(e, w, o, p, f).Ran? && RunE(e, w, o', p', f').Ran?
    ensures RunE(e, w, o, p, f).trace == RunE(e, w, o', p', f').trace
    decreases f, e, 1
  {
    match e
    case Atom =>
    case Parts(es) => SameEs(es, w, o, p, f, o', p', f');
    case Call(_, _) => SameCall(e, w, o, p, f, o', p', f');
    case Compare(_, _, _) => SameCompare(e, w, o, p, f, o', p', f');
    case BoolOp(_, _, _) => SameBoolOp(e, w, o, p, f, o', p', f');
    case IfExp(_, _, _) => SameIfExp(e, w, o, p, f, o', p', f');
    case Lambda(d, _) => SameEs(d, w, o, p, f, o', p', f');
    case Comprehension(_, _) => SameComprehension(e, w, o, p, f, o', p', f');
  }

  lemma {:induction false} SameCall(e: Expr, w: World, o: Oracle, p: nat, f: nat, o': Oracle, p': nat, f': nat)
    requires CleanWorld(w) && LintE(e, OWNER) == [] && PlainE(e) && e.Call?
    requires RunE(e, w, o, p, f).Ran? && RunE(e, w, o', p', f').Ran?
    ensures RunE(e, w, o, p, f).trace == RunE(e, w, o', p', f').trace
    decreases f, e, 0
  {
    var n := e.name;
    SameEs(e.args, w, o, p, f, o', p', f');
    var a, a' := RunEs(e.args, w, o, p, f), RunEs(e.args, w, o', p', f');
    SameHook(n, w, o, a.pos, f - 1, o', a'.pos, f' - 1);
    SilentCallbacks(w, o, RunHook(n, w, o, a.pos, f - 1).pos, f - 1);
    SilentCallbacks(w, o', RunHook(n, w, o', a'.pos, f' - 1).pos, f' - 1);
  }

  lemma {:induction false} SameCompare(e: Expr, w: World, o: Oracle, p: nat, f: nat, o': Oracle, p': nat, f': nat)
    requires CleanWorld(w) && LintE(e, OWNER) == [] && PlainE(e) && e.Compare?
    requires RunE(e, w, o, p, f).Ran? && RunE(e, w, o', p', f').Ran?
    ensures RunE(e, w, o, p, f).trace == RunE(e, w, o', p', f').trace
    decreases f, e, 0
  {
    SameE(e.left, w, o, p, f, o', p', f');
    var a, a' := RunE(e.left, w, o, p, f), RunE(e.left, w, o', p', f');
    SameE(e.second, w, o, a.pos, f, o', a'.pos, f');
    var b, b' := RunE(e.second, w, o, a.pos, f), RunE(e.second, w, o', a'.pos, f');
    SilentUpTo(e.more, o(b.pos), w, o, b.pos + 1, f);
    SilentUpTo(e.more, o'(b'.pos), w, o', b'.pos + 1, f');
  }

  lemma {:induction false} SameBoolOp(e: Expr, w: World, o: Oracle, p: nat, f: nat, o': Oracle, p': nat, f': nat)
    requires CleanWorld(w) && LintE(e, OWNER) == [] && PlainE(e) && e.BoolOp?
    requires RunE(e, w, o, p, f).Ran? && RunE(e, w, o', p', f').Ran?
    ensures RunE(e, w, o, p, f).trace == RunE(e, w, o', p', f').trace
    decreases f, e, 0
  {
    SameE(e.first, w, o, p, f, o', p', f');
    MutedQuietEs(e.others, Under(OWNER, InRightSide(e.isAnd)));
    var a, a' := RunE(e.first, w, o, p, f), RunE(e.first, w, o', p', f');
    SilentUpTo(e.others, o(a.pos), w, o, a.pos + 1, f);
    SilentUpTo(e.others, o'(a'.pos), w, o', a'.pos + 1, f');
  }

  lemma {:induction false} SameIfExp(e: Expr, w: World, o: Oracle, p: nat, f: nat, o': Oracle, p': nat, f': nat)
    requires CleanWorld(w) && LintE(e, OWNER) == [] && PlainE(e) && e.IfExp?
    requires RunE(e, w, o, p, f).Ran? && RunE(e, w, o', p', f').Ran?
    ensures RunE(e, w, o, p, f).trace == RunE(e, w, o', p', f').trace
    decreases f, e, 0
  {
    SameE(e.test, w, o, p, f, o', p', f');
    MutedQuietE(e.body, Under(OWNER, InCondExpr));
    MutedQuietE(e.orelse, Under(OWNER, InCondExpr));
    var a, a' := RunE(e.test, w, o, p, f), RunE(e.test, w, o', p', f');
    SilentE(if o(a.pos) == 0 then e.body else e.orelse, w, o, a.pos + 1, f);
    SilentE(if o'(a'.pos) == 0 then e.body else e.orelse, w, o', a'.pos + 1, f');
  }

  lemma {:induction false} SameComprehension(e: Expr, w: World, o: Oracle, p: nat, f: nat, o': Oracle, p': nat, f': nat)
    requires CleanWorld(w) && LintE(e, OWNER) == [] && PlainE(e) && e.Comprehension?
    requires RunE(e, w, o, p, f).Ran? && RunE(e, w, o', p', f').Ran?
    ensures RunE(e, w, o, p, f).trace == RunE(e, w, o', p', f').trace
    decreases f, e, 0
  {
    SameE(e.iter, w, o, p, f, o', p', f');
    MutedQuietEs(e.inner, Leaving(OWNER, InComprehension));
    var a, a' := RunE(e.iter, w, o, p, f), RunE(e.iter, w, o', p', f');
    SilentPicks(e.inner, w, o, a.pos, f - 1);
    SilentPicks(e.inner, w, o', a'.pos, f' - 1);
  }

  lemma {:induction false} SameEs(es: Exprs, w: World, o: Oracle, p: nat, f: nat, o': Oracle, p': nat, f': nat)
    requires CleanWorld(w) && LintEs(es, OWNER) == [] && PlainEs(es)
    ensures var r, r' := RunEs(es, w, o, p, f), RunEs(es, w, o', p', f'); r.Ran? && r'.Ran? ==> r.trace == r'.trace
    decreases f, es
  {
    if es.ConsE? {
      var a, a' := RunE(es.head, w, o, p, f), RunE(es.head, w, o', p', f');
      if a.Ran? && a'.Ran? {
        SameE(es.head, w, o, p, f, o', p', f');
        SameEs(es.tail, w, o, a.pos, f, o', a'.pos, f');
      }
    }
  }

  lemma {:induction false} SameHook(n: string, w: World, o: Oracle, p: nat, f: nat, o': Oracle, p': nat, f': nat)
    requires CleanWorld(w)
    ensures var r, r' := RunHook(n, w, o, p, f), RunHook(n, w, o', p', f'); r.Ran? && r'.Ran? ==> r.trace == r'.trace
    decreases f
  {
    if IsHookName(n) && n in w.hooks {
      SameB(w.hooks[n], w, o, p, f, o', p', f');
    }
  }

  lemma {:induction false} SameS(s: Stmt, w: World, o: Oracle, p: nat, f: nat, o': Oracle, p': nat, f': nat)
    requires CleanWorld(w) && LintS(s, OWNER).findings == [] && UnseenS(s, OWNER) == [] && SteadyS(s)
    requires Complete(RunS(s, w, o, p, f)) && Complete(RunS(s, w, o', p', f'))
    ensures RunS(s, w, o, p, f).trace == RunS(s, w, o', p', f').trace
    decreases f, s, 1
  {
    match s
    case Simple(es) => SameEs(es, w, o, p, f, o', p', f');
    case Return(v) => SameE(v, w, o, p, f, o', p', f');
    case If(_, _, _) => SameIf(s, w, o, p, f, o', p', f');
    case For(_, _, _, _) => SameFor(s, w, o, p, f, o', p', f');
    case While(_, _, _) => SameWhile(s, w, o, p, f, o', p', f');
    case Try(_, _, _, _) => SameTry(s, w, o, p, f, o', p', f');
    case With(_, _, _) => SameWith(s, w, o, p, f, o', p', f');
    case Match(_, _) => SameMatch(s, w, o, p, f, o', p', f');
    case Def(_, _, h, ann, _) =>
      SameEs(h, w, o, p, f, o', p', f');
      var a, a' := RunEs(h, w, o, p, f), RunEs(h, w, o', p', f');
      SameEs(ann, w, o, a.pos, f, o', a'.pos, f');
    case Class(_, _) => SameClass(s, w, o, p, f, o', p', f');
    case _ =>
  }

  lemma IfClean(s: Stmt)
    requires s.If? && LintS(s, OWNER).findings == [] && UnseenS(s, OWNER) == []
    ensures LintE(s.test, OWNER) == [] && QuietB(s.body) && QuietB(s.orelse)
  {
    var u := Under(OWNER, InIf);
    MutedQuietB(s.body, u);
    MutedQuietB(s.orelse, u.(early := LintB(s.body, u).early));
  }

  lemma {:induction false} SameIf(s: Stmt, w: World, o: Oracle, p: nat, f: nat, o': Oracle, p': nat, f': nat)
    requires CleanWorld(w) && LintS(s, OWNER).findings == [] && UnseenS(s, OWNER) == [] && SteadyS(s) && s.If?
    requires Complete(RunS(s, w, o, p, f)) && Complete(RunS(s, w, o', p', f'))
    ensures RunS(s, w, o, p, f).trace == RunS(s, w, o', p', f').trace
    decreases f, s, 0
  {
    IfClean(s);
    SameE(s.test, w, o, p, f, o', p', f');
    var a, a' := RunE(s.test, w, o, p, f), RunE(s.test, w, o', p', f');
    SilentB(if o(a.pos) == 0 then s.body else s.orelse, w, o, a.pos + 1, f);
    SilentB(if o'(a'.pos) == 0 then s.body else s.orelse, w, o', a'.pos + 1, f');
  }

  lemma {:induction false} SameFor(s: Stmt, w: World, o: Oracle, p: nat, f: nat, o': Oracle, p': nat, f': nat)
    requires CleanWorld(w) && LintS(s, OWNER).findings == [] && UnseenS(s, OWNER) == [] && SteadyS(s) && s.For?
    requires Complete(RunS(s, w, o, p, f)) && Complete(RunS(s, w, o', p', f'))
    ensures RunS(s, w, o, p, f).trace == RunS(s, w, o', p', f').trace
    decreases f, s, 0
  {
    var u := Under(OWNER, InFor);
    MutedQuietB(s.body, u);
    MutedQuietB(s.orelse, u.(early := LintB(s.body, u).early));
    SameE(s.iter, w, o, p, f, o', p', f');
    SilentFor(s.target, s.body, s.orelse, w, o, RunE(s.iter, w, o, p, f).pos, f - 1);
    SilentFor(s.target, s.body, s.orelse, w, o', RunE(s.iter, w, o', p', f').pos, f' - 1);
  }

  lemma {:induction false} SameWhile(s: Stmt, w: World, o: Oracle, p: nat, f: nat, o': Oracle, p': nat, f': nat)
    requires CleanWorld(w) && LintS(s, OWNER).findings == [] && UnseenS(s, OWNER) == [] && SteadyS(s) && s.While?
    requires Complete(RunS(s, w, o, p, f)) && Complete(RunS(s, w, o', p', f'))
    ensures RunS(s, w, o, p, f).trace == RunS(s, w, o', p', f').trace
    decreases f, s, 0
  {
    var u := Under(OWNER, InWhile);
    MutedQuietE(s.test, u);
    MutedQuietB(s.body, u);
    MutedQuietB(s.orelse, u.(early := LintB(s.body, u).early));
    SilentWhile(s, w, o, p, f - 1);
    SilentWhile(s, w, o', p', f' - 1);
  }

  lemma {:induction false} SameTry(s: Stmt, w: World, o: Oracle, p: nat, f: nat, o': Oracle, p': nat, f': nat)
    requires CleanWorld(w) && LintS(s, OWNER).findings == [] && UnseenS(s, OWNER) == [] && SteadyS(s) && s.Try?
    requires Complete(RunS(s, w, o, p, f)) && Complete(RunS(s, w, o', p', f'))
    ensures RunS(s, w, o, p, f).trace == RunS(s, w, o', p', f').trace
    decreases f, s, 0
  {
    var u := Under(OWNER, InTry);
    var uh := u.(early := LintB(s.body, u).early);
    var ue := u.(early := LintA(s.handlers, uh).early);
    MutedQuietB(s.body, u);
    MutedQuietA(s.handlers, uh);
    MutedQuietB(s.orelse, ue);
    MutedQuietB(s.finalbody, u.(early := LintB(s.orelse, ue).early));
    SilentTry(s, w, o, p, f);
    SilentTry(s, w, o', p', f');
  }

  lemma {:induction false} SameWith(s: Stmt, w: World, o: Oracle, p: nat, f: nat, o': Oracle, p': nat, f': nat)
    requires CleanWorld(w) && LintS(s, OWNER).findings == [] && UnseenS(s, OWNER) == [] && SteadyS(s) && s.With?
    requires Complete(RunS(s, w, o, p, f)) && Complete(RunS(s, w, o', p', f'))
    ensures RunS(s, w, o, p, f).trace == RunS(s, w, o', p', f').trace
    decreases f, s, 0
  {
    SameEs(s.items, w, o, p, f, o', p', f');
    var a, a' := RunEs(s.items, w, o, p, f), RunEs(s.items, w, o', p', f');
    if s.swallows {
      SilentStill(s.body, o(a.pos), w, o, a.pos + 1, f);
      SilentStill(s.body, o'(a'.pos), w, o', a'.pos + 1, f');
    } else {
      SameB(s.body, w, o, a.pos, f, o', a'.pos, f');
    }
  }

  lemma {:induction false} SameMatch(s: Stmt, w: World, o: Oracle, p: nat, f: nat, o': Oracle, p': nat, f': nat)
    requires CleanWorld(w) && LintS(s, OWNER).findings == [] && UnseenS(s, OWNER) == [] && SteadyS(s) && s.Match?
    requires Complete(RunS(s, w, o, p, f)) && Complete(RunS(s, w, o', p', f'))
    ensures RunS(s, w, o, p, f).trace == RunS(s, w, o', p', f').trace
    decreases f, s, 0
  {
    MutedQuietA(s.cases, Under(OWNER, InMatch));
    SameE(s.subject, w, o, p, f, o', p', f');
    SilentA(s.cases, w, o, RunE(s.subject, w, o, p, f).pos, f);
    SilentA(s.cases, w, o', RunE(s.subject, w, o', p', f').pos, f');
  }

  lemma {:induction false} SameClass(s: Stmt, w: World, o: Oracle, p: nat, f: nat, o': Oracle, p': nat, f': nat)
    requires CleanWorld(w) && LintS(s, OWNER).findings == [] && UnseenS(s, OWNER) == [] && SteadyS(s) && s.Class?
    requires Complete(RunS(s, w, o, p, f)) && Complete(RunS(s, w, o', p', f'))
    ensures RunS(s, w, o, p, f).trace == RunS(s, w, o', p', f').trace
    decreases f, s, 0
  {
    MutedQuietB(s.body, Leaving(OWNER, InClass));
    SameEs(s.header, w, o, p, f, o', p', f');
    SilentB(s.body, w, o, RunEs(s.header, w, o, p, f).pos, f);
    SilentB(s.body, w, o', RunEs(s.header, w, o', p', f').pos, f');
  }

  /** The heart of it: after a statement that may return on one run only, no hooks are left to call. */
  lemma {:induction false} SameB(b: Block, w: World, o: Oracle, p: nat, f: nat, o': Oracle, p': nat, f': nat)
    requires CleanWorld(w) && LintB(b, OWNER).findings == [] && UnseenB(b, OWNER) == [] && SteadyB(b)
    ensures var r, r' := RunB(b, w, o, p, f), RunB(b, w, o', p', f');
            Complete(r) && Complete(r') ==> r.trace == r'.trace
    decreases f, b
  {
    if b.Seq? {
      var s := b.first;
      var a, a' := RunS(s, w, o, p, f), RunS(s, w, o', p', f');
      if Complete(a) && Complete(a') {
        SameS(s, w, o, p, f, o', p', f');
        var c := OWNER.(early := EarlyAfter(s, OWNER));
        if c.early {
          MutedQuietB(b.rest, c);
          SilentB(b.rest, w, o, a.pos, f);
          SilentB(b.rest, w, o', a'.pos, f');
        } else if !s.Return? {
          if !HasReturn(s) { StaysS(s, w, o, p, f); StaysS(s, w, o', p', f'); }
          SameB(b.rest, w, o, a.pos, f, o', a'.pos, f');
        }
      }
    }
  }

  // -- whole modules: every owner body and every closure in an accepted module qualifies --

  predicate OwnerInS(s: Stmt, x: Block) {
    match s
    case If(_, b, e) => OwnerInB(b, x) || OwnerInB(e, x)
    case For(_, _, b, e) => OwnerInB(b, x) || OwnerInB(e, x)
    case While(_, b, e) => OwnerInB(b, x) || OwnerInB(e, x)
    case Try(b, h, e, f) => OwnerInB(b, x) || OwnerInA(h, x) || OwnerInB(e, x) || OwnerInB(f, x)
    case With(_, _, b) => OwnerInB(b, x)
    case Match(_, cs) => OwnerInA(cs, x)
    case Def(_, _, _, _, b) => (IsOwner(s) && b == x) || OwnerInB(b, x)
    case Class(_, b) => OwnerInB(b, x)
    case _ => false
  }

  predicate OwnerInB(b: Block, x: Block) {
    b.Seq? && (OwnerInS(b.first, x) || OwnerInB(b.rest, x))
  }

  predicate OwnerInA(a: Arms, x: Block) {
    a.Arm? && (OwnerInB(a.body, x) || OwnerInA(a.rest, x))
  }

  predicate ClosureInE(e: Expr, x: Closure) {
    match e
    case Atom => false
    case Parts(es) => ClosureInEs(es, x)
    case Call(_, args) => ClosureInEs(args, x)
    case Compare(l, s, m) => ClosureInE(l, x) || ClosureInE(s, x) || ClosureInEs(m, x)
    case BoolOp(_, f, r) => ClosureInE(f, x) || ClosureInEs(r, x)
    case IfExp(t, b, o) => ClosureInE(t, x) || ClosureInE(b, x) || ClosureInE(o, x)
    case Lambda(d, b) => ClosureInEs(d, x) || x == LambdaBody(b) || ClosureInE(b, x)
    case Comprehension(i, inner) => ClosureInE(i, x) || x == LambdaBody(Parts(inner)) || ClosureInEs(inner, x)
  }

  predicate ClosureInEs(es: Exprs, x: Closure) {
    es.ConsE? && (ClosureInE(es.head, x) || ClosureInEs(es.tail, x))
  }

  predicate ClosureInS(s: Stmt, x: Closure) {
    match s
    case Simple(es) => ClosureInEs(es, x)
    case Return(v) => ClosureInE(v, x)
    case Break => false
    case Continue => false
    case If(t, b, e) => ClosureInE(t, x) || ClosureInB(b, x) || ClosureInB(e, x)
    case For(i, t, b, e) => ClosureInE(i, x) || ClosureInE(t, x) || ClosureInB(b, x) || ClosureInB(e, x)
    case While(t, b, e) => ClosureInE(t, x) || ClosureInB(b, x) || ClosureInB(e, x)
    case Try(b, h, e, f) => ClosureInB(b, x) || ClosureInA(h, x) || ClosureInB(e, x) || ClosureInB(f, x)
    case With(es, _, b) => ClosureInEs(es, x) || ClosureInB(b, x)
    case Match(e, cs) => ClosureInE(e, x) || ClosureInA(cs, x)
    case Def(_, _, h, a, b) => ClosureInEs(h, x) || ClosureInEs(a, x) || (!IsOwner(s) && x == FunctionBody(b)) || ClosureInB(b, x)
    case Class(h, b) => ClosureInEs(h, x) || ClosureInB(b, x)
  }

  predicate ClosureInB(b: Block, x: Closure) {
    b.Seq? && (ClosureInS(b.first, x) || ClosureInB(b.rest, x))
  }

  predicate ClosureInA(a: Arms, x: Closure) {
    a.Arm? && (ClosureInE(a.test, x) || ClosureInB(a.body, x) || ClosureInA(a.rest, x))
  }

  lemma {:induction false} OwnersCleanS(s: Stmt, c: Ctx, x: Block)
    requires LintS(s, c).findings == [] && UnseenS(s, c) == [] && OwnerInS(s, x)
    ensures LintB(x, OWNER).findings == [] && UnseenB(x, OWNER) == []
  {
    match s
    case If(_, b, e) =>
      var u := Under(c, InIf);
      if OwnerInB(b, x) { OwnersCleanB(b, u, x); } else { OwnersCleanB(e, u.(early := LintB(b, u).early), x); }
    case For(_, _, b, e) =>
      var u := Under(c, InFor);
      if OwnerInB(b, x) { OwnersCleanB(b, u, x); } else { OwnersCleanB(e, u.(early := LintB(b, u).early), x); }
    case While(_, b, e) =>
      var u := Under(c, InWhile);
      if OwnerInB(b, x) { OwnersCleanB(b, u, x); } else { OwnersCleanB(e, u.(early := LintB(b, u).early), x); }
    case Try(b, h, e, f) =>
      var u := Under(c, InTry);
      var uh := u.(early := LintB(b, u).early);
      var ue := u.(early := LintA(h, uh).early);
      if OwnerInB(b, x) { OwnersCleanB(b, u, x); }
      else if OwnerInA(h, x) { OwnersCleanA(h, uh, x); }
      else if OwnerInB(e, x) { OwnersCleanB(e, ue, x); }
      else { OwnersCleanB(f, u.(early := LintB(e, ue).early), x); }
    case With(_, _, b) => OwnersCleanB(b, c, x);
    case Match(_, cs) => OwnersCleanA(cs, Under(c, InMatch), x);
    case Def(n, _, _, _, b) =>
      if OwnerInB(b, x) {
        OwnersCleanB(b, if IsOwner(s) then OWNER else if c.owned then Leaving(c, InFunction(n)) else c, x);
      }
    case Class(_, b) => OwnersCleanB(b, if c.owned then Leaving(c, InClass) else c, x);
    case _ =>
  }

  lemma {:induction false} OwnersCleanB(b: Block, c: Ctx, x: Block)
    requires LintB(b, c).findings == [] && UnseenB(b, c) == [] && OwnerInB(b, x)
    ensures LintB(x, OWNER).findings == [] && UnseenB(x, OWNER) == []
  {
    if OwnerInS(b.first, x) {
      OwnersCleanS(b.first, c, x);
    } else {
      OwnersCleanB(b.rest, c.(early := EarlyAfter(b.first, c)), x);
    }
  }

  lemma {:induction false} OwnersCleanA(a: Arms, c: Ctx, x: Block)
    requires LintA(a, c).findings == [] && UnseenA(a, c) == [] && OwnerInA(a, x)
    ensures LintB(x, OWNER).findings == [] && UnseenB(x, OWNER) == []
  {
    if OwnerInB(a.body, x) {
      OwnersCleanB(a.body, c, x);
    } else {
      OwnersCleanA(a.rest, c.(early := LintB(a.body, c).early), x);
    }
  }

  lemma {:induction false} ClosuresQuietE(e: Expr, c: Ctx, x: Closure)
    requires LintE(e, c) == [] && ClosureInE(e, x)
    ensures QuietC(x)
  {
    match e
    case Atom =>
    case Parts(es) => ClosuresQuietEs(es, c, x);
    case Call(_, args) => ClosuresQuietEs(args, c, x);
    case Compare(l, s, m) =>
      if ClosureInE(l, x) { ClosuresQuietE(l, c, x); }
      else if ClosureInE(s, x) { ClosuresQuietE(s, c, x); }
      else { ClosuresQuietEs(m, c, x); }
    case BoolOp(isAnd, f, r) =>
      if ClosureInE(f, x) { ClosuresQuietE(f, c, x); } else { ClosuresQuietEs(r, Under(c, InRightSide(isAnd)), x); }
    case IfExp(t, b, o) =>
      if ClosureInE(t, x) { ClosuresQuietE(t, c, x); }
      else if ClosureInE(b, x) { ClosuresQuietE(b, Under(c, InCondExpr), x); }
      else { ClosuresQuietE(o, Under(c, InCondExpr), x); }
    case Lambda(d, b) =>
      if ClosureInEs(d, x) { ClosuresQuietEs(d, c, x); }
      else if ClosureInE(b, x) { ClosuresQuietE(b, Leaving(c, InLambda), x); }
      else { MutedQuietE(b, Leaving(c, InLambda)); }
    case Comprehension(i, inner) =>
      if ClosureInE(i, x) { ClosuresQuietE(i, c, x); }
      else if ClosureInEs(inner, x) { ClosuresQuietEs(inner, Leaving(c, InComprehension), x); }
      else { MutedQuietEs(inner, Leaving(c, InComprehension)); }
  }

  lemma {:induction false} ClosuresQuietEs(es: Exprs, c: Ctx, x: Closure)
    requires LintEs(es, c) == [] && ClosureInEs(es, x)
    ensures QuietC(x)
  {
    if ClosureInE(es.head, x) { ClosuresQuietE(es.head, c, x); } else { ClosuresQuietEs(es.tail, c, x); }
  }

  lemma {:induction false} ClosuresQuietS(s: Stmt, c: Ctx, x: Closure)
    requires LintS(s, c).findings == [] && UnseenS(s, c) == [] && ClosureInS(s, x)
    ensures QuietC(x)
  {
    match s
    case Simple(es) => ClosuresQuietEs(es, c, x);
    case Return(v) => ClosuresQuietE(v, c, x);
    case Break =>
    case Continue =>
    case If(t, b, e) =>
      var u := Under(c, InIf);
      if ClosureInE(t, x) { ClosuresQuietE(t, c, x); }
      else if ClosureInB(b, x) { ClosuresQuietB(b, u, x); }
      else { ClosuresQuietB(e, u.(early := LintB(b, u).early), x); }
    case For(i, t, b, e) =>
      var u := Under(c, InFor);
      if ClosureInE(i, x) { ClosuresQuietE(i, c, x); }
      else if ClosureInE(t, x) { ClosuresQuietE(t, c, x); }
      else if ClosureInB(b, x) { ClosuresQuietB(b, u, x); }
      else { ClosuresQuietB(e, u.(early := LintB(b, u).early), x); }
    case While(t, b, e) =>
      var u := Under(c, InWhile);
      if ClosureInE(t, x) { ClosuresQuietE(t, u, x); }
      else if ClosureInB(b, x) { ClosuresQuietB(b, u, x); }
      else { ClosuresQuietB(e, u.(early := LintB(b, u).early), x); }
    case Try(b, h, e, f) =>
      var u := Under(c, InTry);
      var uh := u.(early := LintB(b, u).early);
      var ue := u.(early := LintA(h, uh).early);
      if ClosureInB(b, x) { ClosuresQuietB(b, u, x); }
      else if ClosureInA(h, x) { ClosuresQuietA(h, uh, x); }
      else if ClosureInB(e, x) { ClosuresQuietB(e, ue, x); }
      else { ClosuresQuietB(f, u.(early := LintB(e, ue).early), x); }
    case With(es, _, b) =>
      if ClosureInEs(es, x) { ClosuresQuietEs(es, c, x); } else { ClosuresQuietB(b, c, x); }
    case Match(e, cs) =>
      if ClosureInE(e, x) { ClosuresQuietE(e, c, x); } else { ClosuresQuietA(cs, Under(c, InMatch), x); }
    case Def(n, _, h, a, b) =>
      var inner := if IsOwner(s) then OWNER else if c.owned then Leaving(c, InFunction(n)) else c;
      if ClosureInEs(h, x) { ClosuresQuietEs(h, c, x); }
      else if ClosureInEs(a, x) { ClosuresQuietEs(a, c, x); }
      else if ClosureInB(b, x) { ClosuresQuietB(b, inner, x); }
      else { MutedQuietB(b, inner); }
    case Class(h, b) =>
      if ClosureInEs(h, x) { ClosuresQuietEs(h, c, x); }
      else { ClosuresQuietB(b, if c.owned then Leaving(c, InClass) else c, x); }
  }

  lemma {:induction false} ClosuresQuietB(b: Block, c: Ctx, x: Closure)
    requires LintB(b, c).findings == [] && UnseenB(b, c) == [] && ClosureInB(b, x)
    ensures QuietC(x)
  {
    if ClosureInS(b.first, x) {
      ClosuresQuietS(b.first, c, x);
    } else {
      ClosuresQuietB(b.rest, c.(early := EarlyAfter(b.first, c)), x);
    }
  }

  lemma {:induction false} ClosuresQuietA(a: Arms, c: Ctx, x: Closure)
    requires LintA(a, c).findings == [] && UnseenA(a, c) == [] && ClosureInA(a, x)
    ensures QuietC(x)
  {
    if ClosureInE(a.test, x) { ClosuresQuietE(a.test, c, x); }
    else if ClosureInB(a.body, x) { ClosuresQuietB(a.body, c, x); }
    else { ClosuresQuietA(a.rest, c.(early := LintB(a.body, c).early), x); }
  }

  /** Custom hook names are bound to hook bodies of the module, and callbacks are its closures. */
  ghost predicate Linked(m: Block, w: World) {
    && (forall n <- w.hooks :: OwnerInB(m, w.hooks[n]))
    && (forall i :: 0 <= i < |w.pool| ==> ClosureInB(m, w.pool[i]))
  }

  /** No owner body of the module has a hook in one of the three missed positions. */
  ghost predicate AllSteady(m: Block) {
    forall body :: OwnerInB(m, body) ==> SteadyB(body)
  }

  lemma LinkedClean(m: Block, w: World)
    requires LintB(m, MODULE).findings == [] && UnseenB(m, MODULE) == [] && AllSteady(m) && Linked(m, w)
    ensures CleanWorld(w)
  {
    forall n | n in w.hooks ensures CleanBody(w.hooks[n]) {
      OwnersCleanB(m, MODULE, w.hooks[n]);
    }
    forall i | 0 <= i < |w.pool| ensures QuietC(w.pool[i]) {
      ClosuresQuietB(m, MODULE, w.pool[i]);
    }
  }

  /** Any two complete executions of a component or custom hook of a module without findings, however
      they branch, loop, return early or run callbacks, call the same sequence of hooks. */
  lemma CheckerSound(m: Block, w: World, body: Block, o: Oracle, p: nat, f: nat, o': Oracle, p': nat, f': nat)
    requires LintB(m, MODULE).findings == [] && UnseenB(m, MODULE) == [] && AllSteady(m)
    requires Linked(m, w) && OwnerInB(m, body)
    requires Complete(RunB(body, w, o, p, f)) && Complete(RunB(body, w, o', p', f'))
    ensures RunB(body, w, o, p, f).trace == RunB(body, w, o', p', f').trace
  {
    LinkedClean(m, w);
    OwnersCleanB(m, MODULE, body);
    SameB(body, w, o, p, f, o', p', f');
  }

  // -- where the checker misses a hook --

  const CALL := Call("use_a", NoExprs)
  const BARE := World(map[], [])

  lemma UseAIsHook()
    ensures IsHookName("use_a")
  {
    assert DropUnderscores("use_a") == "use_a";
  }

  lemma CallRuns(o: Oracle, p: nat, fuel: nat)
    requires o(p) == 0 && fuel > 0
    ensures RunE(CALL, BARE, o, p, fuel) == Ran(["use_a"], p + 1, Fell)
    ensures LintE(CALL, OWNER) == []
  {
    UseAIsHook();
    assert RunEs(NoExprs, BARE, o, p, fuel) == Ran([], p, Fell);
    assert RunHook("use_a", BARE, o, p, fuel - 1) == Ran(["use_a"], p, Fell);
    assert Callbacks(BARE, o, p, fuel - 1) == Ran([], p + 1, Fell);
    assert LintEs(NoExprs, OWNER) == [];
  }

  /** A hook in the target of a `for` runs once per iteration and is not reported. */
  lemma ForTargetMissed(never: Oracle, once: Oracle)
    requires never(0) == 0
    requires once(0) == 1 && once(1) == 0 && once(2) == 0
    ensures LintS(For(Atom, CALL, End, End), OWNER).findings == []
    ensures RunS(For(Atom, CALL, End, End), BARE, never, 0, 3) == Ran([], 1, Fell)
    ensures RunS(For(Atom, CALL, End, End), BARE, once, 0, 3) == Ran(["use_a"], 3, Fell)
  {
    CallRuns(once, 1, 1);
    assert ForLoop(CALL, End, End, BARE, never, 0, 2) == Ran([], 1, Fell);
    assert RunB(End, BARE, once, 2, 1) == Ran([], 2, Fell);
    assert ForLoop(CALL, End, End, BARE, once, 2, 1) == Ran([], 3, Fell);
    assert ForLoop(CALL, End, End, BARE, once, 0, 2) == Ran(["use_a"], 3, Fell);
    assert LintB(End, Under(OWNER, InFor)).findings == [];
  }

  /** A hook in the third operand of a chained comparison may be skipped and is not reported. */
  lemma ChainedComparisonMissed(skip: Oracle, reach: Oracle)
    requires skip(0) == 0
    requires reach(0) == 1 && reach(1) == 0
    ensures LintE(Compare(Atom, Atom, ConsE(CALL, NoExprs)), OWNER) == []
    ensures RunE(Compare(Atom, Atom, ConsE(CALL, NoExprs)), BARE, skip, 0, 2) == Ran([], 1, Fell)
    ensures RunE(Compare(Atom, Atom, ConsE(CALL, NoExprs)), BARE, reach, 0, 2) == Ran(["use_a"], 2, Fell)
  {
    var more := ConsE(CALL, NoExprs);
    CallRuns(reach, 1, 2);
    assert LintEs(more, OWNER) == LintE(CALL, OWNER) + LintEs(NoExprs, OWNER);
    assert RunUpTo(more, 0, BARE, skip, 1, 2) == Ran([], 1, Fell);
    assert RunUpTo(NoExprs, 0, BARE, reach, 2, 2) == Ran([], 2, Fell);
    assert RunUpTo(more, 1, BARE, reach, 1, 2) == Ran(["use_a"], 2, Fell);
  }

  const SWALLOWING := With(ConsE(Atom, NoExprs), true, Seq(Simple(ConsE(Atom, NoExprs)), Seq(Simple(ConsE(CALL, NoExprs)), End)))

  /** A hook in the body of a `with` is not reported, and is skipped when the manager swallows an earlier exception. */
  lemma SwallowingWithMissed(raises: Oracle, whole: Oracle)
    requires raises(0) == 2
    requires whole(0) == 0 && whole(1) == 0
    ensures LintS(SWALLOWING, OWNER).findings == []
    ensures RunS(SWALLOWING, BARE, raises, 0, 1) == Ran([], 1, Fell)
    ensures RunS(SWALLOWING, BARE, whole, 0, 1) == Ran(["use_a"], 2, Fell)
  {
    SwallowingClean();
    SwallowingRaised(raises);
    SwallowingWhole(whole);
  }

  lemma SwallowingClean()
    ensures LintS(SWALLOWING, OWNER).findings == []
  {
    var call := Seq(Simple(ConsE(CALL, NoExprs)), End);
    assert LintEs(ConsE(CALL, NoExprs), OWNER) == [] by { assert LintEs(NoExprs, OWNER) == []; }
    assert LintB(call, OWNER).findings == [];
    assert LintEs(ConsE(Atom, NoExprs), OWNER) == [];
  }

  lemma SwallowingRaised(raises: Oracle)
    requires raises(0) == 2
    ensures RunS(SWALLOWING, BARE, raises, 0, 1) == Ran([], 1, Fell)
  {
    var call, body := Seq(Simple(ConsE(CALL, NoExprs)), End), SWALLOWING.body;
    assert RunFirst(call, 1, BARE, raises, 1, 1) == Ran([], 1, Fell);
    assert RunFirst(body, 2, BARE, raises, 1, 1) == Ran([], 1, Fell);
  }

  lemma SwallowingWhole(whole: Oracle)
    requires whole(0) == 0 && whole(1) == 0
    ensures RunS(SWALLOWING, BARE, whole, 0, 1) == Ran(["use_a"], 2, Fell)
  {
    var call, body := Seq(Simple(ConsE(CALL, NoExprs)), End), SWALLOWING.body;
    CallRuns(whole, 1, 1);
    assert RunEs(ConsE(CALL, NoExprs), BARE, whole, 1, 1) == Ran(["use_a"], 2, Fell);
    assert RunFirst(call, 0, BARE, whole, 1, 1) == Ran(["use_a"], 2, Fell);
    assert RunFirst(body, 0, BARE, whole, 1, 1) == Ran(["use_a"], 2, Fell);
  }

  const ANNOTATED := Def("f", false, NoExprs, ConsE(CALL, NoExprs), End)

  /** A hook in an annotation is not reported, even where the `def` runs conditionally. */
  lemma AnnotationMissed(yes: Oracle, no: Oracle)
    requires yes(0) == 0 && yes(1) == 0 && no(0) == 1
    ensures LintS(If(Atom, Seq(ANNOTATED, End), End), OWNER).findings == []
    ensures UnseenS(If(Atom, Seq(ANNOTATED, End), End), OWNER) == [Conditional("use_a", InIf)]
    ensures RunS(If(Atom, Seq(ANNOTATED, End), End), BARE, yes, 0, 1) == Ran(["use_a"], 2, Fell)
    ensures RunS(If(Atom, Seq(ANNOTATED, End), End), BARE, no, 0, 1) == Ran([], 1, Fell)
  {
    var u := Under(OWNER, InIf);
    CallRuns(yes, 1, 1);
    assert RunEs(ConsE(CALL, NoExprs), BARE, yes, 1, 1) == Ran(["use_a"], 2, Fell);
    assert RunS(ANNOTATED, BARE, yes, 1, 1) == Ran(["use_a"], 2, Fell);
    assert RunB(Seq(ANNOTATED, End), BARE, yes, 1, 1) == Ran(["use_a"], 2, Fell);
    assert LintEs(NoExprs, u) == [] && LintB(End, u) == Verdict([], false);
    assert LintE(CALL, u) == [Conditional("use_a", InIf)];
    assert LintEs(ConsE(CALL, NoExprs), u) == [Conditional("use_a", InIf)];
    assert LintB(End, Leaving(u, InFunction("f"))) == Verdict([], false);
    assert UnseenB(End, Leaving(u, InFunction("f"))) == [];
    assert UnseenS(ANNOTATED, u) == [Conditional("use_a", InIf)];
    assert UnseenB(Seq(ANNOTATED, End), u) == [Conditional("use_a", InIf)];
  }

  const HELPER := Seq(Simple(ConsE(CALL, NoExprs)), End)
  const CALL_HELPER := Call("helper", ConsE(Atom, NoExprs))
  const APP := Seq(Simple(ConsE(CALL_HELPER, NoExprs)), End)
  const MODULE_OF_BOTH := Seq(Def("helper", false, NoExprs, NoExprs, HELPER), Seq(Def("App", true, NoExprs, NoExprs, APP), End))

  lemma HelperIsNoHook()
    ensures !IsHookName("helper") && !IsHookName("App")
  {
    assert DropUnderscores("helper") == "helper" && DropUnderscores("App") == "App";
  }

  /** A plain function that calls a hook has a finding of its own, and the components that call it have none:
      without PN102, a component's runs need not agree. */
  lemma HelperMissed(calls: Oracle, skips: Oracle)
    requires calls(0) == 1 && calls(1) == 0 && calls(2) == 0 && skips(0) == 0
    ensures LintB(MODULE_OF_BOTH, MODULE).findings == [Outside("use_a")] && OwnerInB(MODULE_OF_BOTH, APP)
    ensures var w := World(map[], [FunctionBody(HELPER)]);
            && Linked(MODULE_OF_BOTH, w)
            && RunB(APP, w, calls, 0, 4) == Ran(["use_a"], 3, Fell)
            && RunB(APP, w, skips, 0, 4) == Ran([], 1, Fell)
  {
    UseAIsHook();
    HelperIsNoHook();
    var w := World(map[], [FunctionBody(HELPER)]);
    HelperLint();
    assert OwnerInS(Def("App", true, NoExprs, NoExprs, APP), APP);
    assert ClosureInS(Def("helper", false, NoExprs, NoExprs, HELPER), FunctionBody(HELPER));
    CalledBack(w, calls, skips);
    AppRuns(w, calls, 4);
    AppRuns(w, skips, 4);
  }

  const PASSING := Seq(Def("use_inner", false, NoExprs, NoExprs, HELPER), APP)
  const MODULE_PASSING := Seq(Def("App", true, NoExprs, NoExprs, PASSING), End)

  /** A custom hook that is passed on, not called by its own name, may be called or not: nothing is reported,
      every body is steady, and runs differ in a world that is not linked, because a hook is among the callbacks. */
  lemma HookPassedMissed(calls: Oracle, skips: Oracle)
    requires calls(0) == 1 && calls(1) == 0 && calls(2) == 0 && skips(0) == 0
    ensures LintB(MODULE_PASSING, MODULE).findings == [] && UnseenB(MODULE_PASSING, MODULE) == [] && AllSteady(MODULE_PASSING)
    ensures OwnerInB(MODULE_PASSING, PASSING) && OwnerInB(MODULE_PASSING, HELPER)
    ensures var w := World(map["use_inner" := HELPER], [FunctionBody(HELPER)]);
            && !Linked(MODULE_PASSING, w)
            && RunB(PASSING, w, calls, 0, 4) == Ran(["use_a"], 3, Fell)
            && RunB(PASSING, w, skips, 0, 4) == Ran([], 1, Fell)
  {
    PassingLint();
    PassingParts();
    var w := World(map["use_inner" := HELPER], [FunctionBody(HELPER)]);
    CalledBack(w, calls, skips);
    NotLinked(MODULE_PASSING, w);
    PassingRuns(w, calls, 4);
    PassingRuns(w, skips, 4);
  }

  lemma NotLinked(m: Block, w: World)
    requires w.pool != [] && !ClosureInB(m, w.pool[0])
    ensures !Linked(m, w)
  {
  }

  lemma PassingRuns(w: World, o: Oracle, fuel: nat)
    requires fuel > 0 && Callbacks(w, o, 0, fuel - 1).Ran? && Callbacks(w, o, 0, fuel - 1).how == Fell
    ensures RunB(PASSING, w, o, 0, fuel) == Callbacks(w, o, 0, fuel - 1)
  {
    AppRuns(w, o, fuel);
    var r := RunB(APP, w, o, 0, fuel);
    assert RunEs(NoExprs, w, o, 0, fuel) == Ran([], 0, Fell);
    assert RunS(PASSING.first, w, o, 0, fuel) == Ran([], 0, Fell);
    assert [] + r.trace == r.trace;
  }

  /** Its hook bodies, and its one closure that is none of them. */
  lemma PassingParts()
    ensures OwnerInB(MODULE_PASSING, PASSING) && OwnerInB(MODULE_PASSING, HELPER)
    ensures forall body :: OwnerInB(MODULE_PASSING, body) ==> body == PASSING || body == HELPER
    ensures !ClosureInB(MODULE_PASSING, FunctionBody(HELPER))
  {
    InnerIsHook();
    var inner, app, x := PASSING.first, MODULE_PASSING.first, FunctionBody(HELPER);
    assert IsOwner(inner) && IsOwner(app);
    assert !ClosureInB(HELPER, x) by { assert !ClosureInEs(ConsE(CALL, NoExprs), x); }
    assert !ClosureInB(APP, x) by { assert !ClosureInE(CALL_HELPER, x); assert !ClosureInEs(ConsE(CALL_HELPER, NoExprs), x); }
    assert !ClosureInS(inner, x);
    assert !ClosureInB(PASSING, x);
    assert !ClosureInS(app, x);
    forall body ensures OwnerInS(inner, body) <==> body == HELPER {
      assert !OwnerInB(HELPER, body);
    }
    forall body ensures OwnerInB(PASSING, body) <==> body == HELPER {
      assert !OwnerInB(APP, body);
    }
    forall body ensures OwnerInB(MODULE_PASSING, body) <==> body == PASSING || body == HELPER {
      assert OwnerInS(app, body) <==> body == PASSING || body == HELPER;
    }
  }

  lemma InnerIsHook()
    ensures IsHookName("use_inner")
  {
    assert DropUnderscores("use_inner") == "use_inner";
  }

  lemma PassingLint()
    ensures LintB(MODULE_PASSING, MODULE).findings == [] && UnseenB(MODULE_PASSING, MODULE) == [] && AllSteady(MODULE_PASSING)
  {
    PassingParts();
    PassingBody();
    var app := MODULE_PASSING.first;
    assert IsOwner(app) && LintEs(NoExprs, MODULE) == [];
    assert LintS(app, MODULE) == Verdict([], false) && UnseenS(app, MODULE) == [];
    InnerLint();
  }

  lemma PassingBody()
    ensures LintB(PASSING, OWNER).findings == [] && UnseenB(PASSING, OWNER) == [] && SteadyB(PASSING)
  {
    var inner := PASSING.first;
    InnerIsHook();
    InnerLint();
    AppLint();
    assert IsOwner(inner) && LintEs(NoExprs, OWNER) == [];
    assert LintS(inner, OWNER) == Verdict([], false) && UnseenS(inner, OWNER) == [] && SteadyS(inner);
    assert EarlyAfter(inner, OWNER) == false;
  }

  lemma InnerLint()
    ensures LintB(HELPER, OWNER) == Verdict([], false) && UnseenB(HELPER, OWNER) == [] && SteadyB(HELPER)
  {
    UseAIsHook();
    assert LintE(CALL, OWNER) == [] by { assert LintEs(NoExprs, OWNER) == []; }
    assert LintEs(ConsE(CALL, NoExprs), OWNER) == [];
    assert PlainE(CALL);
  }

  lemma HelperLint()
    ensures LintB(MODULE_OF_BOTH, MODULE).findings == [Outside("use_a")]
  {
    AppLint();
    HelperOutside();
    HelperIsNoHook();
    var helper, rest := MODULE_OF_BOTH.first, MODULE_OF_BOTH.rest;
    assert LintEs(NoExprs, MODULE) == [] && !IsOwner(helper) && IsOwner(rest.first);
    assert LintS(helper, MODULE) == Verdict([Outside("use_a")], false);
    assert LintS(rest.first, MODULE) == Verdict([], false);
  }

  lemma HelperOutside()
    ensures LintB(HELPER, MODULE) == Verdict([Outside("use_a")], false)
  {
    UseAIsHook();
    assert LintE(CALL, MODULE) == [Outside("use_a")] by { assert LintEs(NoExprs, MODULE) == []; }
    assert LintEs(ConsE(CALL, NoExprs), MODULE) == [Outside("use_a")];
  }

  /** Whether the callback runs is up to the callee. */
  lemma CalledBack(w: World, calls: Oracle, skips: Oracle)
    requires "use_a" !in w.hooks && w.pool == [FunctionBody(HELPER)]
    requires calls(0) == 1 && calls(1) == 0 && calls(2) == 0 && skips(0) == 0
    ensures Callbacks(w, calls, 0, 3) == Ran(["use_a"], 3, Fell) && Callbacks(w, skips, 0, 3) == Ran([], 1, Fell)
  {
    HelperRuns(w, calls, 1, 2);
    assert RunClosure(w.pool[0], w, calls, 1, 2) == Ran(["use_a"], 2, Fell);
    assert Callbacks(w, calls, 2, 2) == Ran([], 3, Fell);
  }

  lemma AppLint()
    ensures LintB(APP, OWNER) == Verdict([], false) && UnseenB(APP, OWNER) == [] && SteadyB(APP)
  {
    HelperIsNoHook();
    assert LintEs(ConsE(Atom, NoExprs), OWNER) == [] by { assert LintEs(NoExprs, OWNER) == []; }
    assert LintE(CALL_HELPER, OWNER) == [];
    assert LintEs(ConsE(CALL_HELPER, NoExprs), OWNER) == [];
    assert PlainEs(ConsE(Atom, NoExprs)) && PlainE(CALL_HELPER);
  }

  lemma HelperRuns(w: World, o: Oracle, p: nat, fuel: nat)
    requires "use_a" !in w.hooks && o(p) == 0 && fuel > 0
    ensures RunB(HELPER, w, o, p, fuel) == Ran(["use_a"], p + 1, Fell)
  {
    UseAIsHook();
    assert RunHook("use_a", w, o, p, fuel - 1) == Ran(["use_a"], p, Fell);
    assert Callbacks(w, o, p, fuel - 1) == Ran([], p + 1, Fell);
    assert RunE(CALL, w, o, p, fuel) == Ran(["use_a"], p + 1, Fell);
    assert RunEs(ConsE(CALL, NoExprs), w, o, p, fuel) == Ran(["use_a"], p + 1, Fell);
  }

  /** Calling the helper runs whatever callbacks the call runs. */
  lemma AppRuns(w: World, o: Oracle, fuel: nat)
    requires fuel > 0 && Callbacks(w, o, 0, fuel - 1).Ran? && Callbacks(w, o, 0, fuel - 1).how == Fell
    ensures RunB(APP, w, o, 0, fuel) == Callbacks(w, o, 0, fuel - 1)
  {
    HelperIsNoHook();
    var call, r := CALL_HELPER, Callbacks(w, o, 0, fuel - 1);
    assert RunEs(ConsE(Atom, NoExprs), w, o, 0, fuel) == Ran([], 0, Fell);
    assert RunHook("helper", w, o, 0, fuel - 1) == Ran([], 0, Fell);
    assert [] + r.trace == r.trace && r.trace + [] == r.trace;
    assert RunE(call, w, o, 0, fuel) == r;
    assert RunEs(ConsE(call, NoExprs), w, o, 0, fuel) == r;
  }
}
