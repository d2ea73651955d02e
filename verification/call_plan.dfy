/** Binding a component call to its signature: the precompiled plan against Python's general rule. */
module CallPlan {
  import opened Wrappers

  datatype Kind = PositionalOnly | PositionalOrKeyword | VarPositional | KeywordOnly | VarKeyword

  datatype Param<V> = Param(name: string, kind: Kind, default: Option<V>)

  type Kwargs<V> = map<string, V>

  predicate Distinct(names: seq<string>) {
    forall i, j :: 0 <= i < j < |names| ==> names[i] != names[j]
  }

  function OfKind<V>(sig: seq<Param<V>>, kind: Kind): seq<string> {
    if sig == [] then []
    else OfKind(sig[..|sig| - 1], kind) + if sig[|sig| - 1].kind == kind then [sig[|sig| - 1].name] else []
  }

  /** A dictionary, with its keys in the order they were inserted. */
  datatype Dict<V> = Dict(keys: seq<string>, at: map<string, V>)

  ghost predicate Proper<V>(d: Dict<V>) {
    Distinct(d.keys) && forall k :: k in d.keys <==> k in d.at
  }

  /** The parameters that have a name of their own, in order. */
  function Named<V>(sig: seq<Param<V>>): seq<string> {
    if sig == [] then []
    else
      var p := sig[|sig| - 1];
      Named(sig[..|sig| - 1]) + if p.kind == PositionalOrKeyword || p.kind == KeywordOnly then [p.name] else []
  }

  /** Parameters that follow `*args`, or a bare `*`, are keyword-only. */
  ghost predicate InKindOrder<V>(sig: seq<Param<V>>) {
    forall i, j :: 0 <= i < j < |sig| ==> !(sig[i].kind == KeywordOnly && sig[j].kind == PositionalOrKeyword)
  }

  /** What Python guarantees of every signature the plan accepts: distinct names, at most one `*args`. */
  ghost predicate Planned<V>(sig: seq<Param<V>>) {
    && (forall i, j :: 0 <= i < j < |sig| ==> sig[i].name != sig[j].name)
    && (forall p :: p in sig ==> p.kind != PositionalOnly && p.kind != VarKeyword)
    && (forall i, j :: 0 <= i < j < |sig| ==> !(sig[i].kind == VarPositional && sig[j].kind == VarPositional))
  }

  // -- section 6.3.4 of the Python Language Reference --

  /** A call's arguments as slots: the first positional parameters take the positional arguments, the rest
      go to `*args` if there is one, keywords fill the other slots, and defaults whatever is left. */
  ghost predicate Binds<V(!new)>(sig: seq<Param<V>>, args: seq<V>, kwargs: Kwargs<V>, props: map<string, V>, children: seq<V>) {
    var pos := OfKind(sig, PositionalOrKeyword);
    && (|args| > |pos| ==> OfKind(sig, VarPositional) != [])
    && children == (if |args| > |pos| then args[|pos|..] else [])
    && (forall k <- kwargs :: k in props && k !in Filled(pos, args))
    && (forall x :: x in props <==> x in pos || x in OfKind(sig, KeywordOnly))
    && (forall i :: 0 <= i < |pos| && i < |args| ==> props[pos[i]] == args[i])
    && (forall x <- props :: x !in Filled(pos, args) && x in kwargs ==> props[x] == kwargs[x])
    && (forall x <- props :: x !in Filled(pos, args) && x !in kwargs ==> HasDefault(sig, x, props[x]))
  }

  /** The parameters the positional arguments reach. */
  function Filled<V>(pos: seq<string>, args: seq<V>): seq<string> {
    if |args| < |pos| then pos[..|args|] else pos
  }

  predicate HasDefault<V(==)>(sig: seq<Param<V>>, name: string, v: V) {
    exists i :: 0 <= i < |sig| && sig[i].name == name && sig[i].default == Some(v)
  }

  /** A call binds in at most one way. */
  lemma BindsOnce<V(!new)>(sig: seq<Param<V>>, args: seq<V>, kwargs: Kwargs<V>,
                           props: map<string, V>, children: seq<V>, props': map<string, V>, children': seq<V>)
    requires Planned(sig)
    requires Binds(sig, args, kwargs, props, children) && Binds(sig, args, kwargs, props', children')
    ensures props == props' && children == children'
  {
    var pos := OfKind(sig, PositionalOrKeyword);
    forall x | x in props
      ensures props'[x] == props[x]
    {
      if x in Filled(pos, args) {
        var i :| 0 <= i < |pos| && i < |args| && pos[i] == x;
      } else if x !in kwargs {
        var i :| 0 <= i < |sig| && sig[i].name == x && sig[i].default == Some(props[x]);
        var j :| 0 <= j < |sig| && sig[j].name == x && sig[j].default == Some(props'[x]);
        assert i == j;
      }
    }
  }

  // -- the plan --

  /** Defaults of all named parameters, and of nothing else. */
  ghost predicate DefaultsOf<V(!new)>(sig: seq<Param<V>>, names: seq<string>, defaults: map<string, V>) {
    && (forall x <- defaults :: x in names && HasDefault(sig, x, defaults[x]))
    && (forall x, v :: x in names && HasDefault(sig, x, v) ==> x in defaults)
  }

  lemma DefaultsStep<V(!new)>(sig: seq<Param<V>>, p: Param<V>, names: seq<string>, defaults: map<string, V>)
    requires DefaultsOf(sig, names, defaults) && p.name !in names && forall q :: q in sig ==> q.name != p.name
    ensures DefaultsOf(sig + [p], names, defaults)
    ensures p.default.Some? ==> DefaultsOf(sig + [p], names + [p.name], defaults[p.name := p.default.value])
    ensures p.default.None? ==> DefaultsOf(sig + [p], names + [p.name], defaults)
  {
    OneMoreParam(sig, p);
    NoDefaultYet(sig, p.name);
  }

  class Plan<V(==, !new)> {
    var positional: seq<string>
    var keywordOnly: seq<string>
    var names: seq<string>
    var children: Option<string>
    var defaults: map<string, V>
    var unplanned: bool

    /** The plan's fields are the signature's parts. */
    ghost predicate For(sig: seq<Param<V>>)
      reads this
    {
      && positional == OfKind(sig, PositionalOrKeyword)
      && keywordOnly == OfKind(sig, KeywordOnly)
      && names == Named(sig)
      && (children.Some? <==> OfKind(sig, VarPositional) != [])
      && DefaultsOf(sig, names, defaults)
    }

    /** Fails exactly on positional-only and `**` parameters. */
    constructor (sig: seq<Param<V>>)
      requires forall i, j :: 0 <= i < j < |sig| ==> sig[i].name != sig[j].name
      ensures unplanned <==> exists p :: p in sig && (p.kind == PositionalOnly || p.kind == VarKeyword)
      ensures !unplanned ==> For(sig)
    {
      positional, keywordOnly, names, children, defaults, unplanned := [], [], [], None, map[], false;
      new;
      for i := 0 to |sig|
        invariant For(sig[..i]) && !unplanned
        invariant forall j :: 0 <= j < i ==> sig[j].kind != PositionalOnly && sig[j].kind != VarKeyword
      {
        NewName(sig, i);
        AddParam(sig[..i], sig[i]);
        assert sig[..i + 1] == sig[..i] + [sig[i]];
        if unplanned {
          assert sig[i] in sig;
          return;
        }
      }
      assert sig[..|sig|] == sig;
    }

    method AddParam(ghost before: seq<Param<V>>, p: Param<V>)
      requires For(before) && !unplanned && p.name !in names
      requires forall q :: q in before ==> q.name != p.name
      modifies this
      ensures unplanned <==> p.kind == PositionalOnly || p.kind == VarKeyword
      ensures !unplanned ==> For(before + [p])
      ensures forall x :: x in names ==> x in old(names) || x == p.name
    {
      OneMoreParam(before, p);
      DefaultsStep(before, p, names, defaults);
      if p.kind == VarPositional {
        children := Some(p.name);
        return;
      }
      if p.kind == PositionalOrKeyword {
        positional := positional + [p.name];
      } else if p.kind == KeywordOnly {
        keywordOnly := keywordOnly + [p.name];
      } else {
        unplanned := true;
        return;
      }
      if p.default.Some? {
        defaults := defaults[p.name := p.default.value];
      }
      names := names + [p.name];
    }

    /** The fast path; `None` hands the call to general binding, which then has no way to bind it either. */
    method Bind(sig: seq<Param<V>>, args: seq<V>, kwargs: Dict<V>) returns (r: Option<(Dict<V>, seq<V>)>)
      requires Planned(sig) && For(sig) && Proper(kwargs)
      ensures r.Some? ==> Proper(r.value.0) && Binds(sig, args, kwargs.at, r.value.0.at, r.value.1)
      ensures r.Some? ==> r.value.0.keys == PropsOrder(sig, args, kwargs.keys)
      ensures r.None? ==> forall props, rest :: !Binds(sig, args, kwargs.at, props, rest)
    {
      var count := |positional|;
      if |args| > count && children.None? {
        return None;
      }
      var rest := if |args| > count then args[count..] else [];
      PositionalDistinct(sig, PositionalOrKeyword);
      NamedDistinct(sig);
      NamedMembers(sig);
      ZipMeans(positional, args);
      var given := GiveKeywords(Dict(Filled(positional, args), Zip(positional, args)), kwargs);
      if given.None? {
        return None;
      }
      var props := FillDefaults(given.value);
      if props.None? {
        MissingMeansUnbound(sig, args, kwargs.at, names, defaults);
        return None;
      }
      PlanBinds(sig, args, kwargs.at, Zip(positional, args), props.value.at, defaults);
      return Some((props.value, rest));
    }

    /** The keyword loop: a repeated or unknown name fails the fast path. */
    method GiveKeywords(zipped: Dict<V>, kwargs: Dict<V>) returns (r: Option<Dict<V>>)
      requires Proper(zipped) && Proper(kwargs)
      ensures r == if exists k :: k in kwargs.at && (k in zipped.at || k !in names) then None
                   else Some(Dict(zipped.keys + kwargs.keys, zipped.at + kwargs.at))
      ensures r.Some? ==> Proper(r.value)
    {
      var given := zipped;
      for i := 0 to |kwargs.keys|
        invariant given == Added(zipped, kwargs, i)
        invariant forall j :: 0 <= j < i ==> kwargs.keys[j] in names && kwargs.keys[j] !in zipped.at
      {
        var name := kwargs.keys[i];
        Repeated(zipped, kwargs, i);
        if name in given.at || name !in names {
          assert name in kwargs.at && (name in zipped.at || name !in names);
          return None;
        }
        given := Dict(given.keys + [name], given.at[name := kwargs.at[name]]);
      }
      assert forall k :: k in kwargs.at ==> k in kwargs.keys;
      AllAdded(zipped, kwargs);
      return Some(given);
    }

    /** All names are given, or the missing ones have defaults, or the fast path fails. */
    method FillDefaults(given: Dict<V>) returns (r: Option<Dict<V>>)
      requires Proper(given) && Distinct(names) && forall k :: k in given.at ==> k in names
      ensures r.None? <==> exists x :: x in names && x !in given.at && x !in defaults
      ensures r.Some? ==> Proper(r.value) && r.value.keys == (if |given.keys| == |names| then given.keys else names)
      ensures r.Some? ==> forall x :: x in r.value.at <==> x in names
      ensures r.Some? ==> forall x <- r.value.at :: if x in given.at then r.value.at[x] == given.at[x]
                                                    else x in defaults && r.value.at[x] == defaults[x]
    {
      if |given.keys| == |names| {
        SomeMissing(given.keys, names);
        return Some(given);
      }
      var props: map<string, V> := map[];
      for i := 0 to |names|
        invariant forall x :: x in props <==> x in names[..i]
        invariant forall x <- props :: if x in given.at then props[x] == given.at[x] else x in defaults && props[x] == defaults[x]
        invariant forall x :: x in names[..i] ==> x in given.at || x in defaults
      {
        var name := names[i];
        assert names[..i + 1] == names[..i] + [name];
        if name in given.at {
          props := props[name := given.at[name]];
        } else if name in defaults {
          props := props[name := defaults[name]];
        } else {
          assert name in names;
          return None;
        }
      }
      assert names[..|names|] == names;
      return Some(Dict(names, props));
    }

    /** How an element's props and children are passed to the render function. */
    method Arguments(sig: seq<Param<V>>, props: map<string, V>, rest: seq<V>) returns (r: Option<(seq<V>, Kwargs<V>)>)
      requires For(sig)
      ensures r == if children.None? then Some(([], props))
                   else if forall i :: 0 <= i < |positional| ==> positional[i] in props
                   then Some((Values(props, positional) + rest, map k | k in keywordOnly && k in props :: props[k]))
                   else None
    {
      if children.None? {
        return Some(([], props));
      }
      var list: seq<V> := [];
      for i := 0 to |positional|
        invariant forall j :: 0 <= j < i ==> positional[j] in props
        invariant list == Values(props, positional[..i])
      {
        if positional[i] !in props {
          return None;
        }
        assert positional[..i + 1][..i] == positional[..i];
        list := list + [props[positional[i]]];
      }
      assert positional[..|positional|] == positional;
      return Some((list + rest, map k | k in keywordOnly && k in props :: props[k]));
    }
  }

  function Values<V>(props: map<string, V>, names: seq<string>): seq<V>
    requires forall i :: 0 <= i < |names| ==> names[i] in props
  {
    if names == [] then [] else Values(props, names[..|names| - 1]) + [props[names[|names| - 1]]]
  }

  /** Pairs of names and values, as far as both go. */
  function Zip<V>(names: seq<string>, args: seq<V>): map<string, V> {
    if names == [] || args == [] then map[]
    else Zip(names[1..], args[1..])[names[0] := args[0]]
  }

  lemma {:induction false} ZipMeans<V>(names: seq<string>, args: seq<V>)
    requires Distinct(names)
    ensures forall x :: x in Zip(names, args) <==> x in Filled(names, args)
    ensures forall i :: 0 <= i < |names| && i < |args| ==> names[i] in Zip(names, args) && Zip(names, args)[names[i]] == args[i]
  {
    if names != [] && args != [] {
      var n, a := names[1..], args[1..];
      assert forall i :: 0 <= i < |n| ==> n[i] == names[i + 1];
      ZipMeans(n, a);
      assert Filled(names, args) == [names[0]] + Filled(n, a);
      assert names[0] !in n;
      forall i | 0 <= i < |names| && i < |args|
        ensures names[i] in Zip(names, args) && Zip(names, args)[names[i]] == args[i]
      {
        if i > 0 { assert n[i - 1] in Zip(n, a) && Zip(n, a)[n[i - 1]] == a[i - 1]; }
      }
    }
  }

  lemma {:induction false} OfKindNames<V>(sig: seq<Param<V>>, kind: Kind, x: string)
    ensures x in OfKind(sig, kind) <==> exists i :: 0 <= i < |sig| && sig[i].name == x && sig[i].kind == kind
  {
    if sig != [] {
      var init := sig[..|sig| - 1];
      OfKindNames(init, kind, x);
      if x in OfKind(init, kind) {
        var i :| 0 <= i < |init| && init[i].name == x && init[i].kind == kind;
        assert sig[i].name == x;
      }
    }
  }

  lemma {:induction false} PositionalDistinct<V>(sig: seq<Param<V>>, kind: Kind)
    requires forall i, j :: 0 <= i < j < |sig| ==> sig[i].name != sig[j].name
    ensures Distinct(OfKind(sig, kind))
  {
    if sig != [] {
      var init, last := sig[..|sig| - 1], sig[|sig| - 1];
      PositionalDistinct(init, kind);
      OfKindNames(init, kind, last.name);
    }
  }

  lemma OneMoreParam<V(!new)>(sig: seq<Param<V>>, p: Param<V>)
    ensures forall kind :: OfKind(sig + [p], kind) == OfKind(sig, kind) + if p.kind == kind then [p.name] else []
    ensures forall x, v: V :: HasDefault(sig + [p], x, v) <==> HasDefault(sig, x, v) || (p.name == x && p.default == Some(v))
  {
    assert (sig + [p])[..|sig|] == sig;
    forall x, v: V
      ensures HasDefault(sig + [p], x, v) <==> HasDefault(sig, x, v) || (p.name == x && p.default == Some(v))
    {
      if HasDefault(sig, x, v) {
        var i :| 0 <= i < |sig| && sig[i].name == x && sig[i].default == Some(v);
        assert (sig + [p])[i].name == x;
      }
      if p.name == x && p.default == Some(v) { assert (sig + [p])[|sig|].name == x; }
    }
  }

  /** A dictionary after the first `i` items of another were added. */
  function Added<V>(d: Dict<V>, more: Dict<V>, i: nat): Dict<V>
    requires i <= |more.keys| && forall k :: k in more.keys ==> k in more.at
  {
    if i == 0 then d
    else
      var before, k := Added(d, more, i - 1), more.keys[i - 1];
      Dict(before.keys + [k], before.at[k := more.at[k]])
  }

  /** The next key is there already exactly when the first dictionary has it. */
  lemma Repeated<V>(d: Dict<V>, more: Dict<V>, i: nat)
    requires i < |more.keys| && Proper(more)
    ensures more.keys[i] in more.at && (more.keys[i] in Added(d, more, i).at <==> more.keys[i] in d.at)
  {
    assert more.keys[i] in more.keys;
    AddedAt(d, more, i, more.keys[i]);
  }

  lemma AllAdded<V>(d: Dict<V>, more: Dict<V>)
    requires Proper(d) && Proper(more) && forall j :: 0 <= j < |more.keys| ==> more.keys[j] !in d.at
    ensures Added(d, more, |more.keys|) == Dict(d.keys + more.keys, d.at + more.at)
    ensures Proper(Dict(d.keys + more.keys, d.at + more.at))
  {
    var n := |more.keys|;
    assert more.keys[..n] == more.keys;
    assert Added(d, more, n).keys == d.keys + more.keys by { AddedKeys(d, more, n); }
    assert Added(d, more, n).at == d.at + more.at by { AddedAll(d, more); }
    UnionProper(d, more);
  }

  /** Two dictionaries that share no key make one. */
  lemma UnionProper<V>(d: Dict<V>, more: Dict<V>)
    requires Proper(d) && Proper(more) && forall j :: 0 <= j < |more.keys| ==> more.keys[j] !in d.at
    ensures Proper(Dict(d.keys + more.keys, d.at + more.at))
  {
    var keys := d.keys + more.keys;
    forall i, j | 0 <= i < j < |keys| ensures keys[i] != keys[j] {
      if i < |d.keys| <= j { assert keys[i] in d.keys && keys[j] == more.keys[j - |d.keys|]; }
    }
    assert forall k :: k in keys <==> k in d.keys || k in more.keys;
  }

  lemma {:induction false} AddedKeys<V>(d: Dict<V>, more: Dict<V>, i: nat)
    requires i <= |more.keys| && Proper(more)
    ensures Added(d, more, i).keys == d.keys + more.keys[..i]
  {
    if i > 0 {
      AddedKeys(d, more, i - 1);
      assert more.keys[..i] == more.keys[..i - 1] + [more.keys[i - 1]];
    }
  }

  lemma {:induction false} AddedAt<V>(d: Dict<V>, more: Dict<V>, i: nat, k: string)
    requires i <= |more.keys| && Proper(more)
    ensures k in Added(d, more, i).at <==> k in d.at || k in more.keys[..i]
    ensures k in more.keys[..i] ==> Added(d, more, i).at[k] == more.at[k]
    ensures k in d.at && k !in more.keys[..i] ==> Added(d, more, i).at[k] == d.at[k]
  {
    if i > 0 {
      AddedAt(d, more, i - 1, k);
      assert more.keys[..i] == more.keys[..i - 1] + [more.keys[i - 1]];
    }
  }

  lemma AddedAll<V>(d: Dict<V>, more: Dict<V>)
    requires Proper(more)
    ensures Added(d, more, |more.keys|).at == d.at + more.at
  {
    var all := Added(d, more, |more.keys|);
    assert more.keys[..|more.keys|] == more.keys;
    forall k: string
      ensures k in all.at <==> k in d.at || k in more.at
      ensures k in more.at ==> all.at[k] == more.at[k]
      ensures k in d.at && k !in more.at ==> all.at[k] == d.at[k]
    {
      AddedAt(d, more, |more.keys|, k);
    }
  }

  // -- the order of the props --

  /** The order of the call when it gives every argument, and of the parameters otherwise. */
  function PropsOrder<V>(sig: seq<Param<V>>, args: seq<V>, keywords: seq<string>): seq<string> {
    var given := Filled(OfKind(sig, PositionalOrKeyword), args) + keywords;
    if |given| == |Named(sig)| then given else Named(sig)
  }

  /** The keywords come in the order of their parameters: they are the names with some left out. */
  predicate InOrder(keywords: seq<string>, names: seq<string>) {
    keywords == [] ||
    (names != [] &&
     if names[0] == keywords[0] then InOrder(keywords[1..], names[1..]) else InOrder(keywords, names[1..]))
  }

  /** `f(b=1, a=2)` for `def f(a, b)`: the props come in the order of the call. */
  lemma OrderOfCallKept(a: Param<int>, b: Param<int>)
    requires a == Param("a", PositionalOrKeyword, None) && b == Param("b", PositionalOrKeyword, None)
    ensures Planned([a, b]) && Binds([a, b], [], map["b" := 1, "a" := 2], map["a" := 2, "b" := 1], [])
    ensures Named([a, b]) == ["a", "b"] && PropsOrder([a, b], [], ["b", "a"]) == ["b", "a"]
  {
    NamesOfTwo(a, b);
    assert a.name != b.name && [a, b][0] == a && [a, b][1] == b;
  }

  lemma NamesOfTwo(a: Param<int>, b: Param<int>)
    requires a == Param("a", PositionalOrKeyword, None) && b == Param("b", PositionalOrKeyword, None)
    ensures OfKind([a, b], PositionalOrKeyword) == ["a", "b"] && Named([a, b]) == ["a", "b"]
    ensures OfKind([a, b], KeywordOnly) == [] && OfKind([a, b], VarPositional) == []
  {
    var none: seq<Param<int>> := [];
    OneMoreParam(none, a);
    OneMoreParam([a], b);
    assert none + [a] == [a] && [a] + [b] == [a, b];
    assert [a][..0] == none && [a, b][..1] == [a];
    assert OfKind([a], PositionalOrKeyword) == ["a"] && OfKind([a], KeywordOnly) == [] && OfKind([a], VarPositional) == [];
    assert Named([a]) == ["a"];
  }

  /** The props of a call that binds come in the order of the parameters exactly when some argument is left to
      its default, or the keywords are given in that order. */
  lemma ParameterOrderExactlyWhen<V(!new)>(sig: seq<Param<V>>, args: seq<V>, kwargs: Dict<V>, props: map<string, V>, rest: seq<V>)
    requires Planned(sig) && InKindOrder(sig) && Proper(kwargs) && Binds(sig, args, kwargs.at, props, rest)
    ensures PropsOrder(sig, args, kwargs.keys) == Named(sig) <==>
            (exists x :: x in Named(sig) && x !in Filled(OfKind(sig, PositionalOrKeyword), args) && x !in kwargs.at) ||
            InOrder(kwargs.keys, Named(sig))
  {
    var names, kw := Named(sig), kwargs.keys;
    var filled := Filled(OfKind(sig, PositionalOrKeyword), args);
    NamedParts(sig);
    NamedDistinct(sig);
    assert names[..|filled|] == filled && names == filled + names[|filled|..];
    forall k | k in kw ensures k in names && k !in filled {
      assert k in kwargs.at;
    }
    GivenDistinct(filled, kw, names);
    SomeMissing(filled + kw, names);
    if |filled + kw| == |names| {
      OrderExactly(kw, names, |filled|);
      assert filled + kw == names <==> kw == names[|filled|..];
    }
  }

  lemma {:induction false} NamedParts<V>(sig: seq<Param<V>>)
    requires InKindOrder(sig)
    ensures Named(sig) == OfKind(sig, PositionalOrKeyword) + OfKind(sig, KeywordOnly)
  {
    if sig != [] {
      var init, last := sig[..|sig| - 1], sig[|sig| - 1];
      NamedParts(init);
      if last.kind == PositionalOrKeyword { NoKeywordOnly(init); }
    }
  }

  lemma {:induction false} NoKeywordOnly<V>(sig: seq<Param<V>>)
    requires forall i :: 0 <= i < |sig| ==> sig[i].kind != KeywordOnly
    ensures OfKind(sig, KeywordOnly) == []
  {
    if sig != [] { NoKeywordOnly(sig[..|sig| - 1]); }
  }

  lemma {:induction false} NamedNames<V>(sig: seq<Param<V>>, x: string)
    requires forall i :: 0 <= i < |sig| ==> sig[i].name != x
    ensures x !in Named(sig)
  {
    if sig != [] { NamedNames(sig[..|sig| - 1], x); }
  }

  lemma {:induction false} NamedMembers<V>(sig: seq<Param<V>>)
    ensures forall x :: x in Named(sig) <==> x in OfKind(sig, PositionalOrKeyword) || x in OfKind(sig, KeywordOnly)
  {
    if sig != [] { NamedMembers(sig[..|sig| - 1]); }
  }

  lemma NewName<V>(sig: seq<Param<V>>, i: nat)
    requires i < |sig| && forall a, b :: 0 <= a < b < |sig| ==> sig[a].name != sig[b].name
    ensures sig[i].name !in Named(sig[..i]) && forall q :: q in sig[..i] ==> q.name != sig[i].name
  {
    NamedNames(sig[..i], sig[i].name);
  }

  lemma {:induction false} NamedDistinct<V>(sig: seq<Param<V>>)
    requires forall i, j :: 0 <= i < j < |sig| ==> sig[i].name != sig[j].name
    ensures Distinct(Named(sig))
  {
    if sig != [] {
      NamedDistinct(sig[..|sig| - 1]);
      NewName(sig, |sig| - 1);
    }
  }

  lemma GivenDistinct(filled: seq<string>, keywords: seq<string>, names: seq<string>)
    requires Distinct(names) && |filled| <= |names| && filled == names[..|filled|]
    requires Distinct(keywords) && forall k :: k in keywords ==> k in names && k !in filled
    ensures Distinct(filled + keywords) && forall k :: k in filled + keywords ==> k in names
  {
    var all := filled + keywords;
    forall i, j | 0 <= i < j < |all| ensures all[i] != all[j] {
      if j >= |filled| { assert all[j] == keywords[j - |filled|] && keywords[j - |filled|] in keywords; }
    }
  }

  /** Some name is missing exactly when there are fewer arguments than names. */
  lemma SomeMissing(given: seq<string>, names: seq<string>)
    requires Distinct(given) && Distinct(names) && forall k :: k in given ==> k in names
    ensures |given| != |names| <==> exists x :: x in names && x !in given
  {
    var some, all := Members(given), Members(names);
    SetSize(given);
    SetSize(names);
    assert some <= all;
    if some != all {
      StrictSubset(some, all);
      var x :| x in all && x !in some;
      assert x in names && x !in given;
    } else {
      forall x | x in names ensures x in given { assert x in all; }
    }
  }

  function Members(names: seq<string>): set<string> {
    set x | x in names
  }

  /** Keywords that stand for all the remaining names are in order exactly when they are those names. */
  lemma OrderExactly(keywords: seq<string>, names: seq<string>, k: nat)
    requires Distinct(names) && k <= |names| && |keywords| == |names| - k
    requires forall x :: x in keywords ==> x !in names[..k]
    ensures InOrder(keywords, names) <==> keywords == names[k..]
  {
    SkipTaken(keywords, names, k);
    if InOrder(keywords, names[k..]) { InOrderLength(keywords, names[k..]); }
    InOrderSelf(names[k..]);
  }

  lemma {:induction false} SkipTaken(keywords: seq<string>, names: seq<string>, k: nat)
    requires k <= |names| && forall x :: x in keywords ==> x !in names[..k]
    ensures InOrder(keywords, names) == InOrder(keywords, names[k..])
    decreases k
  {
    if k == 0 {
      assert names[0..] == names;
    } else if keywords != [] {
      assert names[..k] == [names[0]] + names[1..][..k - 1];
      assert names[k..] == names[1..][k - 1..];
      assert keywords[0] in keywords;
      SkipTaken(keywords, names[1..], k - 1);
    }
  }

  lemma {:induction false} InOrderLength(a: seq<string>, b: seq<string>)
    requires InOrder(a, b)
    ensures |a| <= |b| && (|a| == |b| ==> a == b)
  {
    if a != [] {
      if b[0] == a[0] { InOrderLength(a[1..], b[1..]); } else { InOrderLength(a, b[1..]); }
    }
  }

  lemma {:induction false} InOrderSelf(a: seq<string>)
    ensures InOrder(a, a)
  {
    if a != [] { InOrderSelf(a[1..]); }
  }

  lemma StrictSubset(a: set<string>, b: set<string>)
    requires a < b
    ensures |a| < |b|
  {
    assert b == a + (b - a);
  }

  lemma {:induction false} SetSize(names: seq<string>)
    requires Distinct(names)
    ensures |Members(names)| == |names|
  {
    if names != [] {
      SetSize(names[1..]);
      assert Members(names) == {names[0]} + Members(names[1..]);
      assert names[0] !in names[1..];
    }
  }

  lemma NoDefaultYet<V(!new)>(sig: seq<Param<V>>, name: string)
    requires forall q :: q in sig ==> q.name != name
    ensures forall v: V :: !HasDefault(sig, name, v)
  {
    assert forall i :: 0 <= i < |sig| ==> sig[i] in sig;
  }

  /** Props that hold the zipped arguments, the keywords and the defaults of the rest bind the call. */
  lemma PlanBinds<V(!new)>(sig: seq<Param<V>>, args: seq<V>, kwargs: Kwargs<V>, zipped: map<string, V>,
                           props: map<string, V>, defaults: map<string, V>)
    requires var pos := OfKind(sig, PositionalOrKeyword);
             && (|args| > |pos| ==> OfKind(sig, VarPositional) != [])
             && (forall x :: x in zipped <==> x in Filled(pos, args))
             && (forall i :: 0 <= i < |pos| && i < |args| ==> pos[i] in zipped && zipped[pos[i]] == args[i])
             && (forall x :: x in props <==> x in pos || x in OfKind(sig, KeywordOnly))
    requires forall k <- kwargs :: k !in zipped && k in props
    requires forall x <- defaults :: HasDefault(sig, x, defaults[x])
    requires forall x <- props :: if x in zipped + kwargs then props[x] == (zipped + kwargs)[x]
                                  else x in defaults && props[x] == defaults[x]
    ensures var pos := OfKind(sig, PositionalOrKeyword);
            Binds(sig, args, kwargs, props, if |args| > |pos| then args[|pos|..] else [])
  {
  }

  /** A parameter with no argument, no keyword and no default leaves the call unbound. */
  lemma MissingMeansUnbound<V(!new)>(sig: seq<Param<V>>, args: seq<V>, kwargs: Kwargs<V>,
                                     names: seq<string>, defaults: map<string, V>)
    requires forall x :: x in names <==> x in OfKind(sig, PositionalOrKeyword) || x in OfKind(sig, KeywordOnly)
    requires forall x, v :: x in names && HasDefault(sig, x, v) ==> x in defaults
    requires exists x :: x in names && x !in Filled(OfKind(sig, PositionalOrKeyword), args) && x !in kwargs && x !in defaults
    ensures forall props, rest :: !Binds(sig, args, kwargs, props, rest)
  {
    var x :| x in names && x !in Filled(OfKind(sig, PositionalOrKeyword), args) && x !in kwargs && x !in defaults;
    assert forall v: V :: !HasDefault(sig, x, v);
  }

  // -- what the render function receives --

  /** Rendering passes the function exactly what the original call would have bound, defaults filled in. */
  lemma RenderReceivesCall<V(!new)>(sig: seq<Param<V>>, args: seq<V>, kwargs: Kwargs<V>, props: map<string, V>, rest: seq<V>)
    requires Planned(sig) && Binds(sig, args, kwargs, props, rest)
    ensures var pos, kw := OfKind(sig, PositionalOrKeyword), OfKind(sig, KeywordOnly);
            if OfKind(sig, VarPositional) == [] then Binds(sig, [], props, props, rest)
            else (forall i :: 0 <= i < |pos| ==> pos[i] in props) &&
                 Binds(sig, Values(props, pos) + rest, map k | k in kw && k in props :: props[k], props, rest)
  {
    var pos, kw := OfKind(sig, PositionalOrKeyword), OfKind(sig, KeywordOnly);
    if OfKind(sig, VarPositional) != [] {
      var values := Values(props, pos);
      ValuesAt(props, pos);
      var keywords := map k | k in kw && k in props :: props[k];
      forall k | k in keywords
        ensures k !in pos
      {
        KindsDisjoint(sig, k);
      }
      RebindWithChildren(sig, values, keywords, props, rest);
    }
  }

  lemma RebindWithChildren<V(!new)>(sig: seq<Param<V>>, values: seq<V>, keywords: Kwargs<V>, props: map<string, V>, rest: seq<V>)
    requires OfKind(sig, VarPositional) != []
    requires var pos := OfKind(sig, PositionalOrKeyword);
             && |values| == |pos| && (forall i :: 0 <= i < |pos| ==> pos[i] in props && values[i] == props[pos[i]])
             && (forall x :: x in props <==> x in pos || x in OfKind(sig, KeywordOnly))
             && (forall k <- keywords :: k in props && k !in pos && keywords[k] == props[k])
             && (forall x <- props :: x !in pos ==> x in keywords)
    ensures Binds(sig, values + rest, keywords, props, rest)
  {
    var pos := OfKind(sig, PositionalOrKeyword);
    assert Filled(pos, values + rest) == pos;
    assert |values + rest| > |pos| ==> (values + rest)[|pos|..] == rest;
  }

  lemma {:induction false} ValuesAt<V>(props: map<string, V>, names: seq<string>)
    requires forall i :: 0 <= i < |names| ==> names[i] in props
    ensures |Values(props, names)| == |names|
    ensures forall i :: 0 <= i < |names| ==> Values(props, names)[i] == props[names[i]]
  {
    if names != [] { ValuesAt(props, names[..|names| - 1]); }
  }

  lemma KindsDisjoint<V(!new)>(sig: seq<Param<V>>, x: string)
    requires Planned(sig)
    ensures !(x in OfKind(sig, KeywordOnly) && x in OfKind(sig, PositionalOrKeyword))
  {
    OfKindNames(sig, KeywordOnly, x);
    OfKindNames(sig, PositionalOrKeyword, x);
  }
}
