/** The runtime side of the rules of hooks: slots by call order and the dev-mode order guard. */
module HookOrder {
  import opened PySyntax
  import opened Wrappers
  import opened LintRules
  import opened PyRuns
  import opened LintSoundness

  /** The lists a component keeps hook data in; some hooks keep none. */
  datatype Family = States | Effects | LayoutEffects | Memos | Refs | Resources | NoFamily

  datatype Slot = Slot(family: Family, index: nat)

  function FamilyOf(kind: string): Family {
    if kind == "use_state" || kind == "use_reducer" then States
    else if kind == "use_effect" then Effects
    else if kind == "use_layout_effect" then LayoutEffects
    else if kind == "use_memo" then Memos
    else if kind == "use_ref" then Refs
    else if kind == "use_resource" then Resources
    else NoFamily
  }

  /** The list each hook of the toolkit that keeps data keeps it in. */
  lemma HookLists()
    ensures FamilyOf("use_state") == FamilyOf("use_reducer") == States
    ensures FamilyOf("use_effect") == Effects && FamilyOf("use_layout_effect") == LayoutEffects
    ensures FamilyOf("use_memo") == Memos && FamilyOf("use_ref") == Refs && FamilyOf("use_resource") == Resources
    ensures FamilyOf("use_context") == NoFamily
  {
  }

  const SUBSCRIPTION := ["use_state", "use_ref", "use_ref", "use_effect"]

  /** The kinds that a call of a hook of the toolkit records, in order: its own, or those of the hooks it is made
      of. `others` says it for hooks of other modules. */
  function KindsOf(name: string, others: string -> seq<string>): seq<string> {
    if FamilyOf(name) != NoFamily || name == "use_context" then [name]
    else if name == "use_callback" || name == "use_animated_value" then ["use_memo"]
    else if name == "use_imperative_handle" then ["use_layout_effect"]
    else if name == "use_transition" then ["use_state", "use_memo"]
    else if name == "use_deferred_value" then ["use_state", "use_effect"]
    else if name == "use_subscription" || name == "use_window_dimensions" || name == "use_safe_area_insets" ||
            name == "use_keyboard_height" || name == "use_color_scheme" then SUBSCRIPTION
    else if name == "use_query" then ["use_memo", "use_ref", "use_memo", "use_memo"] + SUBSCRIPTION + ["use_memo"]
    else if name == "use_mutation" then ["use_state", "use_ref", "use_ref"]
    else if name == "use_back_handler" then ["use_ref", "use_effect"]
    else others(name)
  }

  /** What a run that calls these hooks records. */
  function Recorded(trace: seq<string>, others: string -> seq<string>): seq<string> {
    if trace == [] then [] else Recorded(trace[..|trace| - 1], others) + KindsOf(trace[|trace| - 1], others)
  }

  lemma Associate(a: seq<string>, b: seq<string>, c: seq<string>)
    ensures (a + b) + c == a + (b + c)
  {
  }

  lemma RecordedMore(trace: seq<string>, name: string, others: string -> seq<string>)
    ensures Recorded(trace + [name], others) == Recorded(trace, others) + KindsOf(name, others)
  {
    var more := trace + [name];
    assert more[..|more| - 1] == trace && more[|more| - 1] == name;
  }

  /** What two stretches of a run record stands one after the other. */
  lemma {:induction false} RecordedConcat(a: seq<string>, b: seq<string>, others: string -> seq<string>)
    ensures Recorded(a + b, others) == Recorded(a, others) + Recorded(b, others)
  {
    if b == [] {
      assert a + b == a;
    } else {
      var init, last := b[..|b| - 1], b[|b| - 1];
      assert b == init + [last];
      RecordedConcat(a, init, others);
      RecordedMore(init, last, others);
      Associate(a, init, [last]);
      RecordedMore(a + init, last, others);
      Associate(Recorded(a, others), Recorded(init, others), KindsOf(last, others));
    }
  }

  /** What a single call of a hook records. */
  function One(name: string, others: string -> seq<string>): seq<string> {
    Recorded([name], others)
  }

  lemma OneIsKinds(name: string, others: string -> seq<string>)
    ensures One(name, others) == KindsOf(name, others)
  {
    var one := [name];
    assert one[..|one| - 1] == [] && one[|one| - 1] == name;
    assert Recorded(one, others) == Recorded([], others) + KindsOf(name, others);
  }

  /** The hooks that keep data, and `use_context`, record themselves. */
  lemma RecordsItself(name: string, others: string -> seq<string>)
    requires FamilyOf(name) != NoFamily || name == "use_context"
    ensures One(name, others) == [name]
  {
    OneIsKinds(name, others);
  }

  // The other hooks record what the hooks their bodies call record, one after the other.

  lemma MemoParts(o: string -> seq<string>)
    ensures One("use_callback", o) == ["use_memo"]
    ensures One("use_animated_value", o) == ["use_memo"]
  {
    OneIsKinds("use_callback", o);
    OneIsKinds("use_animated_value", o);
  }

  lemma HandleParts(o: string -> seq<string>)
    ensures One("use_imperative_handle", o) == ["use_layout_effect"]
    ensures One("use_back_handler", o) == ["use_ref", "use_effect"]
  {
    OneIsKinds("use_imperative_handle", o);
    OneIsKinds("use_back_handler", o);
  }

  lemma TransitionParts(o: string -> seq<string>)
    ensures One("use_transition", o) == ["use_state", "use_memo"]
    ensures One("use_deferred_value", o) == ["use_state", "use_effect"]
  {
    OneIsKinds("use_transition", o);
    OneIsKinds("use_deferred_value", o);
  }

  lemma SubscriptionParts(o: string -> seq<string>)
    ensures One("use_subscription", o) == ["use_state", "use_ref", "use_ref", "use_effect"]
    ensures One("use_mutation", o) == ["use_state", "use_ref", "use_ref"]
  {
    OneIsKinds("use_subscription", o);
    OneIsKinds("use_mutation", o);
  }

  lemma QueryParts(o: string -> seq<string>)
    ensures One("use_query", o) == ["use_memo", "use_ref", "use_memo", "use_memo", "use_state", "use_ref", "use_ref", "use_effect", "use_memo"]
  {
    OneIsKinds("use_query", o);
  }

  lemma WindowParts(o: string -> seq<string>)
    ensures One("use_window_dimensions", o) == ["use_state", "use_ref", "use_ref", "use_effect"]
    ensures One("use_safe_area_insets", o) == ["use_state", "use_ref", "use_ref", "use_effect"]
  {
    OneIsKinds("use_window_dimensions", o);
    OneIsKinds("use_safe_area_insets", o);
  }

  lemma PlatformParts(o: string -> seq<string>)
    ensures One("use_keyboard_height", o) == ["use_state", "use_ref", "use_ref", "use_effect"]
    ensures One("use_color_scheme", o) == ["use_state", "use_ref", "use_ref", "use_effect"]
  {
    OneIsKinds("use_keyboard_height", o);
    OneIsKinds("use_color_scheme", o);
  }

  /** How many of the hooks called so far keep their data in `f`. */
  function Count(trace: seq<string>, f: Family): nat {
    if trace == [] then 0
    else Count(trace[..|trace| - 1], f) + if FamilyOf(trace[|trace| - 1]) == f then 1 else 0
  }

  /** The slot of each call: its list, and how many earlier calls used that list. */
  function Slots(trace: seq<string>): seq<Slot> {
    seq(|trace|, i requires 0 <= i < |trace| => Slot(FamilyOf(trace[i]), Count(trace[..i], FamilyOf(trace[i]))))
  }

  /** A render is accepted when it calls the hooks of the first completed one. */
  predicate Accepts(signature: Option<seq<string>>, trace: seq<string>) {
    signature.None? || signature.value == trace
  }

  class HookState {
    var stateIndex: nat
    var effectIndex: nat
    var layoutEffectIndex: nat
    var memoIndex: nat
    var refIndex: nat
    var resourceIndex: nat
    var hookLog: Option<seq<string>>
    var hookSignature: Option<seq<string>>

    constructor ()
      ensures hookSignature == None && hookLog == None
    {
      stateIndex, effectIndex, layoutEffectIndex := 0, 0, 0;
      memoIndex, refIndex, resourceIndex := 0, 0, 0;
      hookLog, hookSignature := None, None;
    }

    function Cursor(f: Family): nat
      reads this
    {
      match f
      case States => stateIndex
      case Effects => effectIndex
      case LayoutEffects => layoutEffectIndex
      case Memos => memoIndex
      case Refs => refIndex
      case Resources => resourceIndex
      case NoFamily => 0
    }

    /** The cursors stand where the hooks called so far have moved them. */
    ghost predicate At(trace: seq<string>)
      reads this
    {
      forall f :: f != NoFamily ==> Cursor(f) == Count(trace, f)
    }

    method BeginRender(dev: bool)
      modifies this
      ensures At([]) && hookSignature == old(hookSignature)
      ensures hookLog == if dev then Some([]) else None
    {
      stateIndex, effectIndex, layoutEffectIndex := 0, 0, 0;
      memoIndex, refIndex, resourceIndex := 0, 0, 0;
      hookLog := if dev then Some([]) else None;
    }

    /** Raises exactly when the call departs from the signature at its position. */
    method RecordHook(kind: string) returns (raised: bool)
      modifies `hookLog
      ensures hookLog == if old(hookLog).None? then None else Some(old(hookLog).value + [kind])
      ensures raised ==> hookLog.Some? && hookSignature.Some?
      ensures hookLog.Some? && hookSignature.Some? && old(hookLog).value <= hookSignature.value ==>
                (raised <==> !(hookLog.value <= hookSignature.value))
    {
      if hookLog.None? {
        return false;
      }
      var position := |hookLog.value|;
      hookLog := Some(hookLog.value + [kind]);
      if hookSignature.None? {
        return false;
      }
      if position >= |hookSignature.value| {
        return true;
      }
      return hookSignature.value[position] != kind;
    }

    /** Takes the next slot of the hook's list. */
    method TakeSlot(kind: string) returns (slot: Slot)
      modifies `stateIndex, `effectIndex, `layoutEffectIndex, `memoIndex, `refIndex, `resourceIndex
      ensures slot.family == FamilyOf(kind)
      ensures slot.family != NoFamily ==> slot.index == old(Cursor(slot.family))
      ensures forall f :: f != NoFamily ==> Cursor(f) == old(Cursor(f)) + if f == slot.family then 1 else 0
    {
      var f := FamilyOf(kind);
      slot := Slot(f, Cursor(f));
      match f
      case States => stateIndex := stateIndex + 1;
      case Effects => effectIndex := effectIndex + 1;
      case LayoutEffects => layoutEffectIndex := layoutEffectIndex + 1;
      case Memos => memoIndex := memoIndex + 1;
      case Refs => refIndex := refIndex + 1;
      case Resources => resourceIndex := resourceIndex + 1;
      case NoFamily =>
    }

    method FinishRender() returns (raised: bool)
      modifies `hookLog, `hookSignature
      ensures hookLog == None
      ensures hookSignature == if old(hookSignature).None? then old(hookLog) else old(hookSignature)
      ensures raised <==> old(hookLog).Some? && old(hookSignature).Some? && |old(hookLog).value| < |old(hookSignature).value|
    {
      var log := hookLog;
      hookLog := None;
      if log.None? {
        return false;
      }
      if hookSignature.None? {
        hookSignature := log;
        return false;
      }
      return |log.value| < |hookSignature.value|;
    }

    /** The hook calls of one body: slots are handed out until the guard raises. */
    method CallHooks(trace: seq<string>) returns (raised: bool, slots: seq<Slot>)
      requires hookLog == Some([]) && At([])
      modifies this
      ensures hookSignature == old(hookSignature)
      ensures !raised ==> hookLog == Some(trace) && SlotsMatch(slots, trace)
      ensures raised <==> hookSignature.Some? && !(trace <= hookSignature.value)
    {
      slots := [];
      for i := 0 to |trace|
        invariant hookLog == Some(trace[..i]) && At(trace[..i]) && SlotsMatch(slots, trace[..i])
        invariant hookSignature == old(hookSignature)
        invariant hookSignature.Some? ==> trace[..i] <= hookSignature.value
      {
        assert trace[..i + 1] == trace[..i] + [trace[i]];
        raised, slots := CallHook(trace[i], trace[..i], slots);
        if raised {
          return true, slots;
        }
      }
      assert trace[..|trace|] == trace;
      return false, slots;
    }

    /** One more hook call: it raises, or takes its slot. */
    method CallHook(kind: string, ghost before: seq<string>, slots: seq<Slot>) returns (raised: bool, slots': seq<Slot>)
      requires hookLog == Some(before) && At(before) && SlotsMatch(slots, before)
      requires hookSignature.Some? ==> before <= hookSignature.value
      modifies this
      ensures hookSignature == old(hookSignature)
      ensures raised <==> hookSignature.Some? && !(before + [kind] <= hookSignature.value)
      ensures !raised ==> hookLog == Some(before + [kind]) && At(before + [kind]) && SlotsMatch(slots', before + [kind])
    {
      raised := RecordHook(kind);
      if raised {
        return true, slots;
      }
      CountOne(before, kind);
      var slot := TakeSlot(kind);
      ExtendSlots(slots, before, slot, kind);
      return false, slots + [slot];
    }

    /** One dev-mode render of a body that calls the hooks of `trace`: it raises exactly when the first
        completed render called other hooks, and otherwise every call gets its slot. */
    method Render(trace: seq<string>) returns (raised: bool, slots: seq<Slot>)
      modifies this
      ensures raised <==> !Accepts(old(hookSignature), trace)
      ensures !raised ==> hookSignature == Some(trace) && SlotsMatch(slots, trace)
      ensures raised ==> hookSignature == old(hookSignature)
    {
      BeginRender(true);
      raised, slots := CallHooks(trace);
      if !raised {
        raised := FinishRender();
      }
    }
  }

  ghost predicate SlotsMatch(slots: seq<Slot>, trace: seq<string>) {
    |slots| == |trace| &&
    forall i :: 0 <= i < |trace| && FamilyOf(trace[i]) != NoFamily ==> slots[i] == Slots(trace)[i]
  }

  lemma ExtendSlots(slots: seq<Slot>, trace: seq<string>, slot: Slot, kind: string)
    requires SlotsMatch(slots, trace)
    requires slot.family == FamilyOf(kind)
    requires slot.family != NoFamily ==> slot.index == Count(trace, slot.family)
    ensures SlotsMatch(slots + [slot], trace + [kind])
  {
    var more := trace + [kind];
    assert more[..|trace|] == trace;
    forall i | 0 <= i < |trace|
      ensures Slots(more)[i] == Slots(trace)[i]
    {
      assert more[..i] == trace[..i];
    }
  }

  /** Renders of an accepted component never trip the guard, whatever each run does: the kinds that one run
      records accept those of every other run, and each of them lands in the slot it had before. */
  lemma CleanNeverRaises(m: Block, w: World, body: Block, others: string -> seq<string>, o: Oracle, f: nat, o': Oracle, f': nat)
    requires LintB(m, MODULE).findings == [] && UnseenB(m, MODULE) == [] && AllSteady(m)
    requires Linked(m, w) && OwnerInB(m, body)
    requires Complete(RunB(body, w, o, 0, f)) && Complete(RunB(body, w, o', 0, f'))
    ensures var t, t' := Recorded(RunB(body, w, o, 0, f).trace, others), Recorded(RunB(body, w, o', 0, f').trace, others);
            Accepts(Some(t), t') && Slots(t) == Slots(t')
  {
    CheckerSound(m, w, body, o, 0, f, o', 0, f');
  }

  /** Two hook calls of one render never share a slot. */
  lemma {:induction false} SlotsDistinct(trace: seq<string>, i: nat, j: nat)
    requires i < j < |trace| && FamilyOf(trace[i]) == FamilyOf(trace[j])
    ensures Slots(trace)[i].index < Slots(trace)[j].index
  {
    CountGrows(trace, FamilyOf(trace[i]), i + 1, j);
    assert trace[..i + 1][..i] == trace[..i];
  }

  lemma CountOne(trace: seq<string>, kind: string)
    ensures forall f :: Count(trace + [kind], f) == Count(trace, f) + if FamilyOf(kind) == f then 1 else 0
  {
    CountStep(trace + [kind], |trace|);
    assert (trace + [kind])[..|trace|] == trace && (trace + [kind])[..|trace| + 1] == trace + [kind];
  }

  lemma CountStep(trace: seq<string>, i: nat)
    requires i < |trace|
    ensures forall f :: Count(trace[..i + 1], f) == Count(trace[..i], f) + if FamilyOf(trace[i]) == f then 1 else 0
  {
    assert trace[..i + 1][..i] == trace[..i];
  }

  lemma {:induction false} CountGrows(trace: seq<string>, f: Family, i: nat, j: nat)
    requires i <= j <= |trace|
    ensures Count(trace[..i], f) <= Count(trace[..j], f)
    decreases j - i
  {
    if i < j {
      CountGrows(trace, f, i, j - 1);
      assert trace[..j][..j - 1] == trace[..j - 1];
    }
  }
}
