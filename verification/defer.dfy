/** Calling a function before all its arguments are known (new_defer.py).

    An argument may be the `ExpectsParameter` sentinel. The `parametrize` wrapper binds a call
    strictly; if some bound slot holds the sentinel it returns a deferred call holding the
    binding instead of calling the function. Calling the deferred call later binds the new
    arguments partially, merges them into the stored binding (`MyBound.resolve_placeholders`),
    validates the result and only then calls the function. */
module Defer {
  import opened Base
  import opened PyDict
  import opened Signature

  /** An argument value: the `ExpectsParameter` sentinel with its optional name, or any other
      object. */
  datatype Arg = Placeholder(name: Option<string>) | Concrete(obj: Obj)

  /** `_is_placeholder` applied to a bound slot. The `*args` tuple and the `**kwargs` dict are
      never the sentinel themselves, whatever they contain. */
  predicate IsPlaceholderSlot(s: Slot<Arg>) {
    s.Single? && s.value.Placeholder?
  }

  function AnyPlaceholder(keys: seq<string>, b: Bound<Arg>): bool
    requires forall k :: k in keys ==> k in b.items
  {
    keys != [] && (IsPlaceholderSlot(b.items[keys[0]]) || AnyPlaceholder(keys[1..], b))
  }

  lemma {:induction false} AnyPlaceholderExists(keys: seq<string>, b: Bound<Arg>)
    requires forall k :: k in keys ==> k in b.items
    ensures AnyPlaceholder(keys, b) <==> exists k :: k in keys && IsPlaceholderSlot(b.items[k])
  {
    if keys != [] {
      AnyPlaceholderExists(keys[1..], b);
      assert forall k :: k in keys <==> k == keys[0] || k in keys[1..];
    }
  }

  /** `_has_placeholders`: true exactly when some top-level bound value is the sentinel. A
      sentinel inside the `*args` tuple or the `**kwargs` dict is not seen. */
  function HasPlaceholders(b: Bound<Arg>): (r: bool)
    ensures r <==> exists k :: k in b.items && IsPlaceholderSlot(b.items[k])
  {
    AnyPlaceholderExists(b.order, b);
    AnyPlaceholder(b.order, b)
  }

  /** The names of the slots holding the sentinel, in binding order. */
  function PlaceholderNames(b: Bound<Arg>): (names: seq<string>)
    ensures forall k :: k in names <==> k in b.items && IsPlaceholderSlot(b.items[k])
    ensures Distinct(names)
    ensures SubseqOf(names, b.order)
  {
    SelectKeys(b.order, b.items, (k: string, s: Slot<Arg>) => IsPlaceholderSlot(s))
  }

  function CountPlaceholders(xs: seq<Arg>): nat {
    if xs == [] then 0 else (if xs[0].Placeholder? then 1 else 0) + CountPlaceholders(xs[1..])
  }

  /** The exceptions merging can raise: `IndexError` from popping an empty list, `TypeError`
      from iterating a slot that is not a tuple, `AttributeError` from calling `update` on a
      slot that is not a dict, `TypeError` from updating a dict with something that is not a
      mapping. */
  datatype MergeError = PopFromEmptyList | NotIterable(slot: string) | NoUpdate(slot: string) | NotMapping(slot: string)

  /** The comprehension of new_defer.py:32 over `items`, where `supply` is the list popped from:
      each sentinel takes the last element still in `supply`. */
  function RewriteArgs(items: seq<Arg>, supply: seq<Arg>): (r: Result<seq<Arg>, MergeError>)
    ensures r.Ok? <==> CountPlaceholders(items) <= |supply|
    ensures r.Err? ==> r.error == PopFromEmptyList
    ensures r.Ok? ==> |r.value| == |items|
    decreases |items|
  {
    if items == [] then Ok([])
    else if items[0].Placeholder? then
      if supply == [] then Err(PopFromEmptyList)
      else
        var rest :- RewriteArgs(items[1..], supply[..|supply| - 1]);
        Ok([supply[|supply| - 1]] + rest)
    else
      var rest :- RewriteArgs(items[1..], supply);
      Ok([items[0]] + rest)
  }

  lemma CountPrefixStep(items: seq<Arg>, i: int)
    requires 0 < i <= |items|
    ensures CountPlaceholders(items[..i])
         == (if items[0].Placeholder? then 1 else 0) + CountPlaceholders(items[1..][..i - 1])
  {
    assert items[..i][1..] == items[1..][..i - 1];
  }

  lemma {:induction false} CountPrefixBelow(items: seq<Arg>, i: int)
    requires 0 <= i < |items| && items[i].Placeholder?
    ensures CountPlaceholders(items[..i]) < CountPlaceholders(items)
  {
    if i > 0 {
      CountPrefixStep(items, i);
      assert items[1..][i - 1] == items[i];
      CountPrefixBelow(items[1..], i - 1);
    }
  }

  /** The rewrite of the `*args` list keeps its length and every non-sentinel entry in place;
      the sentinels are filled from the end of `supply` backwards, the first sentinel taking the
      last element. */
  lemma {:induction false} RewriteArgsPositions(items: seq<Arg>, supply: seq<Arg>)
    requires RewriteArgs(items, supply).Ok?
    ensures var r := RewriteArgs(items, supply).value;
      && (forall i :: 0 <= i < |items| && !items[i].Placeholder? ==> r[i] == items[i])
      && (forall i :: 0 <= i < |items| && items[i].Placeholder? ==>
            CountPlaceholders(items[..i]) < |supply| &&
            r[i] == supply[|supply| - 1 - CountPlaceholders(items[..i])])
    decreases |items|
  {
    if items != [] {
      var r := RewriteArgs(items, supply).value;
      var supply' := if items[0].Placeholder? then supply[..|supply| - 1] else supply;
      RewriteArgsPositions(items[1..], supply');
      var r' := RewriteArgs(items[1..], supply').value;
      assert r == (if items[0].Placeholder? then [supply[|supply| - 1]] else [items[0]]) + r';
      forall i | 0 <= i < |items|
        ensures !items[i].Placeholder? ==> r[i] == items[i]
        ensures items[i].Placeholder? ==>
          CountPlaceholders(items[..i]) < |supply| &&
          r[i] == supply[|supply| - 1 - CountPlaceholders(items[..i])]
      {
        if items[i].Placeholder? {
          CountPrefixBelow(items, i);
        }
        if i > 0 {
          assert items[1..][i - 1] == items[i];
          assert r[i] == r'[i - 1];
          CountPrefixStep(items, i);
        } else {
          assert items[..0] == [];
        }
      }
    }
  }

  lemma {:induction false} NoPlaceholderAt(xs: seq<Arg>, i: int)
    requires CountPlaceholders(xs) == 0 && 0 <= i < |xs|
    ensures !xs[i].Placeholder?
  {
    if i > 0 {
      assert xs[1..][i - 1] == xs[i];
      NoPlaceholderAt(xs[1..], i - 1);
    }
  }

  /** A list with no sentinel comes back unchanged, whatever is supplied. */
  lemma RewriteConcrete(items: seq<Arg>, supply: seq<Arg>)
    requires CountPlaceholders(items) == 0
    ensures RewriteArgs(items, supply) == Ok(items)
  {
    RewriteArgsPositions(items, supply);
    var r := RewriteArgs(items, supply).value;
    forall i | 0 <= i < |items|
      ensures r[i] == items[i]
    {
      NoPlaceholderAt(items, i);
    }
    assert r == items;
  }

  /** `list(slot)`: a tuple can be iterated; a lone value is taken not to be iterable. */
  function Elements(s: Slot<Arg>, key: string): Result<seq<Arg>, MergeError> {
    if s.Many? then Ok(s.items) else Err(NotIterable(key))
  }

  /** new_defer.py:30-32, run on `m`, the stored binding after `update`. The slot is found
      only under the literal name "args". */
  function ArgsStep(m: Bound<Arg>, supp: Bound<Arg>): (r: Result<Bound<Arg>, MergeError>)
    ensures r.Ok? ==> r.value.order == m.order && r.value.items.Keys == m.items.Keys
    ensures r.Ok? ==> forall k :: k in m.items && k != "args" ==> r.value.items[k] == m.items[k]
    ensures r.Ok? && "args" in m.items ==> r.value.items["args"].Many?
    ensures r.Err? ==> "args" in m.items
  {
    if "args" !in m.items then Ok(m)
    else
      var supply :- if "args" in supp.items then Elements(supp.items["args"], "args") else Ok([]);
      var current :- Elements(m.items["args"], "args");
      var rewritten :- RewriteArgs(current, supply);
      Ok(Set(m, "args", Many(rewritten)))
  }

  /** new_defer.py:33-35. The slot is found only under the literal name "kwargs". */
  function KwargsStep(m: Bound<Arg>, supp: Bound<Arg>): (r: Result<Bound<Arg>, MergeError>)
    ensures r.Ok? ==> r.value.order == m.order && r.value.items.Keys == m.items.Keys
    ensures r.Ok? ==> forall k :: k in m.items && k != "kwargs" ==> r.value.items[k] == m.items[k]
    ensures r.Ok? && "kwargs" in m.items ==> r.value.items["kwargs"].Keywords?
    ensures r.Err? ==> "kwargs" in m.items
  {
    if "kwargs" !in m.items then Ok(m)
    else if !m.items["kwargs"].Keywords? then Err(NoUpdate("kwargs"))
    else if "kwargs" in supp.items && !supp.items["kwargs"].Keywords? then Err(NotMapping("kwargs"))
    else
      var extra := if "kwargs" in supp.items then supp.items["kwargs"].entries else Empty();
      Ok(Set(m, "kwargs", Keywords(Update(m.items["kwargs"].entries, extra))))
  }

  /** `MyBound.resolve_placeholders`: `update` with the supplement (which overwrites every slot
      it binds, concrete or not), then the `*args` rewrite, then the `**kwargs` merge. */
  function Merge(stored: Bound<Arg>, supp: Bound<Arg>): (r: Result<Bound<Arg>, MergeError>)
    ensures r.Ok? ==> r.value.items.Keys == stored.items.Keys + supp.items.Keys
    ensures r.Ok? ==> r.value.order == stored.order + Fresh(supp.order, stored.items.Keys)
    ensures r.Err? ==> "args" in stored.items || "args" in supp.items || "kwargs" in stored.items || "kwargs" in supp.items
  {
    var m := Update(stored, supp);
    var m1 :- ArgsStep(m, supp);
    KwargsStep(m1, supp)
  }

  lemma ArgsStepFrame(m: Bound<Arg>, supp: Bound<Arg>)
    requires ArgsStep(m, supp).Ok?
    ensures var r := ArgsStep(m, supp).value;
      && r.order == m.order
      && r.items.Keys == m.items.Keys
      && (forall k :: k in m.items && k != "args" ==> r.items[k] == m.items[k])
      && ("args" in m.items ==> m.items["args"].Many? && r.items["args"].Many?)
  {
  }

  lemma KwargsStepFrame(m: Bound<Arg>, supp: Bound<Arg>)
    requires KwargsStep(m, supp).Ok?
    ensures var r := KwargsStep(m, supp).value;
      && r.order == m.order
      && r.items.Keys == m.items.Keys
      && (forall k :: k in m.items && k != "kwargs" ==> r.items[k] == m.items[k])
      && ("kwargs" in m.items ==> m.items["kwargs"].Keywords? && r.items["kwargs"].Keywords?)
  {
  }

  /** Without `*args` or `**kwargs` slots on either side, merging is just `update`. */
  lemma MergeWithoutVariadic(stored: Bound<Arg>, supp: Bound<Arg>)
    requires "args" !in stored.items && "args" !in supp.items
    requires "kwargs" !in stored.items && "kwargs" !in supp.items
    ensures Merge(stored, supp) == Ok(Update(stored, supp))
  {
    var m := Update(stored, supp);
    assert "args" !in m.items && "kwargs" !in m.items;
    assert ArgsStep(m, supp) == Ok(m);
  }

  /** When the supplement binds a sentinel-free `*args` tuple and neither side has `**kwargs`,
      merging is just `update`: the rewrite finds nothing to fill. */
  lemma MergeConcreteArgs(stored: Bound<Arg>, supp: Bound<Arg>)
    requires "args" in supp.items && supp.items["args"].Many?
    requires CountPlaceholders(supp.items["args"].items) == 0
    requires "kwargs" !in stored.items && "kwargs" !in supp.items
    ensures Merge(stored, supp) == Ok(Update(stored, supp))
  {
    var m := Update(stored, supp);
    var xs := supp.items["args"].items;
    assert m.items["args"] == Many(xs);
    RewriteConcrete(xs, xs);
    SetSame(m, "args", Many(xs));
    assert ArgsStep(m, supp) == Ok(m);
  }

  /** The merge keeps every stored slot where it was and appends the supplement's new slots
      after them, so no slot is removed. Every named slot the supplement binds takes the
      supplement's value, whether the stored value was the sentinel or not; every other named
      slot keeps its stored value. */
  lemma MergeFrame(stored: Bound<Arg>, supp: Bound<Arg>)
    requires Merge(stored, supp).Ok?
    ensures var r := Merge(stored, supp).value;
      && r.order == stored.order + Fresh(supp.order, stored.items.Keys)
      && r.items.Keys == stored.items.Keys + supp.items.Keys
      && (forall k :: k in supp.items && k != "args" && k != "kwargs" ==> r.items[k] == supp.items[k])
      && (forall k :: k in stored.items && k !in supp.items && k != "args" && k != "kwargs" ==>
            r.items[k] == stored.items[k])
  {
    var m := Update(stored, supp);
    ArgsStepFrame(m, supp);
    KwargsStepFrame(ArgsStep(m, supp).value, supp);
  }

  /** The net effect of the merge on `*args`: when the supplement binds it, its own tuple
      replaces the stored one and is then rewritten against itself, so a sentinel inside it is
      filled from the same tuple's end, and a sentinel-free tuple comes through unchanged; when
      it does not, the stored tuple is kept, and any sentinel in it makes the merge pop an empty
      list. */
  lemma MergeArgs(stored: Bound<Arg>, supp: Bound<Arg>)
    requires "args" !in stored.items || stored.items["args"].Many?
    requires "args" !in supp.items || supp.items["args"].Many?
    requires "kwargs" !in stored.items || stored.items["kwargs"].Keywords?
    requires "kwargs" !in supp.items || supp.items["kwargs"].Keywords?
    ensures "args" in supp.items ==>
      var t := supp.items["args"].items;
      && (Merge(stored, supp).Ok? <==> RewriteArgs(t, t).Ok?)
      && (Merge(stored, supp).Ok? ==> Merge(stored, supp).value.items["args"] == Many(RewriteArgs(t, t).value))
    ensures "args" in supp.items && CountPlaceholders(supp.items["args"].items) == 0 ==>
      Merge(stored, supp).Ok? && Merge(stored, supp).value.items["args"] == supp.items["args"]
    ensures "args" !in supp.items && "args" in stored.items ==>
      (Merge(stored, supp).Ok? <==> CountPlaceholders(stored.items["args"].items) == 0)
    ensures "args" !in supp.items && "args" in stored.items && Merge(stored, supp).Ok? ==>
      Merge(stored, supp).value.items["args"] == stored.items["args"]
    ensures "args" !in supp.items && "args" in stored.items && Merge(stored, supp).Err? ==>
      Merge(stored, supp).error == PopFromEmptyList
  {
    var m := Update(stored, supp);
    if "args" in m.items {
      var xs := m.items["args"].items;
      var supply := if "args" in supp.items then xs else [];
      assert RewriteArgs(xs, supply).Err? ==> ArgsStep(m, supp) == Err(PopFromEmptyList);
      assert RewriteArgs(xs, supply).Ok? ==>
        ArgsStep(m, supp) == Ok(Set(m, "args", Many(RewriteArgs(xs, supply).value)));
      if RewriteArgs(xs, supply).Ok? {
        ArgsStepKeepsKwargs(m, supp);
      }
      if CountPlaceholders(xs) == 0 {
        RewriteConcrete(xs, supply);
      }
    }
  }

  /** A successful `*args` rewrite leaves a well-formed `**kwargs` slot for the next step. */
  lemma ArgsStepKeepsKwargs(m: Bound<Arg>, supp: Bound<Arg>)
    requires "args" in supp.items ==> "args" in m.items && m.items["args"] == supp.items["args"]
    requires "kwargs" in supp.items ==> "kwargs" in m.items && m.items["kwargs"] == supp.items["kwargs"]
    requires "kwargs" !in m.items || m.items["kwargs"].Keywords?
    requires ArgsStep(m, supp).Ok?
    ensures KwargsStep(ArgsStep(m, supp).value, supp).Ok?
    ensures "args" in m.items ==>
      KwargsStep(ArgsStep(m, supp).value, supp).value.items["args"] == ArgsStep(m, supp).value.items["args"]
  {
    ArgsStepFrame(m, supp);
    KwargsStepFrame(ArgsStep(m, supp).value, supp);
  }

  /** The net effect of the merge on `**kwargs`: the supplement's dict, if it binds one,
      replaces the stored dict; otherwise the stored dict is kept. */
  lemma MergeKwargs(stored: Bound<Arg>, supp: Bound<Arg>)
    requires Merge(stored, supp).Ok?
    ensures "kwargs" in supp.items ==> Merge(stored, supp).value.items["kwargs"] == supp.items["kwargs"]
    ensures "kwargs" !in supp.items && "kwargs" in stored.items ==>
      Merge(stored, supp).value.items["kwargs"] == stored.items["kwargs"]
  {
    var m := Update(stored, supp);
    ArgsStepFrame(m, supp);
    var m1 := ArgsStep(m, supp).value;
    if "kwargs" in m1.items {
      var cur := m1.items["kwargs"].entries;
      if "kwargs" in supp.items {
        UpdateSelf(cur);
      } else {
        assert Update(cur, Empty()) == cur;
      }
    }
  }

  lemma UpdateWellShaped<A>(ps: seq<Param>, a: Bound<A>, b: Bound<A>)
    requires WellShaped(ps, a) && WellShaped(ps, b)
    ensures WellShaped(ps, Update(a, b))
  {
  }

  lemma ArgsStepWellShaped(ps: seq<Param>, m: Bound<Arg>, supp: Bound<Arg>)
    requires WellShaped(ps, m)
    requires ArgsStep(m, supp).Ok?
    ensures WellShaped(ps, ArgsStep(m, supp).value)
  {
  }

  lemma KwargsStepWellShaped(ps: seq<Param>, m: Bound<Arg>, supp: Bound<Arg>)
    requires WellShaped(ps, m)
    requires KwargsStep(m, supp).Ok?
    ensures WellShaped(ps, KwargsStep(m, supp).value)
  {
    if "kwargs" in m.items {
      var extra := if "kwargs" in supp.items then supp.items["kwargs"].entries else Empty();
      SetWellShaped(ps, m, "kwargs", Keywords(Update(m.items["kwargs"].entries, extra)));
    }
  }

  /** Replacing a slot by one of the same shape keeps a binding well-shaped. */
  lemma SetWellShaped<A>(ps: seq<Param>, m: Bound<A>, k: string, v: Slot<A>)
    requires WellShaped(ps, m) && k in m.items
    requires Fits(KindOf(ps, k).value, v)
    ensures WellShaped(ps, Set(m, k, v))
  {
  }

  /** Merging two bindings of the same signature gives a binding of that signature. */
  lemma MergeWellShaped(ps: seq<Param>, stored: Bound<Arg>, supp: Bound<Arg>)
    requires WellShaped(ps, stored) && WellShaped(ps, supp)
    requires Merge(stored, supp).Ok?
    ensures WellShaped(ps, Merge(stored, supp).value)
  {
    var m := Update(stored, supp);
    UpdateWellShaped(ps, stored, supp);
    ArgsStepWellShaped(ps, m, supp);
    KwargsStepWellShaped(ps, ArgsStep(m, supp).value, supp);
  }

  datatype PendingCall = PendingCall(fnName: string, sig: Signature, bound: Bound<Arg>)

  /** A `_DeferredCall`: the wrapped function's name and signature and the strict binding of
      the call that contained a sentinel. */
  type DeferredCall = d: PendingCall | WellShaped(d.sig, d.bound) witness PendingCall("", [], Empty())

  /** A `_DeferredCall` is itself an `ExpectsParameter`, named after the function it defers. */
  function AsArgument(d: DeferredCall): Arg {
    Placeholder(Some("deferred_" + d.fnName))
  }

  /** What calling the wrapper gives: the function's own result, or a deferred call. */
  datatype Invocation<R> = Returned(value: R) | Deferred(call: DeferredCall)

  /** The `wrapper` of `parametrize(fn)` called with `*pos, **kw`. */
  function Invoke<R>(fnName: string, sig: Signature, fn: Call<Arg> -> R,
                     pos: seq<Arg>, kw: Dict<Arg>): (r: Result<Invocation<R>, BindError>)
    ensures Bind(sig, pos, kw, false).Err? ==> r == Err(Bind(sig, pos, kw, false).error)
    ensures r.Ok? && r.value.Returned? ==>
      && r.value.value == fn(Call(pos, kw))
      && forall k :: k in Bind(sig, pos, kw, false).value.items ==>
           !IsPlaceholderSlot(Bind(sig, pos, kw, false).value.items[k])
    ensures r.Ok? && r.value.Deferred? ==>
      && r.value.call == PendingCall(fnName, sig, Bind(sig, pos, kw, false).value)
      && exists k :: k in r.value.call.bound.items && IsPlaceholderSlot(r.value.call.bound.items[k])
  {
    var bound :- Bind(sig, pos, kw, false);
    BindWellShaped(sig, pos, kw, false);
    if HasPlaceholders(bound) then Ok(Deferred(PendingCall(fnName, sig, bound)))
    else Ok(Returned(fn(Call(pos, kw))))
  }

  /** Calling the wrapper returns the function's result exactly when no top-level bound value is
      the sentinel; otherwise it returns a deferred call and the function's result is nowhere
      in what it returns. */
  lemma InvokeDefersIffPlaceholder<R>(fnName: string, sig: Signature, fn: Call<Arg> -> R,
                                      pos: seq<Arg>, kw: Dict<Arg>)
    requires Bind(sig, pos, kw, false).Ok?
    ensures var b := Bind(sig, pos, kw, false).value;
      && Invoke(fnName, sig, fn, pos, kw).Ok?
      && (Invoke(fnName, sig, fn, pos, kw).value.Deferred? <==>
            exists k :: k in b.items && IsPlaceholderSlot(b.items[k]))
      && (Invoke(fnName, sig, fn, pos, kw).value.Returned? <==>
            forall k :: k in b.items ==> !IsPlaceholderSlot(b.items[k]))
  {
  }

  /** A `_DeferredCall` is itself an `ExpectsParameter`: passed as a named argument to a
      wrapped function, it defers that call too. */
  lemma DeferredArgumentDefers<R>(d: DeferredCall, fnName: string, sig: Signature, fn: Call<Arg> -> R,
                                  pos: seq<Arg>, kw: Dict<Arg>, k: string)
    requires Bind(sig, pos, kw, false).Ok?
    requires k in Bind(sig, pos, kw, false).value.items
    requires Bind(sig, pos, kw, false).value.items[k] == Single(AsArgument(d))
    ensures Invoke(fnName, sig, fn, pos, kw).Ok? && Invoke(fnName, sig, fn, pos, kw).value.Deferred?
  {
    InvokeDefersIffPlaceholder(fnName, sig, fn, pos, kw);
  }

  /** The exceptions completing a deferred call can raise. */
  datatype CompletionError =
    | BindFailed(bindError: BindError)
    | NestedPlaceholder
    | MergeFailed(mergeError: MergeError)
    | TooManyArguments
    | MissingArguments(names: seq<string>)

  /** `_DeferredCall.__call__(*pos, **kw)`, with `copy` an independent copy of the stored
      binding: bind partially, refuse a sentinel, merge, refuse new slots, refuse a remaining
      sentinel (naming the stored binding's sentinel slots), then call `fn`. */
  function Complete<R>(fn: Call<Arg> -> R, d: DeferredCall, pos: seq<Arg>, kw: Dict<Arg>): (r: Result<R, CompletionError>)
    ensures Bind(d.sig, pos, kw, true).Err? ==> r == Err(BindFailed(Bind(d.sig, pos, kw, true).error))
    ensures r.Err? && r.error.MissingArguments? ==> r.error.names == PlaceholderNames(d.bound)
    ensures r.Ok? ==>
      && Bind(d.sig, pos, kw, true).Ok?
      && Merge(d.bound, Bind(d.sig, pos, kw, true).value).Ok?
      && WellShaped(d.sig, Merge(d.bound, Bind(d.sig, pos, kw, true).value).value)
      && r.value == fn(CallOf(d.sig, Merge(d.bound, Bind(d.sig, pos, kw, true).value).value))
  {
    match Bind(d.sig, pos, kw, true)
    case Err(e) => Err(BindFailed(e))
    case Ok(extra) =>
      if HasPlaceholders(extra) then Err(NestedPlaceholder)
      else match Merge(d.bound, extra)
        case Err(e) => Err(MergeFailed(e))
        case Ok(completed) =>
          if |completed.order| > |d.bound.order| then Err(TooManyArguments)
          else if HasPlaceholders(completed) then Err(MissingArguments(PlaceholderNames(d.bound)))
          else
            BindWellShaped(d.sig, pos, kw, true);
            MergeWellShaped(d.sig, d.bound, extra);
            Ok(fn(CallOf(d.sig, completed)))
  }

  /** The merged binding has more slots than the stored one exactly when the supplement binds
      a slot the stored binding lacks. */
  lemma MoreSlotsIffNewSlot(stored: Bound<Arg>, supp: Bound<Arg>)
    requires Merge(stored, supp).Ok?
    ensures |Merge(stored, supp).value.order| > |stored.order| <==>
      exists k :: k in supp.items && k !in stored.items
  {
    MergeFrame(stored, supp);
    LongerIffFresh(stored, supp, Merge(stored, supp).value.order);
  }

  lemma LongerIffFresh(stored: Bound<Arg>, supp: Bound<Arg>, order: seq<string>)
    requires order == stored.order + Fresh(supp.order, stored.items.Keys)
    ensures |order| > |stored.order| <==> exists k :: k in supp.items && k !in stored.items
  {
    var f := Fresh(supp.order, stored.items.Keys);
    FreshMembers(supp.order, stored.items.Keys);
    if |f| > 0 {
      assert f[0] in f;
    }
    if exists k :: k in supp.items && k !in stored.items {
      var k :| k in supp.items && k !in stored.items;
      assert k in supp.order;
      assert k in f;
    }
  }

  /** One slot of a successful merge: a named slot holds the supplement's value if it binds
      one and the stored value otherwise; `*args` holds a tuple and `**kwargs` a dict, and so
      did the stored slot when the supplement did not bind it. */
  lemma MergedSlot(stored: Bound<Arg>, supp: Bound<Arg>, k: string)
    requires Merge(stored, supp).Ok?
    requires k in Merge(stored, supp).value.items
    ensures var r := Merge(stored, supp).value;
      && (k != "args" && k != "kwargs" ==>
            r.items[k] == if k in supp.items then supp.items[k] else stored.items[k])
      && (k == "args" ==> r.items[k].Many? && (k !in supp.items ==> stored.items[k].Many?))
      && (k == "kwargs" ==> r.items[k].Keywords? && (k !in supp.items ==> stored.items[k].Keywords?))
  {
    MergeFrame(stored, supp);
    var m := Update(stored, supp);
    ArgsStepFrame(m, supp);
    KwargsStepFrame(ArgsStep(m, supp).value, supp);
  }

  /** After a successful merge of a sentinel-free supplement, a slot holds the sentinel exactly
      when the stored slot did and the supplement left it alone. */
  lemma MergedPlaceholders(stored: Bound<Arg>, supp: Bound<Arg>)
    requires Merge(stored, supp).Ok?
    requires !HasPlaceholders(supp)
    ensures forall k :: k in Merge(stored, supp).value.items ==>
      (IsPlaceholderSlot(Merge(stored, supp).value.items[k]) <==>
         k in stored.items && IsPlaceholderSlot(stored.items[k]) && k !in supp.items)
  {
    var r := Merge(stored, supp).value;
    MergeFrame(stored, supp);
    forall k | k in r.items
      ensures IsPlaceholderSlot(r.items[k]) <==>
        k in stored.items && IsPlaceholderSlot(stored.items[k]) && k !in supp.items
    {
      MergedSlot(stored, supp, k);
    }
  }

  /** What completing a deferred call gives, case by case:
      - a `TypeError` of `bind_partial` is raised as is;
      - a sentinel among the new top-level values raises before anything is merged;
      - an exception of the merge (an empty list popped, say) is raised as is;
      - "Too many arguments" exactly when the new values bind a slot the stored binding lacks;
      - "Missing argument(s)", naming every stored sentinel slot, exactly when some stored
        sentinel slot was not supplied;
      - otherwise `fn` is called with the merged binding, in which every stored sentinel slot
        was supplied. */
  lemma CompleteOutcomes<R>(fn: Call<Arg> -> R, d: DeferredCall, pos: seq<Arg>, kw: Dict<Arg>)
    ensures Bind(d.sig, pos, kw, true).Err? ==>
      Complete(fn, d, pos, kw) == Err(BindFailed(Bind(d.sig, pos, kw, true).error))
    ensures Bind(d.sig, pos, kw, true).Ok? ==>
      var extra := Bind(d.sig, pos, kw, true).value;
      var r := Complete(fn, d, pos, kw);
      && (r == Err(NestedPlaceholder) <==> exists k :: k in extra.items && IsPlaceholderSlot(extra.items[k]))
      && (!HasPlaceholders(extra) && Merge(d.bound, extra).Err? ==> r == Err(MergeFailed(Merge(d.bound, extra).error)))
      && (!HasPlaceholders(extra) && Merge(d.bound, extra).Ok? ==>
           && (r == Err(TooManyArguments) <==> exists k :: k in extra.items && k !in d.bound.items)
           && ((forall k :: k in extra.items ==> k in d.bound.items) ==>
                 (r.Err? <==> exists k :: k in d.bound.items && IsPlaceholderSlot(d.bound.items[k]) && k !in extra.items))
           && (r.Err? && r.error.MissingArguments? ==> r.error.names == PlaceholderNames(d.bound))
           && (r.Ok? ==>
                 && (forall k :: k in d.bound.items && IsPlaceholderSlot(d.bound.items[k]) ==> k in extra.items)
                 && WellShaped(d.sig, Merge(d.bound, extra).value)
                 && r.value == fn(CallOf(d.sig, Merge(d.bound, extra).value))))
  {
    if Bind(d.sig, pos, kw, true).Ok? {
      CompleteOutcomesBound(fn, d, pos, kw);
    }
  }

  /** The outcomes of completion once the supplement has bound. */
  lemma CompleteOutcomesBound<R>(fn: Call<Arg> -> R, d: DeferredCall, pos: seq<Arg>, kw: Dict<Arg>)
    requires Bind(d.sig, pos, kw, true).Ok?
    ensures var extra := Bind(d.sig, pos, kw, true).value;
      var r := Complete(fn, d, pos, kw);
      && (r == Err(NestedPlaceholder) <==> exists k :: k in extra.items && IsPlaceholderSlot(extra.items[k]))
      && (!HasPlaceholders(extra) && Merge(d.bound, extra).Ok? ==>
           && (r == Err(TooManyArguments) <==> exists k :: k in extra.items && k !in d.bound.items)
           && ((forall k :: k in extra.items ==> k in d.bound.items) ==>
                 (r.Err? <==> exists k :: k in d.bound.items && IsPlaceholderSlot(d.bound.items[k]) && k !in extra.items))
           && (r.Err? && r.error.MissingArguments? ==> r.error.names == PlaceholderNames(d.bound))
           && (r.Ok? ==>
                 && (forall k :: k in d.bound.items && IsPlaceholderSlot(d.bound.items[k]) ==> k in extra.items)
                 && WellShaped(d.sig, Merge(d.bound, extra).value)
                 && r.value == fn(CallOf(d.sig, Merge(d.bound, extra).value))))
  {
    var extra := Bind(d.sig, pos, kw, true).value;
    if !HasPlaceholders(extra) && Merge(d.bound, extra).Ok? {
      MoreSlotsIffNewSlot(d.bound, extra);
      MergeFrame(d.bound, extra);
      MergedPlaceholders(d.bound, extra);
      BindWellShaped(d.sig, pos, kw, true);
      MergeWellShaped(d.sig, d.bound, extra);
      var completed := Merge(d.bound, extra).value;
      forall k | k in d.bound.items && IsPlaceholderSlot(d.bound.items[k]) && k !in extra.items
        ensures k in completed.items && IsPlaceholderSlot(completed.items[k])
      {
        assert k in completed.items.Keys;
      }
    }
  }

  /** Completion once the supplement `extra` is known to carry no sentinel and to merge into
      `merged` without adding a slot or leaving a sentinel: the function runs on `merged`. */
  lemma CompleteAfterMerge<R>(fn: Call<Arg> -> R, d: DeferredCall, pos: seq<Arg>, kw: Dict<Arg>,
                              extra: Bound<Arg>, merged: Bound<Arg>)
    requires Bind(d.sig, pos, kw, true) == Ok(extra) && !HasPlaceholders(extra)
    requires Merge(d.bound, extra) == Ok(merged)
    requires |merged.order| <= |d.bound.order| && !HasPlaceholders(merged)
    ensures WellShaped(d.sig, merged)
    ensures Complete(fn, d, pos, kw) == Ok(fn(CallOf(d.sig, merged)))
  {
    BindWellShaped(d.sig, pos, kw, true);
    MergeWellShaped(d.sig, d.bound, extra);
  }

  /** `_DeferredCall.__call__` as CPython runs it: `copy` and `from_bound` pass the same dict,
      so the merge rewrites the stored binding in place, also when it then raises, and the
      length check compares that dict with itself. Returns the deferred call as it is after the
      attempt together with the outcome. */
  function CompleteAliased<R>(fn: Call<Arg> -> R, d: DeferredCall, pos: seq<Arg>, kw: Dict<Arg>)
    : (out: (DeferredCall, Result<R, CompletionError>))
    ensures out.0.fnName == d.fnName && out.0.sig == d.sig
    ensures Bind(d.sig, pos, kw, true).Err? ==> out == (d, Err(BindFailed(Bind(d.sig, pos, kw, true).error)))
    ensures out.1 == Err(NestedPlaceholder) ==> out.0 == d
    ensures out.1.Err? && out.1.error.MissingArguments? ==> out.1.error.names == PlaceholderNames(out.0.bound)
  {
    match Bind(d.sig, pos, kw, true)
    case Err(e) => (d, Err(BindFailed(e)))
    case Ok(extra) =>
      if HasPlaceholders(extra) then (d, Err(NestedPlaceholder))
      else
        BindWellShaped(d.sig, pos, kw, true);
        UpdateWellShaped(d.sig, d.bound, extra);
        var m := Update(d.bound, extra);
        match ArgsStep(m, extra)
        case Err(e) => (d.(bound := m), Err(MergeFailed(e)))
        case Ok(m1) =>
          ArgsStepWellShaped(d.sig, m, extra);
          match KwargsStep(m1, extra)
          case Err(e) => (d.(bound := m1), Err(MergeFailed(e)))
          case Ok(m2) =>
            KwargsStepWellShaped(d.sig, m1, extra);
            var d' := d.(bound := m2);
            var outcome :=
              if |d'.bound.order| > |d'.bound.order| then Err(TooManyArguments)
              else if HasPlaceholders(d'.bound) then Err(MissingArguments(PlaceholderNames(d'.bound)))
              else Ok(fn(CallOf(d.sig, m2)));
            (d', outcome)
  }

  /** As CPython runs it, a completion whose merge succeeds leaves the merged binding stored in
      the deferred call, and then either names the sentinel slots still in it or calls `fn`. */
  lemma AliasedAfterMerge<R>(fn: Call<Arg> -> R, d: DeferredCall, pos: seq<Arg>, kw: Dict<Arg>)
    requires Bind(d.sig, pos, kw, true).Ok?
    requires !HasPlaceholders(Bind(d.sig, pos, kw, true).value)
    requires Merge(d.bound, Bind(d.sig, pos, kw, true).value).Ok?
    ensures var merged := Merge(d.bound, Bind(d.sig, pos, kw, true).value).value;
      var (after, outcome) := CompleteAliased(fn, d, pos, kw);
      && after == d.(bound := merged)
      && WellShaped(d.sig, merged)
      && (HasPlaceholders(merged) ==> outcome == Err(MissingArguments(PlaceholderNames(merged))))
      && (!HasPlaceholders(merged) ==> outcome == Ok(fn(CallOf(d.sig, merged))))
  {
    BindWellShaped(d.sig, pos, kw, true);
    MergeWellShaped(d.sig, d.bound, Bind(d.sig, pos, kw, true).value);
  }

  /** As CPython runs it, completion never raises "Too many arguments". */
  lemma AliasedNeverTooMany<R>(fn: Call<Arg> -> R, d: DeferredCall, pos: seq<Arg>, kw: Dict<Arg>)
    ensures CompleteAliased(fn, d, pos, kw).1 != Err(TooManyArguments)
  {
  }
}
