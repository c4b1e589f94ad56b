/** Worked calls of `parametrize`-wrapped functions, each followed through binding, deferral and
    completion: the `demo` call of new_defer.py:98-103 and a few small signatures that show the
    overwrite, the self-rewrite of a supplied `*args` tuple, the replaced `**kwargs` dict and the
    shared-copy behaviour. */
module Scenarios {
  import opened Base
  import opened PyDict
  import opened Signature
  import opened Defer

  /** `ExpectsParameter()` */
  const P: Arg := Placeholder(None)

  /** Some concrete object, told apart by `n`. */
  function C(n: int): Arg {
    Concrete(Obj(n))
  }

  /** The one-entry dict `{k: v}`. */
  function Single1(k: string, v: Arg): Dict<Arg> {
    RawDict([k], map[k := v])
  }

  /** `def demo(x, *args, other=None)` */
  function DemoSig(): Signature {
    [Param("x", PositionalOrKeyword, false), Param("args", VarPositional, false), Param("other", KeywordOnly, true)]
  }

  /** `def f(a, b)` */
  function PairSig(): Signature {
    [Param("a", PositionalOrKeyword, false), Param("b", PositionalOrKeyword, false)]
  }

  /** `def g(a, b=None)` */
  function OptionalSig(): Signature {
    [Param("a", PositionalOrKeyword, false), Param("b", PositionalOrKeyword, true)]
  }

  /** Binding ends with no keyword left over when every keyword was consumed. */
  lemma BindEnd(kw: Dict<Arg>, partial: bool, used: set<string>)
    requires forall k :: k in kw.items ==> k in used
    ensures BindFrom([], [], kw, partial, None, used) == Ok(Empty())
  {
    var leftover := Filter(kw, (k: string, v: Arg) => k !in used);
    assert leftover.items == map[];
    EmptyOrder(leftover);
  }

  /** `demo(x0, *rest, other=o)` binds `x`, `args` and `other`, in that order. */
  lemma BindDemo(x0: Arg, rest: seq<Arg>, o: Arg, partial: bool)
    requires rest != []
    ensures Bind(DemoSig(), [x0] + rest, Single1("other", o), partial) == Ok(DemoBound(x0, rest, o))
  {
    var kw := Single1("other", o);
    var tail := Cons("other", Single(o), Empty());
    BindDemoOther(o, partial);
    BindDemoArgs(rest, kw, tail, partial);
    BindDemoFirst(x0, rest, kw, Cons("args", Many(rest), tail), partial);
    Cons3("x", Single(x0), "args", Many(rest), "other", Single(o));
  }

  /** The first step of binding `demo(x0, *rest, **kw)`: `x0` goes to `x`. */
  lemma BindDemoFirst(x0: Arg, rest: seq<Arg>, kw: Dict<Arg>, tail: Bound<Arg>, partial: bool)
    requires "x" !in kw.items && "x" !in tail.items
    requires BindFrom(DemoSig()[1..], rest, kw, partial, None, {}) == Ok(tail)
    ensures BindFrom(DemoSig(), [x0] + rest, kw, partial, None, {}) == Ok(Cons("x", Single(x0), tail))
  {
    assert ([x0] + rest)[1..] == rest;
  }

  /** The last step of binding `demo(..., other=o)`. */
  lemma BindDemoOther(o: Arg, partial: bool)
    ensures BindFrom(DemoSig()[2..], [], Single1("other", o), partial, None, {}) == Ok(Cons("other", Single(o), Empty()))
  {
    var kw := Single1("other", o);
    BindEnd(kw, partial, {} + {"other"});
    assert DemoSig()[2..] == [Param("other", KeywordOnly, true)];
    assert DemoSig()[2..][1..] == [];
    assert "other" in kw.items && kw.items["other"] == o;
  }

  /** The middle step of binding `demo(x0, *rest, **kw)`: `rest` becomes the `*args` tuple. */
  lemma BindDemoArgs(rest: seq<Arg>, kw: Dict<Arg>, tail: Bound<Arg>, partial: bool)
    requires rest != [] && "args" !in tail.items
    requires BindFrom(DemoSig()[2..], [], kw, partial, None, {}) == Ok(tail)
    ensures BindFrom(DemoSig()[1..], rest, kw, partial, None, {}) == Ok(Cons("args", Many(rest), tail))
  {
    assert DemoSig()[1..][1..] == DemoSig()[2..];
  }

  /** Three insertions into an empty dict, read off as one dict display. */
  lemma Cons3<V>(k1: string, v1: V, k2: string, v2: V, k3: string, v3: V)
    requires k1 != k2 && k1 != k3 && k2 != k3
    ensures Cons(k1, v1, Cons(k2, v2, Cons(k3, v3, Empty()))) == RawDict([k1, k2, k3], map[k1 := v1, k2 := v2, k3 := v3])
  {
    var inner := Cons(k2, v2, Cons(k3, v3, Empty()));
    Cons2(k2, v2, k3, v3);
    var d := Cons(k1, v1, inner);
    assert d.order == [k1] + [k2, k3];
    assert d.items == map[k2 := v2, k3 := v3][k1 := v1];
    Prepend3(k1, v1, k2, v2, k3, v3);
  }

  lemma Prepend3<V>(k1: string, v1: V, k2: string, v2: V, k3: string, v3: V)
    requires k1 != k2 && k1 != k3 && k2 != k3
    ensures map[k2 := v2, k3 := v3][k1 := v1] == map[k1 := v1, k2 := v2, k3 := v3]
  {
    var m := map[k2 := v2, k3 := v3][k1 := v1];
    assert m.Keys == {k1, k2, k3};
  }

  /** `demo(x0, *rest)` binds `x` and `args`; `other` keeps its default and is not bound. */
  lemma BindDemoBare(x0: Arg, rest: seq<Arg>, partial: bool)
    requires rest != []
    ensures Bind(DemoSig(), [x0] + rest, Empty(), partial) == Ok(DemoBare(x0, rest))
  {
    var kw: Dict<Arg> := Empty();
    BindDemoNoOther(partial);
    BindDemoArgs(rest, kw, Empty(), partial);
    assert ([x0] + rest)[1..] == rest;
    Cons2("x", Single(x0), "args", Many(rest));
  }

  /** With no keywords, binding `demo` skips the defaulted `other`. */
  lemma BindDemoNoOther(partial: bool)
    ensures BindFrom(DemoSig()[2..], [], Empty<Arg>(), partial, None, {}) == Ok(Empty())
  {
    BindEnd(Empty(), partial, {});
    assert DemoSig()[2..] == [Param("other", KeywordOnly, true)];
    assert DemoSig()[2..][1..] == [];
  }

  /** Two insertions into an empty dict, read off as one dict display. */
  lemma Cons2<V>(k1: string, v1: V, k2: string, v2: V)
    requires k1 != k2
    ensures Cons(k1, v1, Cons(k2, v2, Empty())) == RawDict([k1, k2], map[k1 := v1, k2 := v2])
  {
    var d := Cons(k1, v1, Cons(k2, v2, Empty()));
    assert d.order == [k1, k2];
    assert d.items == map[k1 := v1, k2 := v2];
  }

  /** The binding of `demo(x0, *rest, other=o)`. */
  function DemoBound(x0: Arg, rest: seq<Arg>, o: Arg): (b: Bound<Arg>)
    ensures WellShaped(DemoSig(), b)
  {
    Display3("x", Single(x0), "args", Many(rest), "other", Single(o));
    var b: Bound<Arg> := RawDict(["x", "args", "other"], map["x" := Single(x0), "args" := Many(rest), "other" := Single(o)]);
    assert KindOf(DemoSig(), "x") == Some(PositionalOrKeyword);
    assert KindOf(DemoSig(), "args") == Some(VarPositional);
    assert KindOf(DemoSig(), "other") == Some(KeywordOnly);
    b
  }

  /** The binding of `demo(x0, *rest)`. */
  function DemoBare(x0: Arg, rest: seq<Arg>): (b: Bound<Arg>)
    ensures WellShaped(DemoSig(), b)
  {
    var b: Bound<Arg> := RawDict(["x", "args"], map["x" := Single(x0), "args" := Many(rest)]);
    assert KindOf(DemoSig(), "x") == Some(PositionalOrKeyword);
    assert KindOf(DemoSig(), "args") == Some(VarPositional);
    b
  }

  /** Only `x` and `other` can hold the sentinel at top level; `*args` is a tuple. */
  lemma DemoPlaceholders(x0: Arg, rest: seq<Arg>, o: Arg)
    ensures HasPlaceholders(DemoBound(x0, rest, o)) <==> x0.Placeholder? || o.Placeholder?
    ensures HasPlaceholders(DemoBare(x0, rest)) <==> x0.Placeholder?
  {
    var b := DemoBound(x0, rest, o);
    assert IsPlaceholderSlot(b.items["x"]) <==> x0.Placeholder?;
    assert IsPlaceholderSlot(b.items["other"]) <==> o.Placeholder?;
    assert DemoBare(x0, rest).items["x"] == Single(x0);
  }

  lemma DemoPositional(x0: Arg, rest: seq<Arg>, o: Arg)
    ensures PositionalOf(DemoSig(), DemoBound(x0, rest, o)) == [x0] + rest
  {
    var b := DemoBound(x0, rest, o);
    assert PositionalFrom(DemoSig(), 2, b) == [];
    assert PositionalFrom(DemoSig(), 1, b) == rest;
  }

  lemma DemoKeywords(x0: Arg, rest: seq<Arg>, o: Arg)
    ensures KeywordsOf(DemoSig(), DemoBound(x0, rest, o)) == Single1("other", o)
  {
    DemoKeywordsOf(DemoBound(x0, rest, o), o);
  }

  /** `.kwargs` of any `demo` binding with `x` bound and `other` bound to `o`. */
  lemma DemoKeywordsOf(b: Bound<Arg>, o: Arg)
    requires WellShaped(DemoSig(), b)
    requires "x" in b.items && "other" in b.items && b.items["other"] == Single(o)
    ensures KeywordsOf(DemoSig(), b) == Single1("other", o)
  {
    var e: Dict<Arg> := Empty();
    DemoKeywordsFromOther(b, o);
    assert KeywordsFrom(DemoSig(), 1, b, false, e) == KeywordsFrom(DemoSig(), 2, b, false, e);
  }

  lemma DemoKeywordsFromOther(b: Bound<Arg>, o: Arg)
    requires WellShaped(DemoSig(), b)
    requires "other" in b.items && b.items["other"] == Single(o)
    ensures KeywordsFrom(DemoSig(), 2, b, false, Empty()) == Single1("other", o)
  {
    var e: Dict<Arg> := Empty();
    assert Set(e, "other", o) == Single1("other", o);
    assert KeywordsFrom(DemoSig(), 2, b, false, e) == KeywordsFrom(DemoSig(), 3, b, true, Set(e, "other", o));
  }

  /** What the binding of `demo(x0, *rest, other=o)` passes on to `demo` itself. */
  lemma CallOfDemo(x0: Arg, rest: seq<Arg>, o: Arg)
    ensures CallOf(DemoSig(), DemoBound(x0, rest, o)) == Call([x0] + rest, Single1("other", o))
  {
    DemoPositional(x0, rest, o);
    DemoKeywords(x0, rest, o);
  }

  /** Merging `demo(y0, *rest2)` into the stored `demo(x0, *rest, other=o)`: `x` and the whole
      `*args` tuple are taken from the supplement, `other` is kept. */
  lemma MergeDemo(x0: Arg, rest: seq<Arg>, o: Arg, y0: Arg, rest2: seq<Arg>)
    requires CountPlaceholders(rest2) == 0
    ensures Merge(DemoBound(x0, rest, o), DemoBare(y0, rest2)) == Ok(DemoBound(y0, rest2, o))
  {
    MergeConcreteArgs(DemoBound(x0, rest, o), DemoBare(y0, rest2));
    UpdateDemo(x0, rest, o, y0, rest2);
  }

  lemma UpdateDemo(x0: Arg, rest: seq<Arg>, o: Arg, y0: Arg, rest2: seq<Arg>)
    ensures Update(DemoBound(x0, rest, o), DemoBare(y0, rest2)) == DemoBound(y0, rest2, o)
  {
    var stored := DemoBound(x0, rest, o);
    var supp := DemoBare(y0, rest2);
    var m := Update(stored, supp);
    assert Fresh(supp.order, stored.items.Keys) == [] by {
      FreshOfSeen(supp.order, stored.items.Keys);
    }
    assert m.order == DemoBound(y0, rest2, o).order;
    assert m.items == DemoBound(y0, rest2, o).items by {
      assert m.items == stored.items + supp.items;
      UnionDemo(x0, rest, o, y0, rest2);
    }
  }

  lemma UnionDemo(x0: Arg, rest: seq<Arg>, o: Arg, y0: Arg, rest2: seq<Arg>)
    ensures DemoBound(x0, rest, o).items + DemoBare(y0, rest2).items == DemoBound(y0, rest2, o).items
  {
    Union3Over2("x", Single(x0), "args", Many(rest), "other", Single(o), Single(y0), Many(rest2));
  }

  /** A two-entry dict display merged over a three-entry one sharing its first two keys. */
  lemma Union3Over2<V>(k1: string, v1: V, k2: string, v2: V, k3: string, v3: V, w1: V, w2: V)
    requires k1 != k2 && k1 != k3 && k2 != k3
    ensures map[k1 := v1, k2 := v2, k3 := v3] + map[k1 := w1, k2 := w2] == map[k1 := w1, k2 := w2, k3 := v3]
  {
    var u := map[k1 := v1, k2 := v2, k3 := v3] + map[k1 := w1, k2 := w2];
    assert u.Keys == {k1, k2, k3};
  }

  /** `demo(0, 1, other=3)` has no sentinel and runs at once. */
  lemma DemoImmediate<R>(fn: Call<Arg> -> R)
    ensures Invoke("demo", DemoSig(), fn, [C(0), C(1)], Single1("other", C(3)))
         == Ok(Returned(fn(Call([C(0), C(1)], Single1("other", C(3))))))
  {
    BindDemo(C(0), [C(1)], C(3), false);
    assert [C(0), C(1)] == [C(0)] + [C(1)];
    DemoPlaceholders(C(0), [C(1)], C(3));
  }

  /** A sentinel inside the `*args` tuple is not at top level, so `demo(0, P)` runs at once
      with the sentinel as an ordinary argument. */
  lemma NestedSentinelRunsImmediately<R>(fn: Call<Arg> -> R)
    ensures Invoke("demo", DemoSig(), fn, [C(0), P], Empty()) == Ok(Returned(fn(Call([C(0), P], Empty()))))
  {
    BindDemoBare(C(0), [P], false);
    assert [C(0), P] == [C(0)] + [P];
    DemoPlaceholders(C(0), [P], P);
  }

  /** `demo(P, 1, P, other=3)` is deferred, and completing it with `(0, 1)` calls
      `demo(0, 1, other=3)`: the supplied tuple `(1,)` replaces the stored `(1, P)` instead of
      filling its sentinel, so the stored `1` is not passed twice. */
  lemma DemoDeferredThenCompleted<R>(fn: Call<Arg> -> R)
    ensures var inv := Invoke("demo", DemoSig(), fn, [P, C(1), P], Single1("other", C(3)));
      && inv.Ok? && inv.value.Deferred?
      && inv.value.call.bound == DemoBound(P, [C(1), P], C(3))
      && Complete(fn, inv.value.call, [C(0), C(1)], Empty()) == Ok(fn(Call([C(0), C(1)], Single1("other", C(3)))))
  {
    BindDemo(P, [C(1), P], C(3), false);
    assert [P, C(1), P] == [P] + [C(1), P];
    DemoPlaceholders(P, [C(1), P], C(3));
    var d := Invoke("demo", DemoSig(), fn, [P, C(1), P], Single1("other", C(3))).value.call;
    CompleteDemo(fn, d);
  }

  /** Completing the deferred `demo(P, 1, P, other=3)` with `(0, 1)`. */
  lemma CompleteDemo<R>(fn: Call<Arg> -> R, d: DeferredCall)
    requires d.sig == DemoSig() && d.bound == DemoBound(P, [C(1), P], C(3))
    ensures Complete(fn, d, [C(0), C(1)], Empty()) == Ok(fn(Call([C(0), C(1)], Single1("other", C(3)))))
  {
    BindDemoBare(C(0), [C(1)], true);
    assert [C(0), C(1)] == [C(0)] + [C(1)];
    DemoPlaceholders(C(0), [C(1)], C(3));
    MergeDemo(P, [C(1), P], C(3), C(0), [C(1)]);
    CompleteAfterMerge(fn, d, [C(0), C(1)], Empty(), DemoBare(C(0), [C(1)]), DemoBound(C(0), [C(1)], C(3)));
    CallOfDemo(C(0), [C(1)], C(3));
  }

  /** The binding of `f(a0, b0)` or `g(a0, b0)`. */
  function PairBound(sig: Signature, a0: Arg, b0: Arg): (b: Bound<Arg>)
    requires sig == PairSig() || sig == OptionalSig()
    ensures WellShaped(sig, b)
  {
    var b: Bound<Arg> := RawDict(["a", "b"], map["a" := Single(a0), "b" := Single(b0)]);
    assert KindOf(sig, "a") == Some(PositionalOrKeyword);
    assert KindOf(sig, "b") == Some(PositionalOrKeyword);
    b
  }

  /** `f(a0, b0)` and `g(a0, b0)` bind `a` and `b` in that order. */
  lemma BindPair(sig: Signature, a0: Arg, b0: Arg, partial: bool)
    requires sig == PairSig() || sig == OptionalSig()
    ensures Bind(sig, [a0, b0], Empty(), partial) == Ok(PairBound(sig, a0, b0))
  {
    BindEnd(Empty(), partial, {});
    assert sig[1..][1..] == [];
    assert [a0, b0][1..] == [b0] && [b0][1..] == [];
    assert BindFrom(sig[1..], [b0], Empty(), partial, None, {}) == Ok(Cons("b", Single(b0), Empty()));
    Cons2("a", Single(a0), "b", Single(b0));
  }

  lemma PairPlaceholders(sig: Signature, a0: Arg, b0: Arg)
    requires sig == PairSig() || sig == OptionalSig()
    ensures HasPlaceholders(PairBound(sig, a0, b0)) <==> a0.Placeholder? || b0.Placeholder?
  {
    var b := PairBound(sig, a0, b0);
    assert IsPlaceholderSlot(b.items["a"]) <==> a0.Placeholder?;
    assert IsPlaceholderSlot(b.items["b"]) <==> b0.Placeholder?;
  }

  /** What the binding of `f(a0, b0)` or `g(a0, b0)` passes on. */
  lemma CallOfPair(sig: Signature, a0: Arg, b0: Arg)
    requires sig == PairSig() || sig == OptionalSig()
    ensures CallOf(sig, PairBound(sig, a0, b0)) == Call([a0, b0], Empty())
  {
    var b := PairBound(sig, a0, b0);
    assert PositionalFrom(sig, 1, b) == [b0];
    assert KeywordsFrom(sig, 1, b, false, Empty()) == Empty();
  }

  /** Merging a full binding of `(a, b)` into a stored one takes both values from the
      supplement, also over a concrete stored value. */
  lemma MergePair(sig: Signature, a0: Arg, b0: Arg, a1: Arg, b1: Arg)
    requires sig == PairSig() || sig == OptionalSig()
    ensures Merge(PairBound(sig, a0, b0), PairBound(sig, a1, b1)) == Ok(PairBound(sig, a1, b1))
  {
    var stored := PairBound(sig, a0, b0);
    var supp := PairBound(sig, a1, b1);
    MergeWithoutVariadic(stored, supp);
    UpdateSameOrder(stored, supp);
  }

  /** `f(P, 2)` completed with `(1, 2)`: the second value overwrites the concrete `b`, and the
      call goes through as `f(1, 2)`. */
  lemma PairOverwriteAccepted<R>(fn: Call<Arg> -> R)
    ensures var inv := Invoke("f", PairSig(), fn, [P, C(2)], Empty());
      && inv.Ok? && inv.value.Deferred?
      && Complete(fn, inv.value.call, [C(1), C(2)], Empty()) == Ok(fn(Call([C(1), C(2)], Empty())))
  {
    BindPair(PairSig(), P, C(2), false);
    PairPlaceholders(PairSig(), P, C(2));
    var d := Invoke("f", PairSig(), fn, [P, C(2)], Empty()).value.call;
    CompletePair(fn, d);
  }

  /** Completing the deferred `f(P, 2)` with `(1, 2)`. */
  lemma CompletePair<R>(fn: Call<Arg> -> R, d: DeferredCall)
    requires d.sig == PairSig() && d.bound == PairBound(PairSig(), P, C(2))
    ensures Complete(fn, d, [C(1), C(2)], Empty()) == Ok(fn(Call([C(1), C(2)], Empty())))
  {
    BindPair(PairSig(), C(1), C(2), true);
    PairPlaceholders(PairSig(), C(1), C(2));
    MergePair(PairSig(), P, C(2), C(1), C(2));
    CompleteAfterMerge(fn, d, [C(1), C(2)], Empty(), PairBound(PairSig(), C(1), C(2)), PairBound(PairSig(), C(1), C(2)));
    CallOfPair(PairSig(), C(1), C(2));
  }

  /** The binding of `g(a0)`: the defaulted `b` is left out. */
  function OneBound(a0: Arg): (b: Bound<Arg>)
    ensures WellShaped(OptionalSig(), b)
  {
    var b: Bound<Arg> := RawDict(["a"], map["a" := Single(a0)]);
    assert KindOf(OptionalSig(), "a") == Some(PositionalOrKeyword);
    b
  }

  lemma BindOne(a0: Arg)
    ensures Bind(OptionalSig(), [a0], Empty(), false) == Ok(OneBound(a0))
  {
    BindEnd(Empty(), false, {});
    assert OptionalSig()[1..][1..] == [];
    assert [a0][1..] == [];
    assert BindFrom(OptionalSig()[1..], [], Empty<Arg>(), false, None, {}) == Ok(Empty());
    assert Cons("a", Single(a0), Empty()) == OneBound(a0) by {
      assert Cons("a", Single(a0), Empty()).order == ["a"];
    }
  }

  /** Merging `g(a1, b1)` into the stored `g(a0)` appends the new slot `b`. */
  lemma MergeOne(a0: Arg, a1: Arg, b1: Arg)
    ensures Merge(OneBound(a0), PairBound(OptionalSig(), a1, b1)) == Ok(PairBound(OptionalSig(), a1, b1))
  {
    var stored := OneBound(a0);
    var supp := PairBound(OptionalSig(), a1, b1);
    MergeWithoutVariadic(stored, supp);
    UpdateAddsOne(stored, supp, "a", "b");
  }

  /** `g(P)` leaves the defaulted `b` out of the binding. Completing it with `(1, 2)` binds `b`
      anew: with an independent copy that is "Too many arguments". As written, the copy shares
      the stored dict, the check compares it with itself, the call goes through as `g(1, 2)`,
      and the deferred call keeps `b = 2` for every later completion. */
  lemma SharedCopyAcceptsNewSlot<R>(fn: Call<Arg> -> R)
    ensures var inv := Invoke("g", OptionalSig(), fn, [P], Empty());
      && inv.Ok? && inv.value.Deferred?
      && inv.value.call.bound.order == ["a"]
      && Complete(fn, inv.value.call, [C(1), C(2)], Empty()) == Err(TooManyArguments)
      && CompleteAliased(fn, inv.value.call, [C(1), C(2)], Empty()).1 == Ok(fn(Call([C(1), C(2)], Empty())))
      && CompleteAliased(fn, inv.value.call, [C(1), C(2)], Empty()).0.bound.order == ["a", "b"]
  {
    BindOne(P);
    assert IsPlaceholderSlot(OneBound(P).items["a"]);
    var d := Invoke("g", OptionalSig(), fn, [P], Empty()).value.call;
    CompleteOneIndependent(fn, d);
    CompleteOneAliased(fn, d);
  }

  /** The supplement `(1, 2)` for a stored `g(P)`, and what merging it gives. */
  lemma SupplyPair(d: DeferredCall)
    requires d.sig == OptionalSig() && d.bound == OneBound(P)
    ensures Bind(d.sig, [C(1), C(2)], Empty(), true) == Ok(PairBound(OptionalSig(), C(1), C(2)))
    ensures !HasPlaceholders(PairBound(OptionalSig(), C(1), C(2)))
    ensures Merge(d.bound, PairBound(OptionalSig(), C(1), C(2))) == Ok(PairBound(OptionalSig(), C(1), C(2)))
  {
    BindPair(OptionalSig(), C(1), C(2), true);
    PairPlaceholders(OptionalSig(), C(1), C(2));
    MergeOne(P, C(1), C(2));
  }

  lemma CompleteOneIndependent<R>(fn: Call<Arg> -> R, d: DeferredCall)
    requires d.sig == OptionalSig() && d.bound == OneBound(P)
    ensures Complete(fn, d, [C(1), C(2)], Empty()) == Err(TooManyArguments)
  {
    SupplyPair(d);
  }

  lemma CompleteOneAliased<R>(fn: Call<Arg> -> R, d: DeferredCall)
    requires d.sig == OptionalSig() && d.bound == OneBound(P)
    ensures CompleteAliased(fn, d, [C(1), C(2)], Empty()).1 == Ok(fn(Call([C(1), C(2)], Empty())))
    ensures CompleteAliased(fn, d, [C(1), C(2)], Empty()).0.bound.order == ["a", "b"]
  {
    SupplyPair(d);
    AliasedAfterMerge(fn, d, [C(1), C(2)], Empty());
    CallOfPair(OptionalSig(), C(1), C(2));
  }

  /** What the binding of `demo(x0, *rest)` passes on to `demo` itself. */
  lemma CallOfBare(x0: Arg, rest: seq<Arg>)
    ensures CallOf(DemoSig(), DemoBare(x0, rest)) == Call([x0] + rest, Empty())
  {
    var b := DemoBare(x0, rest);
    var e: Dict<Arg> := Empty();
    assert PositionalFrom(DemoSig(), 2, b) == [];
    assert PositionalFrom(DemoSig(), 1, b) == rest;
    assert KeywordsFrom(DemoSig(), 2, b, false, e) == e;
    assert KeywordsFrom(DemoSig(), 1, b, false, e) == e;
  }

  /** Merging `demo(y0, *rest2)` into the stored `demo(x0, *rest)`: `x` comes from the
      supplement, and the supplied tuple, rewritten against itself, replaces the stored one. */
  lemma MergeBare(x0: Arg, rest: seq<Arg>, y0: Arg, rest2: seq<Arg>, filled: seq<Arg>)
    requires RewriteArgs(rest2, rest2) == Ok(filled)
    ensures Merge(DemoBare(x0, rest), DemoBare(y0, rest2)) == Ok(DemoBare(y0, filled))
  {
    var supp := DemoBare(y0, rest2);
    UpdateSameOrder(DemoBare(x0, rest), supp);
    assert supp.items["args"] == Many(rest2);
    assert ArgsStep(supp, supp) == Ok(Set(supp, "args", Many(filled)));
    SetArgsBare(y0, rest2, filled);
  }

  /** Replacing the `*args` tuple of `demo(y0, *rest2)`. */
  lemma SetArgsBare(y0: Arg, rest2: seq<Arg>, filled: seq<Arg>)
    ensures Set(DemoBare(y0, rest2), "args", Many(filled)) == DemoBare(y0, filled)
  {
    var m := map["x" := Single(y0), "args" := Many(rest2)]["args" := Many(filled)];
    assert m.Keys == {"x", "args"};
    assert m == map["x" := Single(y0), "args" := Many(filled)];
  }

  /** The two supplied tuples of `SuppliedTupleFillsItself`, each rewritten against itself: the
      one sentinel of `(P, 1)` takes the `1` at the end, the two of `(P, P)` take the sentinels. */
  lemma RewriteSupplied()
    ensures RewriteArgs([P, C(1)], [P, C(1)]) == Ok([C(1), C(1)])
    ensures RewriteArgs([P, P], [P, P]) == Ok([P, P])
  {
    var e: seq<Arg> := [];
    assert RewriteArgs(e, [P]) == Ok(e);
    assert [C(1)][1..] == e && [C(1)] + e == [C(1)];
    assert RewriteArgs([C(1)], [P]) == Ok([C(1)]);
    assert [P, C(1)][1..] == [C(1)] && [P, C(1)][..1] == [P];
    assert RewriteArgs([P, C(1)], [P, C(1)]) == Ok([C(1)] + [C(1)]);
    assert [C(1)] + [C(1)] == [C(1), C(1)];
    assert [P][1..] == e && [P][..0] == e && [P] + e == [P];
    assert RewriteArgs([P], [P]) == Ok([P]);
    assert [P, P][1..] == [P] && [P, P][..1] == [P];
    assert RewriteArgs([P, P], [P, P]) == Ok([P] + [P]);
    assert [P] + [P] == [P, P];
  }

  /** `demo(P, 1)` is deferred. Completing it with `(0, P, 1)` binds the tuple `(P, 1)`, whose
      sentinel is filled from that tuple's own end, so `demo(0, 1, 1)` is called; completing it
      with `(0, P, P)` fills both sentinels with the sentinel and passes them on to `demo`. */
  lemma SuppliedTupleFillsItself<R>(fn: Call<Arg> -> R)
    ensures var inv := Invoke("demo", DemoSig(), fn, [P, C(1)], Empty());
      && inv.Ok? && inv.value.Deferred?
      && Complete(fn, inv.value.call, [C(0), P, C(1)], Empty()) == Ok(fn(Call([C(0), C(1), C(1)], Empty())))
      && Complete(fn, inv.value.call, [C(0), P, P], Empty()) == Ok(fn(Call([C(0), P, P], Empty())))
  {
    BindDemoBare(P, [C(1)], false);
    assert [P, C(1)] == [P] + [C(1)];
    DemoPlaceholders(P, [C(1)], P);
    var d := Invoke("demo", DemoSig(), fn, [P, C(1)], Empty()).value.call;
    CompleteFillsOne(fn, d);
    CompleteFillsSentinels(fn, d);
  }

  /** Completing the deferred `demo(P, 1)` with `(0, P, 1)`. */
  lemma CompleteFillsOne<R>(fn: Call<Arg> -> R, d: DeferredCall)
    requires d.sig == DemoSig() && d.bound == DemoBare(P, [C(1)])
    ensures Complete(fn, d, [C(0), P, C(1)], Empty()) == Ok(fn(Call([C(0), C(1), C(1)], Empty())))
  {
    RewriteSupplied();
    CompleteBare(fn, d, [P, C(1)], [C(1), C(1)], [C(0), P, C(1)], [C(0), C(1), C(1)]);
  }

  /** Completing the deferred `demo(P, 1)` with `(0, P, P)`. */
  lemma CompleteFillsSentinels<R>(fn: Call<Arg> -> R, d: DeferredCall)
    requires d.sig == DemoSig() && d.bound == DemoBare(P, [C(1)])
    ensures Complete(fn, d, [C(0), P, P], Empty()) == Ok(fn(Call([C(0), P, P], Empty())))
  {
    RewriteSupplied();
    CompleteBare(fn, d, [P, P], [P, P], [C(0), P, P], [C(0), P, P]);
  }

  /** Completing the deferred `demo(P, 1)` with `pos`, that is `(0, *rest2)`, where `rest2`
      rewritten against itself gives `filled`: `demo` is called with `out`, that is
      `(0, *filled)`. */
  lemma CompleteBare<R>(fn: Call<Arg> -> R, d: DeferredCall, rest2: seq<Arg>, filled: seq<Arg>,
                        pos: seq<Arg>, out: seq<Arg>)
    requires d.sig == DemoSig() && d.bound == DemoBare(P, [C(1)])
    requires rest2 != [] && RewriteArgs(rest2, rest2) == Ok(filled)
    requires pos == [C(0)] + rest2 && out == [C(0)] + filled
    ensures Complete(fn, d, pos, Empty()) == Ok(fn(Call(out, Empty())))
  {
    BindDemoBare(C(0), rest2, true);
    DemoPlaceholders(C(0), rest2, C(0));
    DemoPlaceholders(C(0), filled, C(0));
    MergeBare(P, [C(1)], C(0), rest2, filled);
    CompleteAfterMerge(fn, d, pos, Empty(), DemoBare(C(0), rest2), DemoBare(C(0), filled));
    CallOfBare(C(0), filled);
  }

  /** The binding of `demo(x0)`: neither `*args` nor the defaulted `other` is bound. */
  function DemoOnlyX(x0: Arg): (b: Bound<Arg>)
    ensures WellShaped(DemoSig(), b)
  {
    var b: Bound<Arg> := RawDict(["x"], map["x" := Single(x0)]);
    assert KindOf(DemoSig(), "x") == Some(PositionalOrKeyword);
    b
  }

  lemma BindDemoOnlyX(x0: Arg, partial: bool)
    ensures Bind(DemoSig(), [x0], Empty(), partial) == Ok(DemoOnlyX(x0))
  {
    var kw: Dict<Arg> := Empty();
    BindDemoNoOther(partial);
    assert DemoSig()[1..][1..] == DemoSig()[2..];
    assert BindFrom(DemoSig()[1..], [], kw, partial, None, {}) == Ok(Empty());
    BindDemoFirst(x0, [], kw, Empty(), partial);
    assert [x0] + [] == [x0];
    assert Cons("x", Single(x0), Empty()) == DemoOnlyX(x0) by {
      assert Cons("x", Single(x0), Empty()).order == ["x"];
    }
  }

  /** `update` of the stored `demo(x0, *rest, other=o)` with `demo(y0)` replaces `x` only. */
  lemma UpdateOnlyX(x0: Arg, rest: seq<Arg>, o: Arg, y0: Arg)
    ensures Update(DemoBound(x0, rest, o), DemoOnlyX(y0)) == DemoBound(y0, rest, o)
  {
    var stored := DemoBound(x0, rest, o);
    var supp := DemoOnlyX(y0);
    FreshOfSeen(supp.order, stored.items.Keys);
    Union3Over1("x", Single(x0), "args", Many(rest), "other", Single(o), Single(y0));
  }

  /** A one-entry dict display merged over a three-entry one sharing its first key. */
  lemma Union3Over1<V>(k1: string, v1: V, k2: string, v2: V, k3: string, v3: V, w1: V)
    requires k1 != k2 && k1 != k3 && k2 != k3
    ensures map[k1 := v1, k2 := v2, k3 := v3] + map[k1 := w1] == map[k1 := w1, k2 := v2, k3 := v3]
  {
    var u := map[k1 := v1, k2 := v2, k3 := v3] + map[k1 := w1];
    assert u.Keys == {k1, k2, k3};
  }

  /** `demo(P, 1, P, other=3)` completed with `(0,)`: the supplement binds no `*args` tuple, so
      the stored `(1, P)` is kept, and its sentinel pops from an empty list. As written, the
      stored binding has by then been updated in place and keeps `x = 0`. */
  lemma ShortSupplementPopsEmpty<R>(fn: Call<Arg> -> R)
    ensures var inv := Invoke("demo", DemoSig(), fn, [P, C(1), P], Single1("other", C(3)));
      && inv.Ok? && inv.value.Deferred?
      && Complete(fn, inv.value.call, [C(0)], Empty()) == Err(MergeFailed(PopFromEmptyList))
      && CompleteAliased(fn, inv.value.call, [C(0)], Empty()).1 == Err(MergeFailed(PopFromEmptyList))
      && CompleteAliased(fn, inv.value.call, [C(0)], Empty()).0.bound == DemoBound(C(0), [C(1), P], C(3))
  {
    BindDemo(P, [C(1), P], C(3), false);
    assert [P, C(1), P] == [P] + [C(1), P];
    DemoPlaceholders(P, [C(1), P], C(3));
    var d := Invoke("demo", DemoSig(), fn, [P, C(1), P], Single1("other", C(3))).value.call;
    CompleteShort(fn, d);
  }

  /** Completing the deferred `demo(P, 1, P, other=3)` with `(0,)`. */
  lemma CompleteShort<R>(fn: Call<Arg> -> R, d: DeferredCall)
    requires d.sig == DemoSig() && d.bound == DemoBound(P, [C(1), P], C(3))
    ensures Complete(fn, d, [C(0)], Empty()) == Err(MergeFailed(PopFromEmptyList))
    ensures CompleteAliased(fn, d, [C(0)], Empty()).1 == Err(MergeFailed(PopFromEmptyList))
    ensures CompleteAliased(fn, d, [C(0)], Empty()).0.bound == DemoBound(C(0), [C(1), P], C(3))
  {
    BindDemoOnlyX(C(0), true);
    ShortSupplement(d);
    CompleteOutcomes(fn, d, [C(0)], Empty());
    UpdateOnlyX(P, [C(1), P], C(3), C(0));
  }

  /** The supplement `(0,)` carries no sentinel; the stored `(1, P)` has one to fill and nothing
      to fill it from. */
  lemma ShortSupplement(d: DeferredCall)
    requires d.sig == DemoSig() && d.bound == DemoBound(P, [C(1), P], C(3))
    ensures !HasPlaceholders(DemoOnlyX(C(0)))
    ensures Merge(d.bound, DemoOnlyX(C(0))) == Err(PopFromEmptyList)
    ensures ArgsStep(Update(d.bound, DemoOnlyX(C(0))), DemoOnlyX(C(0))) == Err(PopFromEmptyList)
  {
    var extra := DemoOnlyX(C(0));
    assert extra.items["x"] == Single(C(0));
    StoredArgsOneSentinel();
    MergeArgs(d.bound, extra);
    var m := Update(d.bound, extra);
    assert m.items["args"] == Many([C(1), P]);
  }

  /** The stored `(1, P)` holds one sentinel, and rewriting it from nothing pops an empty list. */
  lemma StoredArgsOneSentinel()
    ensures CountPlaceholders([C(1), P]) == 1
    ensures RewriteArgs([C(1), P], []) == Err(PopFromEmptyList)
  {
    var e: seq<Arg> := [];
    assert [C(1), P][1..] == [P] && [P][1..] == e;
    assert CountPlaceholders([P]) == 1 + CountPlaceholders(e);
  }

  /** A deferred call is itself the sentinel: passing the deferred `demo(P, 1, P, other=3)` as
      `a` to `f` defers `f` too, with the deferred call stored in its binding. */
  lemma DeferredDemoAsArgument<R, S>(fn: Call<Arg> -> R, gn: Call<Arg> -> S)
    ensures var inv := Invoke("demo", DemoSig(), fn, [P, C(1), P], Single1("other", C(3)));
      && inv.Ok? && inv.value.Deferred?
      && var a := AsArgument(inv.value.call);
         var outer := Invoke("f", PairSig(), gn, [a, C(2)], Empty());
         outer.Ok? && outer.value.Deferred? && outer.value.call.bound == PairBound(PairSig(), a, C(2))
  {
    BindDemo(P, [C(1), P], C(3), false);
    assert [P, C(1), P] == [P] + [C(1), P];
    DemoPlaceholders(P, [C(1), P], C(3));
    var d := Invoke("demo", DemoSig(), fn, [P, C(1), P], Single1("other", C(3))).value.call;
    DeferredAsFirst(d, gn);
  }

  /** `f(d, 2)` for a deferred call `d` is deferred, binding `a` to `d`. */
  lemma DeferredAsFirst<S>(d: DeferredCall, gn: Call<Arg> -> S)
    ensures var outer := Invoke("f", PairSig(), gn, [AsArgument(d), C(2)], Empty());
      outer.Ok? && outer.value.Deferred? && outer.value.call.bound == PairBound(PairSig(), AsArgument(d), C(2))
  {
    BindPair(PairSig(), AsArgument(d), C(2), false);
    DeferredArgumentDefers(d, "f", PairSig(), gn, [AsArgument(d), C(2)], Empty(), "a");
  }

  /** `def h(x, **kwargs)` */
  function KwSig(): Signature {
    [Param("x", PositionalOrKeyword, false), Param("kwargs", VarKeyword, false)]
  }

  /** The binding of `h(x0, **e)` for a nonempty `e`. */
  function KwBound(x0: Arg, e: Dict<Arg>): (b: Bound<Arg>)
    ensures WellShaped(KwSig(), b)
  {
    var b: Bound<Arg> := RawDict(["x", "kwargs"], map["x" := Single(x0), "kwargs" := Keywords(e)]);
    assert KindOf(KwSig(), "x") == Some(PositionalOrKeyword);
    assert KindOf(KwSig(), "kwargs") == Some(VarKeyword);
    b
  }

  /** `h(x0, k=v)` binds `x`, then collects the keyword into `kwargs`. */
  lemma BindKw(x0: Arg, key: string, v: Arg, partial: bool)
    requires key != "x"
    ensures Bind(KwSig(), [x0], Single1(key, v), partial) == Ok(KwBound(x0, Single1(key, v)))
  {
    var kw := Single1(key, v);
    BindKwFirst(x0, kw, partial);
    Cons2("x", Single(x0), "kwargs", Keywords(kw));
  }

  lemma BindKwFirst(x0: Arg, kw: Dict<Arg>, partial: bool)
    requires |kw.order| == 1 && "x" !in kw.items
    ensures BindFrom(KwSig(), [x0], kw, partial, None, {}) == Ok(Cons("x", Single(x0), Cons("kwargs", Keywords(kw), Empty())))
  {
    BindKwTail(kw, partial);
    assert KwSig()[0] == Param("x", PositionalOrKeyword, false);
    assert [x0][1..] == [];
  }

  /** Past `x`, binding `h` collects the one keyword into `kwargs`. */
  lemma BindKwTail(kw: Dict<Arg>, partial: bool)
    requires |kw.order| == 1
    ensures BindFrom(KwSig()[1..], [], kw, partial, None, {}) == Ok(Cons("kwargs", Keywords(kw), Empty()))
  {
    BindKwEnd(kw, partial, {});
    assert KwSig()[1..][1..] == [];
  }

  /** With `**kwargs` seen, a one-entry keyword dict nobody consumed is collected whole. */
  lemma BindKwEnd(kw: Dict<Arg>, partial: bool, used: set<string>)
    requires |kw.order| == 1 && kw.order[0] !in used
    ensures BindFrom([], [], kw, partial, Some("kwargs"), used) == Ok(Cons("kwargs", Keywords(kw), Empty()))
  {
    var leftover := Filter(kw, (k: string, v: Arg) => k !in used);
    assert kw.order[0] in kw.items;
    assert leftover.items == kw.items;
    assert leftover.order == kw.order by {
      assert kw.order[1..] == [];
    }
  }

  lemma KwPlaceholders(x0: Arg, e: Dict<Arg>)
    ensures HasPlaceholders(KwBound(x0, e)) <==> x0.Placeholder?
  {
    var b := KwBound(x0, e);
    assert IsPlaceholderSlot(b.items["x"]) <==> x0.Placeholder?;
    assert !IsPlaceholderSlot(b.items["kwargs"]);
  }

  /** What the binding of `h(x0, **e)` passes on. */
  lemma CallOfKw(x0: Arg, e: Dict<Arg>)
    ensures CallOf(KwSig(), KwBound(x0, e)) == Call([x0], e)
  {
    var b := KwBound(x0, e);
    assert PositionalFrom(KwSig(), 1, b) == [];
    UpdateEmpty(e);
    assert KeywordsFrom(KwSig(), 1, b, false, Empty()) == e;
  }

  /** Merging a binding of `h(y0, **e1)` into a stored `h(x0, **e0)` takes both slots from the
      supplement: the supplied `kwargs` dict replaces the stored one and is then updated with
      itself. */
  lemma MergeKw(x0: Arg, e0: Dict<Arg>, y0: Arg, e1: Dict<Arg>)
    ensures Merge(KwBound(x0, e0), KwBound(y0, e1)) == Ok(KwBound(y0, e1))
  {
    var stored := KwBound(x0, e0);
    var supp := KwBound(y0, e1);
    UpdateSameOrder(stored, supp);
    assert ArgsStep(supp, supp) == Ok(supp);
    UpdateSelf(e1);
    SetSame(supp, "kwargs", Keywords(e1));
    assert KwargsStep(supp, supp) == Ok(supp);
  }

  /** `h(P, a=1)` completed with `(0, b=2)`: the supplied `**kwargs` replaces the stored one, so
      the call is `h(0, b=2)` and the stored `a=1` is dropped. */
  lemma SuppliedKwargsReplaceStored<R>(fn: Call<Arg> -> R)
    ensures var inv := Invoke("h", KwSig(), fn, [P], Single1("a", C(1)));
      && inv.Ok? && inv.value.Deferred?
      && Complete(fn, inv.value.call, [C(0)], Single1("b", C(2))) == Ok(fn(Call([C(0)], Single1("b", C(2)))))
  {
    BindKw(P, "a", C(1), false);
    KwPlaceholders(P, Single1("a", C(1)));
    var d := Invoke("h", KwSig(), fn, [P], Single1("a", C(1))).value.call;
    CompleteKw(fn, d);
  }

  /** Completing the deferred `h(P, a=1)` with `(0, b=2)`. */
  lemma CompleteKw<R>(fn: Call<Arg> -> R, d: DeferredCall)
    requires d.sig == KwSig() && d.bound == KwBound(P, Single1("a", C(1)))
    ensures Complete(fn, d, [C(0)], Single1("b", C(2))) == Ok(fn(Call([C(0)], Single1("b", C(2)))))
  {
    var e1 := Single1("b", C(2));
    BindKw(C(0), "b", C(2), true);
    KwPlaceholders(C(0), e1);
    MergeKw(P, Single1("a", C(1)), C(0), e1);
    CompleteAfterMerge(fn, d, [C(0)], e1, KwBound(C(0), e1), KwBound(C(0), e1));
    CallOfKw(C(0), e1);
  }
}
