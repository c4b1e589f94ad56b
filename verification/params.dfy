/** Parameter references for strategy definitions: `param(name)` stands for the strategy a test
    will receive under `name`; `parametrizable` sorts the arguments of a strategy call into those
    that are references and those that are not; `resolve_parameters` replaces the references in
    tuples and dicts of arguments once the strategies are known. */
module Params {
  import opened Base
  import opened PyDict
  import opened Signature

  /** A value passed around by strategy code: a `HypothesisParameter` reference, or anything
      else (a strategy, a number, ...), which the code never looks inside. */
  datatype Item = Parameter(ref: HypothesisParameter) | Plain(obj: Obj)

  /** A `HypothesisParameter` with the names it needs, `required_params`. */
  datatype HypothesisParameter = HypothesisParameter(name: string, requiredParams: seq<string>)

  /** The exceptions of resolving one reference: the available parameters contain one called
      `self`, which collides with the method's own `self` (`TypeError`), or they lack the
      reference's name (`KeyError`). */
  datatype ResolveError = SelfCollision | MissingParameter(name: string) | NotAMapping

  /** `param(name)` */
  function ParamRef(name: string): (p: HypothesisParameter)
    ensures p.name == name && p.requiredParams == [name]
  {
    HypothesisParameter(name, [name])
  }

  /** `p.resolve_parameters(**available)`: the entry of `available` under the reference's own
      name. */
  function ResolveParameter(p: HypothesisParameter, available: Dict<Item>): (r: Result<Item, ResolveError>)
    ensures r.Ok? <==> "self" !in available.items && p.name in available.items
    ensures r.Ok? ==> r.value == available.items[p.name]
    ensures "self" in available.items ==> r == Err(SelfCollision)
    ensures "self" !in available.items && p.name !in available.items ==> r == Err(MissingParameter(p.name))
  {
    if "self" in available.items then Err(SelfCollision)
    else if p.name !in available.items then Err(MissingParameter(p.name))
    else Ok(available.items[p.name])
  }

  /** A reference made by `param(name)` resolves to what is available under `name`, and fails
      with a `KeyError` naming `name` when nothing is. */
  lemma ParamResolvesOwnName(name: string, available: Dict<Item>)
    requires "self" !in available.items
    ensures var p := ParamRef(name);
      && p.requiredParams == [p.name]
      && (name in available.items ==> ResolveParameter(p, available) == Ok(available.items[name]))
      && (name !in available.items ==> ResolveParameter(p, available) == Err(MissingParameter(name)))
  {
  }

  /** One entry of a container: a reference is resolved, anything else passes through. */
  function ResolveItem(x: Item, available: Dict<Item>): (r: Result<Item, ResolveError>)
    ensures x.Plain? ==> r == Ok(x)
    ensures x.Parameter? ==> r == ResolveParameter(x.ref, available)
  {
    if x.Parameter? then ResolveParameter(x.ref, available) else Ok(x)
  }

  /** The tuple comprehension of params.py:166, evaluated left to right: the first failing
      entry raises. */
  function ResolveTuple(xs: seq<Item>, available: Dict<Item>): (r: Result<seq<Item>, ResolveError>)
    ensures r.Ok? ==> |r.value| == |xs|
    ensures r.Ok? ==> forall i :: 0 <= i < |xs| ==> ResolveItem(xs[i], available) == Ok(r.value[i])
    ensures r.Err? ==> exists i :: 0 <= i < |xs| && ResolveItem(xs[i], available) == Err(r.error)
    decreases |xs|
  {
    if xs == [] then Ok([])
    else
      assert forall i :: 1 <= i < |xs| ==> xs[i] == xs[1..][i - 1];
      var head :- ResolveItem(xs[0], available);
      var tail :- ResolveTuple(xs[1..], available);
      Ok([head] + tail)
  }

  /** A resolved tuple has each entry resolved in place; a failure is the failure of the first
      entry that fails. */
  lemma {:induction false} ResolveTupleEntries(xs: seq<Item>, available: Dict<Item>)
    ensures var r := ResolveTuple(xs, available);
      && (r.Ok? <==> forall i :: 0 <= i < |xs| ==> ResolveItem(xs[i], available).Ok?)
      && (r.Ok? ==> forall i :: 0 <= i < |xs| ==> r.value[i] == ResolveItem(xs[i], available).value)
      && (r.Err? ==> exists i :: 0 <= i < |xs| && ResolveItem(xs[i], available) == Err(r.error)
                       && forall j :: 0 <= j < i ==> ResolveItem(xs[j], available).Ok?)
    decreases |xs|
  {
    if xs != [] {
      ResolveTupleEntries(xs[1..], available);
      var r := ResolveTuple(xs, available);
      var tail := ResolveTuple(xs[1..], available);
      if ResolveItem(xs[0], available).Ok? {
        assert forall i :: 1 <= i < |xs| ==> xs[i] == xs[1..][i - 1];
        if tail.Err? {
          var i :| 0 <= i < |xs[1..]| && ResolveItem(xs[1..][i], available) == Err(tail.error)
                   && forall j :: 0 <= j < i ==> ResolveItem(xs[1..][j], available).Ok?;
          assert ResolveItem(xs[i + 1], available) == Err(r.error);
        }
      } else {
        assert ResolveItem(xs[0], available) == Err(r.error);
      }
    }
  }

  /** The dict comprehension of params.py:168 over `keys`, evaluated in order. */
  function ResolveEntries(keys: seq<string>, entries: map<string, Item>, available: Dict<Item>): (r: Result<Dict<Item>, ResolveError>)
    requires Distinct(keys) && forall k :: k in keys ==> k in entries
    ensures r.Ok? ==> r.value.order == keys
    ensures r.Ok? ==> forall k :: k in keys ==> k in r.value.items && ResolveItem(entries[k], available) == Ok(r.value.items[k])
    decreases |keys|
  {
    if keys == [] then Ok(Empty())
    else
      TailDistinct(keys);
      assert forall k :: k in keys <==> k == keys[0] || k in keys[1..];
      var head :- ResolveItem(entries[keys[0]], available);
      var tail :- ResolveEntries(keys[1..], entries, available);
      Ok(Cons(keys[0], head, tail))
  }

  /** A resolved dict has each entry resolved under its own key. */
  lemma {:induction false} ResolveEntriesValues(keys: seq<string>, entries: map<string, Item>, available: Dict<Item>)
    requires Distinct(keys) && forall k :: k in keys ==> k in entries
    ensures var r := ResolveEntries(keys, entries, available);
      && (r.Ok? <==> forall k :: k in keys ==> ResolveItem(entries[k], available).Ok?)
      && (r.Ok? ==> forall k :: k in keys ==> r.value.items[k] == ResolveItem(entries[k], available).value)
    decreases |keys|
  {
    if keys != [] {
      TailDistinct(keys);
      ResolveEntriesValues(keys[1..], entries, available);
      assert forall k :: k in keys <==> k == keys[0] || k in keys[1..];
    }
  }

  /** What `resolve_parameters` is given: a tuple, a dict, or something else, which has no
      `items` method. */
  datatype Container = TupleOf(elems: seq<Item>) | DictOf(entries: Dict<Item>) | OtherObj(obj: Obj)

  /** One container: a tuple stays a tuple, a dict stays a dict with the same keys in the same
      order, anything else raises `AttributeError`. */
  function ResolveContainer(c: Container, available: Dict<Item>): (r: Result<Container, ResolveError>)
    ensures c.OtherObj? ==> r == Err(NotAMapping)
    ensures r.Ok? && c.TupleOf? ==> r.value.TupleOf? && |r.value.elems| == |c.elems|
    ensures r.Ok? && c.DictOf? ==> r.value.DictOf? && r.value.entries.order == c.entries.order
  {
    match c
    case TupleOf(xs) =>
      var ys :- ResolveTuple(xs, available);
      Ok(TupleOf(ys))
    case DictOf(d) =>
      var e :- ResolveEntries(d.order, d.items, available);
      Ok(DictOf(e))
    case OtherObj(_) => Err(NotAMapping)
  }

  /** `resolve_parameters(available, *containers)`: one result per container, in order; a failure
      is the failure of the first container that fails. */
  function ResolveContainers(available: Dict<Item>, containers: seq<Container>): (r: Result<seq<Container>, ResolveError>)
    ensures r.Ok? ==> |r.value| == |containers|
    ensures r.Ok? ==> forall i :: 0 <= i < |containers| ==> ResolveContainer(containers[i], available) == Ok(r.value[i])
    ensures r.Err? ==> exists i :: (0 <= i < |containers| && ResolveContainer(containers[i], available) == Err(r.error)
                                    && forall j :: 0 <= j < i ==> ResolveContainer(containers[j], available).Ok?)
    decreases |containers|
  {
    if containers == [] then Ok([])
    else
      assert forall i :: 1 <= i < |containers| ==> containers[i] == containers[1..][i - 1];
      var head :- ResolveContainer(containers[0], available);
      var tail :- ResolveContainers(available, containers[1..]);
      Ok([head] + tail)
  }

  /** The i-th result is the i-th container resolved, and the whole call succeeds exactly when
      every container does; a failure is the failure of the first container that fails. */
  lemma {:induction false} ResolveContainersEach(available: Dict<Item>, containers: seq<Container>)
    ensures var r := ResolveContainers(available, containers);
      && (r.Ok? <==> forall i :: 0 <= i < |containers| ==> ResolveContainer(containers[i], available).Ok?)
      && (r.Ok? ==> forall i :: 0 <= i < |containers| ==> r.value[i] == ResolveContainer(containers[i], available).value)
      && (r.Err? ==> exists i :: 0 <= i < |containers| && ResolveContainer(containers[i], available) == Err(r.error)
                       && forall j :: 0 <= j < i ==> ResolveContainer(containers[j], available).Ok?)
    decreases |containers|
  {
    if containers != [] {
      ResolveContainersEach(available, containers[1..]);
      var r := ResolveContainers(available, containers);
      var tail := ResolveContainers(available, containers[1..]);
      assert forall i :: 1 <= i < |containers| ==> containers[i] == containers[1..][i - 1];
      if ResolveContainer(containers[0], available).Ok? {
        if tail.Err? {
          var i :| 0 <= i < |containers[1..]| && ResolveContainer(containers[1..][i], available) == Err(tail.error)
                   && forall j :: 0 <= j < i ==> ResolveContainer(containers[1..][j], available).Ok?;
          assert ResolveContainer(containers[i + 1], available) == Err(r.error);
        }
      } else {
        assert ResolveContainer(containers[0], available) == Err(r.error);
      }
    }
  }

  /** Inside a resolved tuple, an entry that is not a reference is unchanged and a reference
      is replaced by what is available under its name. */
  lemma ResolvedTuple(available: Dict<Item>, xs: seq<Item>)
    requires ResolveContainer(TupleOf(xs), available).Ok?
    ensures var r := ResolveContainer(TupleOf(xs), available).value.elems;
      forall i :: 0 <= i < |xs| ==>
        && (xs[i].Plain? ==> r[i] == xs[i])
        && (xs[i].Parameter? ==> xs[i].ref.name in available.items && r[i] == available.items[xs[i].ref.name])
  {
    ResolveTupleEntries(xs, available);
  }

  /** Inside a resolved dict, every key is kept; a value that is not a reference is unchanged
      and a reference is replaced by what is available under its name. */
  lemma ResolvedDict(available: Dict<Item>, d: Dict<Item>)
    requires ResolveContainer(DictOf(d), available).Ok?
    ensures var r := ResolveContainer(DictOf(d), available).value.entries;
      forall k :: k in d.items ==>
        && k in r.items
        && (d.items[k].Plain? ==> r.items[k] == d.items[k])
        && (d.items[k].Parameter? ==>
              d.items[k].ref.name in available.items && r.items[k] == available.items[d.items[k].ref.name])
  {
    ResolveEntriesValues(d.order, d.items, available);
  }

  /** The references among positional values, in their order: the tuple of params.py:152. */
  function KeepParams(xs: seq<Item>): (r: seq<Item>)
    ensures |r| <= |xs|
    ensures forall i :: 0 <= i < |r| ==> r[i].Parameter?
    ensures forall x :: x in r ==> x in xs
    decreases |xs|
  {
    if xs == [] then []
    else (if xs[0].Parameter? then [xs[0]] else []) + KeepParams(xs[1..])
  }

  /** A value is kept exactly when it occurs among the positional values and is a reference. */
  lemma {:induction false} KeepParamsMembers(xs: seq<Item>, x: Item)
    ensures x in KeepParams(xs) <==> x in xs && x.Parameter?
    decreases |xs|
  {
    if xs != [] {
      KeepParamsMembers(xs[1..], x);
      assert x in xs <==> x == xs[0] || x in xs[1..];
    }
  }

  /** Keeping distributes over concatenation, so the relative order of references survives. */
  lemma {:induction false} KeepParamsAppend(xs: seq<Item>, ys: seq<Item>)
    ensures KeepParams(xs + ys) == KeepParams(xs) + KeepParams(ys)
    decreases |xs|
  {
    if xs == [] {
      assert xs + ys == ys;
    } else {
      assert (xs + ys)[1..] == xs[1..] + ys;
      KeepParamsAppend(xs[1..], ys);
    }
  }

  /** A sequence of references only is kept whole. */
  lemma {:induction false} KeepParamsAll(xs: seq<Item>)
    requires forall i :: 0 <= i < |xs| ==> xs[i].Parameter?
    ensures KeepParams(xs) == xs
    decreases |xs|
  {
    if xs != [] {
      KeepParamsAll(xs[1..]);
    }
  }

  /** A bound slot that makes the call wait for parameters: it holds one reference and its
      name is neither `args` nor `kwargs`. */
  predicate NeedsSlot(k: string, s: Slot<Item>) {
    s.Single? && s.value.Parameter? && k != "args" && k != "kwargs"
  }

  /** The dict of params.py:150: the slots that need parameters, holding their references. */
  function NeedsParameters(b: Bound<Item>): (r: Dict<Item>)
    ensures forall k :: k in r.items <==> k in b.items && NeedsSlot(k, b.items[k])
    ensures forall k :: k in r.items ==> Single(r.items[k]) == b.items[k] && r.items[k].Parameter?
  {
    RawDict(SelectKeys(b.order, b.items, NeedsSlot), map k | k in b.items && NeedsSlot(k, b.items[k]) :: b.items[k].value)
  }

  predicate IsReference(k: string, x: Item) {
    x.Parameter?
  }

  /** What the wrapper of `parametrizable` returns: the definition's own result, or the
      binding and the three collections of references handed to `DerivedFromParameters`. */
  datatype Outcome<R> =
    | Direct(value: R)
    | Deferred(bound: Bound<Item>, needs: Dict<Item>, needsArgs: seq<Item>, needsKwargs: Dict<Item>)

  /** The wrapper of `parametrizable`: bind strictly, collect the references, and call the
      definition with the original arguments when no named slot holds one. */
  function Parametrizable<R>(sig: Signature, definition: Call<Item> -> R, pos: seq<Item>, kw: Dict<Item>): (r: Result<Outcome<R>, BindError>)
    ensures r.Err? <==> Bind(sig, pos, kw, false).Err?
    ensures r.Err? ==> r.error == Bind(sig, pos, kw, false).error
    ensures r.Ok? && r.value.Direct? ==> r.value.value == definition(Call(pos, kw))
    ensures r.Ok? && r.value.Deferred? ==> r.value.bound == Bind(sig, pos, kw, false).value && r.value.needs.items != map[]
  {
    var b :- Bind(sig, pos, kw, false);
    BindWellShaped(sig, pos, kw, false);
    var needs := NeedsParameters(b);
    if needs.items == map[] then Ok(Direct(definition(Call(pos, kw))))
    else Ok(Deferred(b, needs, KeepParams(PositionalOf(sig, b)), Filter(KeywordsOf(sig, b), IsReference)))
  }

  /** A call that binds is deferred exactly when some named slot holds a reference; otherwise the
      definition runs at once on the arguments as given. */
  lemma DeferredIffReference<R>(sig: Signature, definition: Call<Item> -> R, pos: seq<Item>, kw: Dict<Item>)
    requires Bind(sig, pos, kw, false).Ok?
    ensures var b := Bind(sig, pos, kw, false).value;
      var r := Parametrizable(sig, definition, pos, kw);
      && r.Ok?
      && (r.value.Deferred? <==> exists k :: k in b.items && NeedsSlot(k, b.items[k]))
  {
    var b := Bind(sig, pos, kw, false).value;
    var needs := NeedsParameters(b);
    if exists k :: k in b.items && NeedsSlot(k, b.items[k]) {
      var k :| k in b.items && NeedsSlot(k, b.items[k]);
      assert k in needs.items;
    }
  }

  /** The three collections of a deferred call: the named slots holding references with those
      references, the references among `.args` in order, and the entries of `.kwargs` that
      hold references. */
  lemma DeferredCollections<R>(sig: Signature, definition: Call<Item> -> R, pos: seq<Item>, kw: Dict<Item>)
    requires Parametrizable(sig, definition, pos, kw).Ok?
    requires Parametrizable(sig, definition, pos, kw).value.Deferred?
    ensures var d := Parametrizable(sig, definition, pos, kw).value;
      WellShaped(sig, d.bound)
      && (forall k :: k in d.needs.items <==> k in d.bound.items && NeedsSlot(k, d.bound.items[k]))
      && (forall k :: k in d.needs.items ==> d.bound.items[k] == Single(d.needs.items[k]))
      && d.needsArgs == KeepParams(PositionalOf(sig, d.bound))
      && (forall k :: k in d.needsKwargs.items <==>
            k in KeywordsOf(sig, d.bound).items && KeywordsOf(sig, d.bound).items[k].Parameter?)
      && (forall k :: k in d.needsKwargs.items ==> d.needsKwargs.items[k] == KeywordsOf(sig, d.bound).items[k])
  {
    BindWellShaped(sig, pos, kw, false);
  }

  /** A reference reaching the definition only through `*args` is not collected: the
      definition runs at once and receives the reference itself. */
  lemma StarArgsReferenceRunsDirectly<R>(definition: Call<Item> -> R)
    ensures var sig: Signature := [Param("args", VarPositional, false)];
      Parametrizable(sig, definition, [Parameter(ParamRef("a"))], Empty())
        == Ok(Direct(definition(Call([Parameter(ParamRef("a"))], Empty()))))
  {
    var sig: Signature := [Param("args", VarPositional, false)];
    var b := Bind(sig, [Parameter(ParamRef("a"))], Empty<Item>(), false);
    assert b.Ok? && b.value.items == map["args" := Many([Parameter(ParamRef("a"))])];
    assert NeedsParameters(b.value).items == map[];
  }

  /** `def d(x)` */
  function NamedSig(): Signature {
    [Param("x", PositionalOrKeyword, false)]
  }

  /** The binding of `d(v)`. */
  function NamedBound(v: Item): (b: Bound<Item>)
    ensures WellShaped(NamedSig(), b)
  {
    var b: Bound<Item> := RawDict(["x"], map["x" := Single(v)]);
    assert KindOf(NamedSig(), "x") == Some(PositionalOrKeyword);
    b
  }

  lemma BindNamed(v: Item)
    ensures Bind(NamedSig(), [v], Empty(), false) == Ok(NamedBound(v))
  {
    var e: Dict<Item> := Empty();
    var leftover := Filter(e, (k: string, x: Item) => k !in {});
    assert leftover.items == map[];
    EmptyOrder(leftover);
    var none: Bound<Item> := Empty();
    assert BindFrom(NamedSig()[1..], [v][1..], e, false, None, {}) == Ok(none);
    assert Cons("x", Single(v), none) == NamedBound(v) by {
      assert Cons("x", Single(v), none).order == ["x"];
    }
  }

  lemma NamedCall(v: Item)
    ensures PositionalOf(NamedSig(), NamedBound(v)) == [v]
    ensures KeywordsOf(NamedSig(), NamedBound(v)).items == map[]
  {
  }

  /** A reference bound to a named parameter defers the call and is collected both under the
      parameter's name and among the positional references. */
  lemma NamedReferenceDefers<R>(definition: Call<Item> -> R)
    ensures var r := Parametrizable(NamedSig(), definition, [Parameter(ParamRef("a"))], Empty());
      && r.Ok? && r.value.Deferred?
      && r.value.needs.items == map["x" := Parameter(ParamRef("a"))]
      && r.value.needsArgs == [Parameter(ParamRef("a"))]
      && r.value.needsKwargs.items == map[]
  {
    var b := NamedBound(Parameter(ParamRef("a")));
    BindNamed(Parameter(ParamRef("a")));
    NamedCall(Parameter(ParamRef("a")));
    assert NeedsParameters(b).items == map["x" := Parameter(ParamRef("a"))] by {
      assert NeedsSlot("x", b.items["x"]);
    }
    DeferredOf(NamedSig(), definition, [Parameter(ParamRef("a"))], Empty(), b);
    assert KeepParams([Parameter(ParamRef("a"))]) == [Parameter(ParamRef("a"))] by {
      assert [Parameter(ParamRef("a"))][1..] == [];
    }
  }

  /** The outcome of a call whose strict binding `b` has some named slot holding a reference. */
  lemma DeferredOf<R>(sig: Signature, definition: Call<Item> -> R, pos: seq<Item>, kw: Dict<Item>, b: Bound<Item>)
    requires Bind(sig, pos, kw, false) == Ok(b) && WellShaped(sig, b)
    requires NeedsParameters(b).items != map[]
    ensures Parametrizable(sig, definition, pos, kw)
      == Ok(Deferred(b, NeedsParameters(b), KeepParams(PositionalOf(sig, b)), Filter(KeywordsOf(sig, b), IsReference)))
  {
  }
}
