/** The scoped parameter registry: a table from parameter names to strategies that is active
    for the duration of one test run, and the lazy `param(name)` handle that looks a name up in
    whichever registry is active when the handle is first resolved successfully, and keeps what
    it found. The process-wide "current registry" class attribute is an explicit `Scope` value
    here. */
module Registry {
  import opened Base
  import opened PyDict

  /** A search strategy, seen from outside: `just(v)`, some other strategy the registry stores
      as given, or the lazy handle `param(name)` together with the strategy its
      `DeferredStrategy` base has cached, if any. */
  datatype Strategy = Just(value: Obj) | Opaque(id: int) | ParamHandle(name: string, cached: Option<Strategy>)

  /** A value handed to the registry: a strategy, or a plain object to be wrapped in `just`. */
  datatype Value = Strat(strategy: Strategy) | Plain(obj: Obj)

  /** One `ParamStrategyRegistry` instance; `id` tells instances apart. */
  datatype ParamRegistry = ParamRegistry(id: int, strategies: Dict<Strategy>)

  /** Which registry, if any, is active. */
  datatype Scope = Scope(current: Option<ParamRegistry>)

  /** `RuntimeError` from entering twice; `KeyError` from registering a name twice. */
  datatype RegistryError = AlreadyEntered | AlreadyRegistered(name: string)

  /** The two `RuntimeError`s of a lookup: no registry is active ("outside of a hypothesis
      @given"), or the active one lacks the name ("has not been set up"). */
  datatype LookupError = OutsideGiven(name: string) | NotSetUp(name: string)

  const NoScope := Scope(None)

  /** `__enter__`: the registry becomes the active one, unless one is active already, in which
      case the entering fails and the scope stays as it was. */
  function Enter(s: Scope, r: ParamRegistry): (out: (Scope, Option<RegistryError>))
    ensures s.current.None? ==> out == (Scope(Some(r)), None)
    ensures s.current.Some? ==> out == (s, Some(AlreadyEntered))
  {
    if s.current.None? then (Scope(Some(r)), None) else (s, Some(AlreadyEntered))
  }

  /** `__exit__`: whichever instance exits, no registry is active afterwards. */
  function Exit(s: Scope, exiting: ParamRegistry): (out: Scope)
    ensures out.current.None?
  {
    NoScope
  }

  /** At most one registry is active: entering a second one fails and keeps the first. */
  lemma EnterExclusive(a: ParamRegistry, b: ParamRegistry)
    ensures var (s1, e1) := Enter(NoScope, a);
      && e1.None? && s1.current == Some(a)
      && Enter(s1, b) == (s1, Some(AlreadyEntered))
  {
  }

  /** After any exit, any registry can be entered again. */
  lemma ReenterAfterExit(s: Scope, a: ParamRegistry, b: ParamRegistry)
    ensures Enter(Exit(s, a), b) == (Scope(Some(b)), None)
  {
  }

  /** `_register_param_value`: adds exactly one name, refusing one already present. */
  function Register(table: Dict<Strategy>, name: string, strat: Strategy): (r: Result<Dict<Strategy>, RegistryError>)
    ensures r.Err? <==> name in table.items
    ensures r.Err? ==> r.error == AlreadyRegistered(name)
    ensures r.Ok? ==> r.value.items == table.items[name := strat] && r.value.order == table.order + [name]
  {
    if name in table.items then Err(AlreadyRegistered(name)) else Ok(Set(table, name, strat))
  }

  /** `just(v)` for a plain value; a strategy is kept as it is. */
  function AsStrategy(v: Value): (s: Strategy)
    ensures v.Strat? ==> s == v.strategy
    ensures v.Plain? ==> s == Just(v.obj)
  {
    match v
    case Strat(st) => st
    case Plain(o) => Just(o)
  }

  /** The loop of `_register_param_values`: each name in turn, stopping at the first refusal. */
  function RegisterAll(table: Dict<Strategy>, names: seq<string>, vals: map<string, Value>): (r: Result<Dict<Strategy>, RegistryError>)
    requires forall k :: k in names ==> k in vals
    ensures r.Ok? ==> r.value.order == table.order + names
    decreases |names|
  {
    if names == [] then Ok(table)
    else
      var next :- Register(table, names[0], AsStrategy(vals[names[0]]));
      RegisterAll(next, names[1..], vals)
  }

  /** `names[i]` is refused: it is already in `table`, or it repeats an earlier name. */
  predicate RefusedAt(table: Dict<Strategy>, names: seq<string>, i: int) {
    0 <= i < |names| && (names[i] in table.items || names[i] in names[..i])
  }

  /** A refused registration names a name that is already registered or that repeats an
      earlier one in the list. */
  lemma {:induction false} RegisterAllRefuses(table: Dict<Strategy>, names: seq<string>, vals: map<string, Value>)
    requires forall k :: k in names ==> k in vals
    requires RegisterAll(table, names, vals).Err?
    ensures exists i :: RefusedAt(table, names, i) && RegisterAll(table, names, vals).error == AlreadyRegistered(names[i])
    decreases |names|
  {
    var k0 := names[0];
    if k0 in table.items {
      assert RefusedAt(table, names, 0);
    } else {
      var next := Set(table, k0, AsStrategy(vals[k0]));
      RegisterAllStep(table, names, vals);
      RegisterAllRefuses(next, names[1..], vals);
      var j :| RefusedAt(next, names[1..], j) && RegisterAll(next, names[1..], vals).error == AlreadyRegistered(names[1..][j]);
      RefusedShift(table, names, next, j);
    }
  }

  /** A refusal among the rest, after the first name went in, is a refusal in the whole list. */
  lemma RefusedShift(table: Dict<Strategy>, names: seq<string>, next: Dict<Strategy>, j: int)
    requires names != [] && next.items.Keys == table.items.Keys + {names[0]}
    requires RefusedAt(next, names[1..], j)
    ensures RefusedAt(table, names, j + 1) && names[1..][j] == names[j + 1]
  {
    var x := names[j + 1];
    assert names[1..][j] == x;
    if x !in table.items {
      if x == names[0] {
        assert names[..j + 1][0] == x;
      } else {
        assert x in names[1..][..j];
        var m :| 0 <= m < j && names[1..][..j][m] == x;
        assert names[..j + 1][m + 1] == x;
      }
    }
  }

  /** Once the first name is accepted, the rest are registered into the extended table. */
  lemma RegisterAllStep(table: Dict<Strategy>, names: seq<string>, vals: map<string, Value>)
    requires forall k :: k in names ==> k in vals
    requires names != [] && names[0] !in table.items
    ensures RegisterAll(table, names, vals) == RegisterAll(Set(table, names[0], AsStrategy(vals[names[0]])), names[1..], vals)
  {
  }

  /** Registering a list of names succeeds exactly when the names are distinct and none is
      registered yet. */
  lemma {:induction false} RegisterAllOk(table: Dict<Strategy>, names: seq<string>, vals: map<string, Value>)
    requires forall k :: k in names ==> k in vals
    ensures RegisterAll(table, names, vals).Ok? <==>
      Distinct(names) && forall k :: k in names ==> k !in table.items
    decreases |names|
  {
    if names != [] {
      var k0 := names[0];
      assert forall k :: k in names <==> k == k0 || k in names[1..];
      if k0 !in table.items {
        var next := Set(table, k0, AsStrategy(vals[k0]));
        RegisterAllOk(next, names[1..], vals);
        if Distinct(names) {
          TailDistinct(names);
        } else {
          RepeatedHeadOrTail(names);
        }
      }
    }
  }

  /** A repeated name is either the first one again or a repetition within the rest. */
  lemma RepeatedHeadOrTail(names: seq<string>)
    requires names != [] && !Distinct(names)
    ensures names[0] in names[1..] || !Distinct(names[1..])
  {
    var i, j :| 0 <= i < j < |names| && names[i] == names[j];
    if i == 0 {
      assert names[1..][j - 1] == names[0];
    } else {
      assert names[1..][i - 1] == names[1..][j - 1];
    }
  }

  /** The strategies a list of names is registered with. */
  function Wrapped(names: seq<string>, vals: map<string, Value>): map<string, Strategy>
    requires forall k :: k in names ==> k in vals
  {
    map k | k in names :: AsStrategy(vals[k])
  }

  lemma WrappedCons(names: seq<string>, vals: map<string, Value>)
    requires names != [] && forall k :: k in names ==> k in vals
    ensures Wrapped(names, vals) == Wrapped(names[1..], vals)[names[0] := AsStrategy(vals[names[0]])]
  {
    assert forall k :: k in names <==> k == names[0] || k in names[1..];
  }

  lemma {:induction false} RegisterAllItems(table: Dict<Strategy>, names: seq<string>, vals: map<string, Value>)
    requires forall k :: k in names ==> k in vals
    requires RegisterAll(table, names, vals).Ok?
    ensures RegisterAll(table, names, vals).value.items == table.items + Wrapped(names, vals)
    decreases |names|
  {
    if names == [] {
      assert Wrapped(names, vals) == map[];
    } else {
      var k0 := names[0];
      var s0 := AsStrategy(vals[k0]);
      var next := Set(table, k0, s0);
      RegisterAllItems(next, names[1..], vals);
      WrappedCons(names, vals);
      AssignThenUnion(table.items, Wrapped(names[1..], vals), k0, s0);
    }
  }

  /** A registration of distinct fresh names succeeds and adds exactly those names, in order,
      each mapped to its value as a strategy. */
  lemma RegisterAllContents(table: Dict<Strategy>, names: seq<string>, vals: map<string, Value>)
    requires forall k :: k in names ==> k in vals
    requires Distinct(names) && forall k :: k in names ==> k !in table.items
    ensures RegisterAll(table, names, vals).Ok?
    ensures RegisterAll(table, names, vals).Ok? ==>
      && RegisterAll(table, names, vals).value.order == table.order + names
      && RegisterAll(table, names, vals).value.items == table.items + Wrapped(names, vals)
  {
    RegisterAllOk(table, names, vals);
    RegisterAllItems(table, names, vals);
  }

  /** `{**given_kwargs, **kwargs}` */
  function Merged(kwargs: Dict<Value>, givenKwargs: Dict<Value>): Dict<Value> {
    Update(Update(Empty(), givenKwargs), kwargs)
  }

  /** `ParamStrategyRegistry(kwargs, given_kwargs)`: the dict `{**given_kwargs, **kwargs}`
      registered entry by entry. */
  function New(id: int, kwargs: Dict<Value>, givenKwargs: Dict<Value>): (r: Result<ParamRegistry, RegistryError>)
    ensures r.Ok? && r.value.id == id
    ensures r.value.strategies.order == Merged(kwargs, givenKwargs).order
  {
    var merged := Merged(kwargs, givenKwargs);
    // the `KeyError` of a repeated name cannot arise: a dict's keys are distinct
    RegisterAllOk(Empty(), merged.order, merged.items);
    Ok(ParamRegistry(id, RegisterAll(Empty(), merged.order, merged.items).value))
  }

  lemma NewTable(id: int, kwargs: Dict<Value>, givenKwargs: Dict<Value>)
    ensures var merged := Merged(kwargs, givenKwargs);
      var r := New(id, kwargs, givenKwargs);
      && r.Ok? && r.value.id == id
      && r.value.strategies.order == merged.order
      && r.value.strategies.items == map k | k in merged.items :: AsStrategy(merged.items[k])
  {
    var merged := Merged(kwargs, givenKwargs);
    var e: Dict<Strategy> := Empty();
    RegisterAllContents(e, merged.order, merged.items);
    var table := RegisterAll(e, merged.order, merged.items).value;
    assert table.order == merged.order;
    assert table.items == map k | k in merged.items :: AsStrategy(merged.items[k]) by {
      WrappedDict(merged);
      EmptyUnion(Wrapped(merged.order, merged.items));
    }
  }

  lemma EmptyUnion<V>(m: map<string, V>)
    ensures map[] + m == m
  {
  }

  lemma MergedContents(kwargs: Dict<Value>, givenKwargs: Dict<Value>)
    ensures Merged(kwargs, givenKwargs).items == givenKwargs.items + kwargs.items
    ensures Merged(kwargs, givenKwargs).order == givenKwargs.order + Fresh(kwargs.order, givenKwargs.items.Keys)
  {
    UpdateEmpty(givenKwargs);
  }

  lemma NewKeys(id: int, kwargs: Dict<Value>, givenKwargs: Dict<Value>)
    ensures New(id, kwargs, givenKwargs).Ok?
    ensures New(id, kwargs, givenKwargs).value.strategies.items.Keys == kwargs.items.Keys + givenKwargs.items.Keys
  {
    NewTable(id, kwargs, givenKwargs);
    MergedContents(kwargs, givenKwargs);
  }

  lemma NewValue(id: int, kwargs: Dict<Value>, givenKwargs: Dict<Value>, k: string)
    requires k in kwargs.items || k in givenKwargs.items
    ensures New(id, kwargs, givenKwargs).Ok?
    ensures k in New(id, kwargs, givenKwargs).value.strategies.items
    ensures New(id, kwargs, givenKwargs).value.strategies.items[k]
         == AsStrategy(if k in kwargs.items then kwargs.items[k] else givenKwargs.items[k])
  {
    NewTable(id, kwargs, givenKwargs);
    MergedContents(kwargs, givenKwargs);
  }

  /** Construction never fails: the registered names are exactly those of both dicts, `kwargs`
      winning on a shared name, every plain value wrapped in `just`, and the names of
      `given_kwargs` come first. */
  lemma NewRegistersUnion(id: int, kwargs: Dict<Value>, givenKwargs: Dict<Value>)
    ensures var r := New(id, kwargs, givenKwargs);
      && r.Ok? && r.value.id == id
      && r.value.strategies.items.Keys == kwargs.items.Keys + givenKwargs.items.Keys
      && (forall k :: k in kwargs.items ==> r.value.strategies.items[k] == AsStrategy(kwargs.items[k]))
      && (forall k :: k in givenKwargs.items && k !in kwargs.items ==>
            r.value.strategies.items[k] == AsStrategy(givenKwargs.items[k]))
      && r.value.strategies.order == givenKwargs.order + Fresh(kwargs.order, givenKwargs.items.Keys)
  {
    NewKeys(id, kwargs, givenKwargs);
    NewTable(id, kwargs, givenKwargs);
    MergedContents(kwargs, givenKwargs);
    forall k | k in kwargs.items || k in givenKwargs.items {
      NewValue(id, kwargs, givenKwargs, k);
    }
  }

  lemma WrappedDict(d: Dict<Value>)
    ensures Wrapped(d.order, d.items) == map k | k in d.items :: AsStrategy(d.items[k])
  {
  }

  /** `get(name)`: the strategy the active registry holds under `name`. */
  function Get(s: Scope, name: string): (r: Result<Strategy, LookupError>)
    ensures r.Ok? <==> s.current.Some? && name in s.current.value.strategies.items
    ensures r.Ok? ==> r.value == s.current.value.strategies.items[name]
    ensures r.Err? && s.current.None? ==> r.error == OutsideGiven(name)
    ensures r.Err? && s.current.Some? ==> r.error == NotSetUp(name)
  {
    match s.current
    case None => Err(OutsideGiven(name))
    case Some(reg) => if name in reg.strategies.items then Ok(reg.strategies.items[name]) else Err(NotSetUp(name))
  }

  /** Looking a name up in a freshly built and entered registry: a name of `kwargs` gives its
      strategy, otherwise a name of `given_kwargs` gives its strategy, and any other name is
      "not set up". */
  lemma GetAfterEnterNew(id: int, kwargs: Dict<Value>, givenKwargs: Dict<Value>, name: string)
    ensures New(id, kwargs, givenKwargs).Ok?
    ensures var s := Enter(NoScope, New(id, kwargs, givenKwargs).value).0;
      && (name in kwargs.items ==> Get(s, name) == Ok(AsStrategy(kwargs.items[name])))
      && (name !in kwargs.items && name in givenKwargs.items ==> Get(s, name) == Ok(AsStrategy(givenKwargs.items[name])))
      && (name !in kwargs.items && name !in givenKwargs.items ==> Get(s, name) == Err(NotSetUp(name)))
  {
    NewRegistersUnion(id, kwargs, givenKwargs);
  }

  /** `param(name)`: a handle that looks nothing up when it is made and has nothing cached. */
  function Param(name: string): (h: Strategy)
    ensures h.ParamHandle? && h.name == name && h.cached.None?
  {
    ParamHandle(name, None)
  }

  /** Resolving a strategy before drawing from it, giving the strategy as it is afterwards and
      the strategy drawn from. A `param` handle with nothing cached calls `get` with its name in
      the scope active at that moment and caches a strategy it finds; a handle with a cached
      strategy returns it whatever the scope; any other strategy stands for itself. */
  function Resolve(s: Scope, st: Strategy): (out: (Strategy, Result<Strategy, LookupError>))
    ensures !st.ParamHandle? ==> out == (st, Ok(st))
    ensures st.ParamHandle? && st.cached.None? ==> out.1 == Get(s, st.name)
    ensures st.ParamHandle? && st.cached.Some? ==> out == (st, Ok(st.cached.value))
    ensures out.1.Ok? && st.ParamHandle? ==> out.0 == st.(cached := Some(out.1.value))
    ensures out.1.Err? ==> out.0 == st
  {
    match st
    case ParamHandle(n, Some(c)) => (st, Ok(c))
    case ParamHandle(n, None) =>
      (match Get(s, n)
       case Ok(c) => (ParamHandle(n, Some(c)), Ok(c))
       case Err(e) => (st, Err(e)))
    case _ => (st, Ok(st))
  }

  /** A handle made while no registry is active fails to resolve then and stays as it was, yet
      resolves to the registered strategy once a registry holding its name is active: the
      lookup happens at resolution, not at creation. */
  lemma HandleIsLazy(name: string, r: ParamRegistry)
    ensures Resolve(NoScope, Param(name)) == (Param(name), Err(OutsideGiven(name)))
    ensures name in r.strategies.items ==>
      Resolve(Enter(NoScope, r).0, Param(name)).1 == Ok(r.strategies.items[name])
    ensures name !in r.strategies.items ==>
      Resolve(Enter(NoScope, r).0, Param(name)) == (Param(name), Err(NotSetUp(name)))
  {
  }

  /** Once a handle has resolved, it keeps the strategy it found: resolving it again, in any
      scope, gives that strategy and changes nothing. */
  lemma HandleKeepsFirstResolution(h: Strategy, s1: Scope, s2: Scope)
    requires h.ParamHandle? && Resolve(s1, h).1.Ok?
    ensures Resolve(s2, Resolve(s1, h).0) == Resolve(s1, h)
  {
  }

  /** A handle resolved inside one registry still gives that registry's strategy inside a
      second registry entered later, even one holding a different strategy under the name. */
  lemma CachedHandleIgnoresLaterRegistry(name: string, a: ParamRegistry, b: ParamRegistry)
    requires name in a.strategies.items
    ensures var (h, first) := Resolve(Enter(NoScope, a).0, Param(name));
      var sb := Enter(Exit(Enter(NoScope, a).0, a), b).0;
      && first == Ok(a.strategies.items[name])
      && Resolve(sb, h).1 == Ok(a.strategies.items[name])
  {
    var sa := Enter(NoScope, a).0;
    HandleKeepsFirstResolution(Param(name), sa, Enter(Exit(sa, a), b).0);
  }

  /** A registry built from `{"a": 7}`: inside it, `a` resolves to `just(7)` and `b` is not set
      up; after the exit, `a` cannot be looked up at all. */
  lemma RegistryLifecycle()
    ensures var kwargs := RawDict(["a"], map["a" := Plain(Obj(7))]);
      && New(1, kwargs, Empty()).Ok?
      && var r := New(1, kwargs, Empty()).value;
      && var s := Enter(NoScope, r).0;
      && Get(s, "a") == Ok(Just(Obj(7)))
      && Get(s, "b") == Err(NotSetUp("b"))
      && Get(Exit(s, r), "a") == Err(OutsideGiven("a"))
  {
    var kwargs: Dict<Value> := RawDict(["a"], map["a" := Plain(Obj(7))]);
    GetAfterEnterNew(1, kwargs, Empty(), "a");
    GetAfterEnterNew(1, kwargs, Empty(), "b");
  }
}
