# Deferred calls and parameter references for Hypothesis strategies

This project models, in Dafny, the three pieces of an experimental Hypothesis branch that let a
strategy definition refer to a value it will only be given later:

- `new_defer.py`: the `parametrize` decorator. A call whose bound arguments contain the
  `ExpectsParameter` sentinel is not run. Instead it returns a `_DeferredCall`. Calling that
  object later binds the new values partially, merges them into the stored binding
  (`MyBound.resolve_placeholders`), checks for new or still missing slots, and runs the
  function.
- `strategies/_internal/params.py`: `ParamStrategyRegistry`. It holds the strategies available
  to one `@given` test. At most one registry is active at a time. `param(name)` is a lazy handle
  that looks `name` up in the active registry when it is resolved.
- `hypothesis/params.py`: `HypothesisParameter` references made by `param(name)`, and
  `parametrizable`, which sorts a strategy call's bound arguments into references and
  non-references. Module-level `resolve_parameters` replaces references inside tuples and dicts
  once the strategies are known.

Modules:

| file | module | contents |
|---|---|---|
| `base.dfy` | `Base` | `Option`, `Result`, opaque objects |
| `pydict.dfy` | `PyDict` | insertion-ordered string-keyed dicts, `update`, filtering comprehensions |
| `signature.dfy` | `Signature` | a simplified `inspect.Signature.bind`/`bind_partial`, and `BoundArguments.args`/`.kwargs` |
| `defer.dfy` | `Defer` | `new_defer.py` |
| `scenarios.dfy` | `Scenarios` | concrete calls of `new_defer.py`, worked through the model |
| `registry.dfy` | `Registry` | `strategies/_internal/params.py` |
| `params.dfy` | `Params` | `hypothesis/params.py` |

How Python state is modelled:

- Python's exceptions are the `Err` cases of a `Result`.
- The class attribute `_current_registry` is an explicit `Scope` value. Operations take it in and
  hand it back.
- The wrapped function and the strategy definition are function-valued parameters. Their results
  are opaque.
- `_DeferredCall` closes over the wrapped function (new_defer.py:48-51). `Defer.Complete` and
  `Defer.CompleteAliased` take that function as a separate parameter instead. Their callers must
  pass the same `fn` that was given to `Defer.Invoke` when the call was deferred.

Four consequences of the code that the worked calls in `scenarios.dfy` make concrete:

- **A supplied `*args` tuple replaces the stored one.** Completing `demo(P, 1, P, other=3)`
  with `(0, 1)` calls `demo(0, 1, other=3)`.
  - `arguments.update` (new_defer.py:28) first replaces the stored tuple `(1, P)` with the
    supplied `(1,)`.
  - The sentinel rewrite of lines 30-32 then runs on the supplied tuple, against itself.
  - So the stored `1` is not passed twice. A sentinel inside the supplied tuple is filled from
    that tuple's own end: `demo(P, 1)` completed with `(0, P, 1)` calls `demo(0, 1, 1)`.
  - See `Scenarios.DemoDeferredThenCompleted` and `Scenarios.SuppliedTupleFillsItself`.
- **Completion may overwrite a concrete stored value.** `f(P, 2)` completed with `(1, 2)` calls
  `f(1, 2)`.
  - The length check of line 59 counts slots, not values.
  - `b` was already a slot.
  - See `Scenarios.PairOverwriteAccepted`.
- **A supplied `**kwargs` dict replaces the stored one.** With `def h(x, **kwargs)`, completing
  `h(P, a=1)` with `(0, b=2)` calls `h(0, b=2)`.
  - `arguments.update` (line 28) replaces the stored dict `{a: 1}` with the supplied `{b: 2}`.
  - Lines 33-35 then update that dict with itself.
  - See `Scenarios.SuppliedKwargsReplaceStored`.
- **Only top-level sentinels count.** `_has_placeholders` (lines 85-86) looks only at top-level
  bound values.
  - So `demo(0, P)` runs at once, with the sentinel as an ordinary `*args` value.
  - See `Scenarios.NestedSentinelRunsImmediately`.

## Model

| member | source | states |
|---|---|---|
| PyDict.Update | new_defer.py:28 | `d.update(e)`: the entries are `e`'s over `d`'s; the order is `d`'s followed by the keys new to `d` in `e`'s order |
| PyDict.UpdateSameOrder | new_defer.py:28 | updating with a dict of the same keys in the same order gives that dict |
| PyDict.UpdateSelf | new_defer.py:35 | updating a dict with itself (the `**kwargs` dict after the overwriting update) changes nothing |
| PyDict.UpdateEmpty | hypothesis-python/src/hypothesis/strategies/_internal/params.py:31 | `{**d}` is `d`, same entries and same order |
| PyDict.SelectKeys | hypothesis-python/src/hypothesis/params.py:150 | the keys of a filtering comprehension: exactly the keys that pass, each once if the input has no repeats, as a subsequence of the input (so in its order) |
| PyDict.Filter | hypothesis-python/src/hypothesis/params.py:151 | a filtering dict comprehension keeps exactly the entries that pass, with their values, and its order is a subsequence of the original order |
| Signature.Bind | new_defer.py:71 | a successful binding, strict (line 71) or partial (line 54), is well shaped for the signature; a strict one has bound every parameter without a default |
| Signature.BindWellShaped | new_defer.py:71 | a successful binding maps only parameter names, each to a slot of its kind's shape |
| Signature.BindFillsRequired | new_defer.py:71 | a strict binding that succeeds has bound every parameter without a default |
| Signature.CallOf | new_defer.py:66 | `fn(*bound.args, **bound.kwargs)` passes nothing but values held by the binding, positionally and by keyword |
| Defer.HasPlaceholders | new_defer.py:81-86 | true exactly when some top-level bound value is the sentinel |
| Defer.PlaceholderNames | new_defer.py:63 | exactly the slots holding the sentinel, each once, in binding order (a subsequence of the binding's keys) |
| Defer.RewriteArgs | new_defer.py:31-32 | the rewrite pops from an empty list exactly when the sentinels outnumber the supply; otherwise the list keeps its length |
| Defer.RewriteArgsPositions | new_defer.py:31-32 | after a successful rewrite, non-sentinels stay in place and a sentinel with j sentinels before it takes the supply's (j+1)-th element from the end |
| Defer.RewriteConcrete | new_defer.py:32 | a list without sentinels is unchanged, whatever is supplied |
| Defer.ArgsStep | new_defer.py:30-32 | the `*args` step keeps every key and the order, changes no other slot, leaves `*args` a tuple, and can only fail when `*args` is bound |
| Defer.KwargsStep | new_defer.py:33-35 | the `**kwargs` step keeps every key and the order, changes no other slot, leaves `**kwargs` a dict, and can only fail when `**kwargs` is bound |
| Defer.Merge | new_defer.py:25-35 | a successful merge has the keys of both bindings, the stored order followed by the supplement's new keys; it can only fail when `*args` or `**kwargs` is bound on some side |
| Defer.MergeFrame | new_defer.py:25-35 | the merge keeps the stored keys in place and appends the new ones; named slots take the supplement's value if it binds one and keep the stored value otherwise |
| Defer.MergeWithoutVariadic | new_defer.py:25-35 | with no `*args` or `**kwargs` slot on either side, the merge is exactly `update` |
| Defer.MergeConcreteArgs | new_defer.py:25-35 | when the supplement binds a sentinel-free `*args` tuple and neither side binds `**kwargs`, the merge is exactly `update` |
| Defer.MergeArgs | new_defer.py:28-32 | the merged `*args`: when the supplement binds a tuple, that tuple rewritten against itself, the merge failing exactly when the rewrite does (so a sentinel-free tuple comes through unchanged); otherwise the stored tuple, the merge popping an empty list exactly when it holds a sentinel |
| Defer.MergeKwargs | new_defer.py:28-35 | the merged `**kwargs`: the supplement's dict when it binds one, else the stored dict |
| Defer.MergedSlot | new_defer.py:25-35 | each slot of a successful merge, by name: supplement's value or stored value; `*args` a tuple; `**kwargs` a dict |
| Defer.MergedPlaceholders | new_defer.py:25-35 | after merging a sentinel-free supplement, a slot holds the sentinel exactly when the stored slot did and the supplement did not bind it |
| Defer.MergeWellShaped | new_defer.py:57-58 | merging two bindings of one signature gives a binding of that signature |
| Defer.Invoke | new_defer.py:69-76 | a binding error is raised as is; a returned result is the function applied to the original arguments and only happens without a top-level sentinel; a deferred call holds the strict binding and has a sentinel |
| Defer.InvokeDefersIffPlaceholder | new_defer.py:71-76 | a call that binds is deferred if and only if a top-level bound value is the sentinel, and returns the result otherwise |
| Defer.DeferredArgumentDefers | new_defer.py:73-82 | a `_DeferredCall` bound to a named parameter of a wrapped function defers that call too |
| Defer.MoreSlotsIffNewSlot | new_defer.py:59-60 | the merged binding is longer than the stored one exactly when the supplement binds a slot the stored binding lacks |
| Defer.Complete | new_defer.py:53-66 | a failing `bind_partial` is raised; "missing" names the stored sentinel slots; a result is the function called on the well-shaped merge of the stored binding and the supplement |
| Defer.CompleteOutcomes | new_defer.py:53-66 | completion raises a failing `bind_partial`'s error; refuses a supplied sentinel exactly when there is one; raises the merge's error when the merge fails; says "too many" exactly when a new slot is bound; says "missing", naming every stored sentinel slot, exactly when a stored sentinel slot was not supplied; otherwise calls the function with the merged binding |
| Defer.CompleteAliased | new_defer.py:53-66 | with the dict shared by `copy`: the function and signature are kept; a failing `bind_partial` or a supplied sentinel leaves the stored binding as it was; "missing" names the sentinel slots of the stored binding as it is after the attempt |
| Defer.AliasedNeverTooMany | new_defer.py:57-60 | with the dict shared by `copy`, the "too many arguments" error can never be raised |
| Defer.AliasedAfterMerge | new_defer.py:53-66 | with the dict shared by `copy`, a merge that succeeds replaces the stored binding, and the outcome depends only on the merged binding: "missing" naming its sentinel slots, or the function called on it |
| Scenarios.DemoImmediate | new_defer.py:94-95 | `demo(0, 1, other=3)` runs at once with its own arguments |
| Scenarios.NestedSentinelRunsImmediately | new_defer.py:85-86 | `demo(0, P)` runs at once, passing the sentinel as an ordinary `*args` value |
| Scenarios.DemoDeferredThenCompleted | new_defer.py:98-103 | `demo(P, 1, P, other=3)` is deferred with the stored binding; completing it with `(0, 1)` calls `demo(0, 1, other=3)`, the supplied `(1,)` replacing the stored `(1, P)` |
| Scenarios.SuppliedTupleFillsItself | new_defer.py:28-32 | `demo(P, 1)` completed with `(0, P, 1)` calls `demo(0, 1, 1)`; completed with `(0, P, P)` it calls `demo(0, P, P)` |
| Scenarios.ShortSupplementPopsEmpty | new_defer.py:28-32 | `demo(P, 1, P, other=3)` completed with `(0,)` raises `IndexError` from the pop, not "missing"; as written, the stored binding keeps `x = 0` afterwards |
| Scenarios.DeferredDemoAsArgument | new_defer.py:73-74 | the deferred `demo(P, 1, P, other=3)` passed as `a` to `f(a, b)` defers `f` with the deferred call bound to `a` |
| Scenarios.PairOverwriteAccepted | new_defer.py:53-66 | `f(P, 2)` completed with `(1, 2)` calls `f(1, 2)` |
| Scenarios.SuppliedKwargsReplaceStored | new_defer.py:28-35 | for `def h(x, **kwargs)`, `h(P, a=1)` is deferred, and completing it with `(0, b=2)` calls `h(0, b=2)`: the supplied `**kwargs` dict replaces the stored one, so the stored `a=1` is dropped |
| Scenarios.SharedCopyAcceptsNewSlot | new_defer.py:57-60 | for `g(a, b=None)`, `g(P)` completed with `(1, 2)`: "too many arguments" with an independent copy; accepted as written, and the stored binding keeps the new slot `b` |
| Registry.Enter | hypothesis-python/src/hypothesis/strategies/_internal/params.py:11-15 | entering with no active registry makes it active; entering while one is active raises and leaves the active one in place |
| Registry.Exit | hypothesis-python/src/hypothesis/strategies/_internal/params.py:17-18 | after any exit no registry is active |
| Registry.EnterExclusive | hypothesis-python/src/hypothesis/strategies/_internal/params.py:11-15 | of two registries entered in turn, the second is refused and the first stays active |
| Registry.ReenterAfterExit | hypothesis-python/src/hypothesis/strategies/_internal/params.py:11-18 | after an exit, any registry can be entered |
| Registry.Register | hypothesis-python/src/hypothesis/strategies/_internal/params.py:24-28 | registration fails with `KeyError` exactly when the name is present; otherwise it adds exactly that name with that strategy, at the end |
| Registry.AsStrategy | hypothesis-python/src/hypothesis/strategies/_internal/params.py:33-34 | a plain value becomes `just(value)`; a strategy is kept |
| Registry.RegisterAll | hypothesis-python/src/hypothesis/strategies/_internal/params.py:32-35 | a successful registration puts the names after the existing entries, in order |
| Registry.RegisterAllRefuses | hypothesis-python/src/hypothesis/strategies/_internal/params.py:24-35 | a refused registration raises `KeyError` for a name that is already registered or repeats an earlier name in the list |
| Registry.RegisterAllOk | hypothesis-python/src/hypothesis/strategies/_internal/params.py:30-35 | registering a list of names succeeds exactly when the names are distinct and none is already present |
| Registry.RegisterAllContents | hypothesis-python/src/hypothesis/strategies/_internal/params.py:30-35 | a successful registration appends the names in order, each with its wrapped value, and keeps the earlier entries |
| Registry.MergedContents | hypothesis-python/src/hypothesis/strategies/_internal/params.py:31 | `{**given_kwargs, **kwargs}`: `kwargs` wins on shared names; `given_kwargs`' order comes first |
| Registry.New | hypothesis-python/src/hypothesis/strategies/_internal/params.py:20-35 | construction never raises and keeps the order of `{**given_kwargs, **kwargs}` |
| Registry.NewRegistersUnion | hypothesis-python/src/hypothesis/strategies/_internal/params.py:20-35 | construction never fails; it registers exactly the names of both dicts, taking the value from `kwargs` where both have one, wrapped in `just` when plain |
| Registry.Get | hypothesis-python/src/hypothesis/strategies/_internal/params.py:37-44 | lookup returns the active registry's strategy for a present name; otherwise it raises "outside of @given" with no active registry and "not set up" with one |
| Registry.GetAfterEnterNew | hypothesis-python/src/hypothesis/strategies/_internal/params.py:20-44 | inside a freshly built and entered registry, a name resolves to its wrapped value from `kwargs` or `given_kwargs`, and any other name is "not set up" |
| Registry.Param | hypothesis-python/src/hypothesis/strategies/_internal/params.py:47-73 | `param(name)` is a handle carrying the name and no cached strategy |
| Registry.Resolve | hypothesis-python/src/hypothesis/strategies/_internal/params.py:47-50 | a non-handle resolves to itself; an uncached handle looks its name up in the active registry and caches a success; a cached handle gives its cached strategy; a failure caches nothing |
| Registry.HandleIsLazy | hypothesis-python/src/hypothesis/strategies/_internal/params.py:47-73 | a new handle resolves against whichever registry is active when it is first resolved, not when it was made: "outside of @given" with none, the registry's strategy or "not set up" with one |
| Registry.HandleKeepsFirstResolution | hypothesis-python/src/hypothesis/strategies/_internal/params.py:47-50 | once a handle has resolved, it gives the same strategy in any later scope |
| Registry.CachedHandleIgnoresLaterRegistry | hypothesis-python/src/hypothesis/strategies/_internal/params.py:47-50 | a handle resolved inside one registry still gives that registry's strategy after it is exited and another is entered |
| Registry.RegistryLifecycle | hypothesis-python/src/hypothesis/strategies/_internal/params.py:11-44 | in a registry built from `{"a": 7}`, `a` resolves to `just(7)` and `b` is not set up; after exit, `a` is outside any `@given` |
| Params.ParamRef | hypothesis-python/src/hypothesis/params.py:174-186 | `param(name)` is a reference to `name` that requires exactly `name` |
| Params.ResolveParameter | hypothesis-python/src/hypothesis/params.py:109-110 | resolution succeeds exactly when the name is available and none is called `self`, giving the available entry; `self` is a `TypeError`; a missing name is `KeyError(name)` |
| Params.ParamResolvesOwnName | hypothesis-python/src/hypothesis/params.py:109-110 | a reference made by `param(name)` resolves to what is available under `name`, or raises `KeyError(name)` |
| Params.ResolveItem | hypothesis-python/src/hypothesis/params.py:166-168 | a reference is resolved and anything else passes through unchanged |
| Params.ResolveTuple | hypothesis-python/src/hypothesis/params.py:166 | a resolved tuple has the same length, each entry its input entry resolved; a failure is some entry's failure |
| Params.ResolveTupleEntries | hypothesis-python/src/hypothesis/params.py:165-166 | a tuple resolves exactly when each entry does, entry by entry in place; a failure is the first failing entry's |
| Params.ResolveEntries | hypothesis-python/src/hypothesis/params.py:168 | a resolved dict keeps the keys in order, each value its input value resolved |
| Params.ResolveEntriesValues | hypothesis-python/src/hypothesis/params.py:168 | a dict resolves exactly when each value does; each key gets its own value resolved |
| Params.ResolveContainer | hypothesis-python/src/hypothesis/params.py:164-168 | a tuple stays a tuple of the same length; a dict keeps its keys in order; anything else raises `AttributeError` |
| Params.ResolveContainers | hypothesis-python/src/hypothesis/params.py:162-170 | one result per container, each that container resolved; a failure is the failure of the first container that fails |
| Params.ResolveContainersEach | hypothesis-python/src/hypothesis/params.py:162-170 | one result per container, in order, each the container resolved; the call succeeds exactly when every container does, and a failure is the failure of the first container that fails |
| Params.ResolvedTuple | hypothesis-python/src/hypothesis/params.py:166 | in a resolved tuple, non-references are unchanged and each reference is what is available under its name |
| Params.ResolvedDict | hypothesis-python/src/hypothesis/params.py:168 | in a resolved dict, every key is kept, non-references are unchanged and each reference is what is available under its name |
| Params.KeepParams | hypothesis-python/src/hypothesis/params.py:152 | the collected positional references are references taken from the positional values, no more of them than there are values |
| Params.KeepParamsMembers | hypothesis-python/src/hypothesis/params.py:152 | a value is among the collected positional references exactly when it is a positional value and a reference |
| Params.KeepParamsAppend | hypothesis-python/src/hypothesis/params.py:152 | collecting distributes over concatenation, so the references keep their relative order |
| Params.KeepParamsAll | hypothesis-python/src/hypothesis/params.py:152 | a sequence of references only is collected whole |
| Params.NeedsParameters | hypothesis-python/src/hypothesis/params.py:150 | exactly the bound slots holding one reference whose name is not `args` or `kwargs`, mapped to that reference |
| Params.Parametrizable | hypothesis-python/src/hypothesis/params.py:147-155 | fails exactly when strict binding fails; a direct result is the definition applied to the original arguments; a deferred outcome holds the binding and at least one needed slot |
| Params.DeferredIffReference | hypothesis-python/src/hypothesis/params.py:150-155 | a call that binds is deferred if and only if some named slot holds a reference |
| Params.DeferredCollections | hypothesis-python/src/hypothesis/params.py:149-155 | a deferred outcome carries: the named reference slots with their references; the positional references of `.args` in order; the entries of `.kwargs` that hold references |
| Params.StarArgsReferenceRunsDirectly | hypothesis-python/src/hypothesis/params.py:150-154 | a reference passed only through `*args` does not defer; the definition receives it as is |
| Params.NamedReferenceDefers | hypothesis-python/src/hypothesis/params.py:150-155 | a reference bound to a named parameter defers the call; it is collected under that name and among the positional references |

## Left out

- Signature.Bind: `inspect.Signature.bind` and `bind_partial` are library code, modelled in
  simplified form:
  - positional-only parameters are never matched by keyword;
  - the first error found in parameter order is the one reported;
  - annotations, defaults' values and `__signature__` overrides are not modelled.
- Signature.CallOf: the contract states only that every value passed is a value of the binding.
  The exact split into positional and keyword values is stated for the worked calls
  (`Scenarios.CallOfDemo`, `Scenarios.CallOfBare`, `Scenarios.CallOfPair`).
- Defer.Invoke: `functools.wraps` (new_defer.py:69) only copies metadata and is not modelled.
- Defer.Arg: the sentinel's name is modelled (`Placeholder(name)`; `Defer.AsArgument` names a
  deferred call `deferred_<fn>`, line 49). `ExpectsParameter.__repr__` (lines 14-15) and
  `MyBound.__len__` (lines 37-38) play no part in the behaviour and are not modelled.
- Defer.ArgsStep: a lone value under the key `args` is taken as not iterable (`NotIterable`).
  A plain `list(...)` of a string or another iterable value is not modelled.
- Defer.KwargsStep: the `NotMapping` error cannot arise after the update, which makes both
  dicts the same. It is kept for totality only. A lone value under the key `kwargs` is taken to
  have no `update` method (`NoUpdate`, Python's `AttributeError`). Python would instead update a
  dict passed to a plain parameter named `kwargs` (`def f(x, kwargs)`, where `f(P, {})` completed
  with `(1,)` calls `f(1, {})`). That case is not modelled, because the model's argument values
  are the sentinel and opaque objects, never dicts.
- Params.Parametrizable: `proxies` (hypothesis/params.py:146) only copies metadata and is not
  modelled. The model stops at the three collections the `DerivedFromParameters` constructor
  receives; its construction and `__call__` (lines 121-139) are not modelled. As written, line
  134 reads `.name` off the `needs_parameters_args` tuple itself, and off the string keys of
  `needs_parameters_kwargs`. So the constructor raises `AttributeError` whenever it is reached.
- Params.HypothesisParameter: `defer_call` and the `map`/`flatmap`/`filter`/`__or__` aliases
  (hypothesis/params.py:96-101, 112-116) build `DerivedFromParameters`. They are not modelled
  for the same reason.
- Params.ResolveEntries: the contract does not say which entry a failure comes from.
  `Params.ResolveEntriesValues` states that the dict resolves exactly when every value does.
- The commented-out registry at hypothesis/params.py:11-82 is dead code. It is not modelled.
- Registry.Param: `@cacheable` (line 54) may hand back the same handle for the same name, so
  two `param(name)` calls can share one cache. Each handle here starts uncached.
  `@defines_strategy` (line 55) belongs to the strategy engine and is not modelled.
- Registry.HandleIsLazy: it speaks of a handle that has not resolved yet. A handle that has
  resolved once keeps its first strategy in every later scope (`DeferredStrategy` caches it;
  line 50 does not pass `cache=False`). `Registry.HandleKeepsFirstResolution` and
  `Registry.CachedHandleIgnoresLaterRegistry` state that case.
- Registry.AsStrategy: `just(v)` and what a strategy generates are not modelled. A strategy is
  an opaque value.
- `hypothesis/signatures.py` is not part of this model.

## Findings

| source | as written | input that shows it | evidently intended | confidence | as-written member | corrected member |
|---|---|---|---|---|---|---|
| new_defer.py:20-23 | `from_bound` and `copy` pass the same `arguments` dict. So the "copy" at line 57 is the stored binding. `resolve_placeholders` rewrites it in place, and the length check compares that dict with itself. | `g(a, b=None)`: `g(P)` is deferred with only `a` bound; completing it with `(1, 2)` | "Too many arguments for deferred call", with the stored binding unchanged | not executed | `Defer.CompleteAliased` (shown by `Scenarios.SharedCopyAcceptsNewSlot`, `Defer.AliasedNeverTooMany`) | `Defer.Complete` (proved in `Defer.CompleteOutcomes`) |
