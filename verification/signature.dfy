/** A callable's formal signature, binding a call to it, and reading a binding back as a call.

    This is the part of Python's `inspect` module the core leans on (`Signature.bind`,
    `Signature.bind_partial`, `BoundArguments.args` and `BoundArguments.kwargs`). It is library
    code, so it is modelled in simplified form: the binder's guarantee the core needs is that
    every bound key names a parameter and holds a slot of the right shape. */
module Signature {
  import opened Base
  import opened PyDict

  datatype Kind = PositionalOnly | PositionalOrKeyword | VarPositional | KeywordOnly | VarKeyword

  datatype Param = Param(name: string, kind: Kind, hasDefault: bool)

  predicate DistinctNames(ps: seq<Param>) {
    forall i, j :: 0 <= i < j < |ps| ==> ps[i].name != ps[j].name
  }

  /** Python guarantees parameter names are unique within a signature. */
  type Signature = ps: seq<Param> | DistinctNames(ps)

  /** The kind of the parameter called `name`, if the signature has one. */
  function KindOf(ps: seq<Param>, name: string): Option<Kind> {
    if ps == [] then None
    else if ps[0].name == name then Some(ps[0].kind)
    else KindOf(ps[1..], name)
  }

  /** What a bound slot holds: one value, the `*args` tuple, or the `**kwargs` dict. */
  datatype Slot<A> = Single(value: A) | Many(items: seq<A>) | Keywords(entries: Dict<A>)

  /** `BoundArguments.arguments`: parameter name to slot, in binding order. */
  type Bound<A> = Dict<Slot<A>>

  /** The arguments of one Python call, `f(*positional, **keywords)`. */
  datatype Call<A> = Call(positional: seq<A>, keywords: Dict<A>)

  /** The `TypeError`s binding raises. */
  datatype BindError =
    | TooManyPositional
    | MultipleValues(name: string)
    | MissingArgument(name: string)
    | UnexpectedKeyword(name: string)

  predicate Fits<A>(kind: Kind, s: Slot<A>) {
    match kind
    case VarPositional => s.Many?
    case VarKeyword => s.Keywords?
    case _ => s.Single?
  }

  /** Every key names a parameter and holds the slot shape its kind calls for. */
  predicate WellShaped<A>(ps: seq<Param>, b: Bound<A>) {
    forall k :: k in b.items ==> KindOf(ps, k).Some? && Fits(KindOf(ps, k).value, b.items[k])
  }

  /** A parameter a strict binding must fill. */
  predicate Required(p: Param) {
    !p.hasDefault && p.kind in {PositionalOnly, PositionalOrKeyword, KeywordOnly}
  }

  lemma {:induction false} KindOfAbsent(ps: seq<Param>, x: string)
    requires forall j :: 0 <= j < |ps| ==> ps[j].name != x
    ensures KindOf(ps, x) == None
  {
    if ps != [] {
      assert forall j :: 0 <= j < |ps[1..]| ==> ps[1..][j] == ps[j + 1];
      KindOfAbsent(ps[1..], x);
    }
  }

  lemma {:induction false} KindOfAt(ps: seq<Param>, i: int)
    requires DistinctNames(ps) && 0 <= i < |ps|
    ensures KindOf(ps, ps[i].name) == Some(ps[i].kind)
  {
    if i > 0 {
      TailNames(ps);
      assert ps[1..][i - 1] == ps[i];
      KindOfAt(ps[1..], i - 1);
    }
  }

  lemma TailNames(ps: seq<Param>)
    requires ps != [] && DistinctNames(ps)
    ensures DistinctNames(ps[1..])
    ensures KindOf(ps[1..], ps[0].name) == None
  {
    assert forall j :: 0 <= j < |ps[1..]| ==> ps[1..][j] == ps[j + 1];
    KindOfAbsent(ps[1..], ps[0].name);
  }

  /** CPython's `Signature._bind`, simplified: positional values fill positional parameters
      left to right and then `*args`; remaining parameters are looked up by keyword; keywords no
      parameter took go to `**kwargs`. `varKw` is the `**kwargs` parameter already passed and
      `used` the keywords already consumed. A positional-only parameter is never filled by
      keyword. */
  function BindFrom<A>(ps: seq<Param>, pos: seq<A>, kw: Dict<A>, partial: bool,
                       varKw: Option<string>, used: set<string>): (r: Result<Bound<A>, BindError>)
    requires DistinctNames(ps)
    requires varKw.Some? ==> KindOf(ps, varKw.value).None?
    ensures r.Ok? ==> forall k :: k in r.value.items ==> KindOf(ps, k).Some? || varKw == Some(k)
    decreases |ps|
  {
    if ps == [] then
      if pos != [] then Err(TooManyPositional)
      else
        var leftover := Filter(kw, (k: string, v: A) => k !in used);
        if leftover.order == [] then Ok(Empty())
        else if varKw.Some? then Ok(Cons(varKw.value, Keywords(leftover), Empty()))
        else Err(UnexpectedKeyword(leftover.order[0]))
    else
      var p := ps[0];
      TailNames(ps);
      if p.kind == VarPositional then
        var tail :- BindFrom(ps[1..], [], kw, partial, varKw, used);
        if pos == [] then Ok(tail) else Ok(Cons(p.name, Many(pos), tail))
      else if pos != [] && (p.kind == PositionalOnly || p.kind == PositionalOrKeyword) then
        if p.kind == PositionalOrKeyword && p.name in kw.items then Err(MultipleValues(p.name))
        else
          var tail :- BindFrom(ps[1..], pos[1..], kw, partial, varKw, used);
          Ok(Cons(p.name, Single(pos[0]), tail))
      else if pos != [] then Err(TooManyPositional)
      else if p.kind == VarKeyword then BindFrom(ps[1..], [], kw, partial, Some(p.name), used)
      else if p.kind != PositionalOnly && p.name in kw.items then
        var tail :- BindFrom(ps[1..], [], kw, partial, varKw, used + {p.name});
        Ok(Cons(p.name, Single(kw.items[p.name]), tail))
      else if partial || p.hasDefault then BindFrom(ps[1..], [], kw, partial, varKw, used)
      else Err(MissingArgument(p.name))
  }

  /** `sig.bind(*pos, **kw)` (strict) or `sig.bind_partial(*pos, **kw)` (partial). */
  function Bind<A>(sig: Signature, pos: seq<A>, kw: Dict<A>, partial: bool): (r: Result<Bound<A>, BindError>)
    ensures r.Ok? ==> WellShaped(sig, r.value)
    ensures r.Ok? && !partial ==> forall i :: 0 <= i < |sig| && Required(sig[i]) ==> sig[i].name in r.value.items
  {
    BindFromShape(sig, pos, kw, partial, None, {});
    BindFromFillsRequired(sig, pos, kw, None, {});
    BindFrom(sig, pos, kw, partial, None, {})
  }

  lemma {:induction false} BindFromShape<A>(ps: seq<Param>, pos: seq<A>, kw: Dict<A>, partial: bool,
                                            varKw: Option<string>, used: set<string>)
    requires DistinctNames(ps)
    requires varKw.Some? ==> KindOf(ps, varKw.value).None?
    ensures var r := BindFrom(ps, pos, kw, partial, varKw, used);
      r.Ok? ==> forall k :: k in r.value.items ==>
        if varKw == Some(k) then r.value.items[k].Keywords?
        else KindOf(ps, k).Some? && Fits(KindOf(ps, k).value, r.value.items[k])
    decreases |ps|
  {
    if ps != [] {
      var p := ps[0];
      TailNames(ps);
      if p.kind == VarPositional {
        BindFromShape(ps[1..], [], kw, partial, varKw, used);
      } else if pos != [] && (p.kind == PositionalOnly || p.kind == PositionalOrKeyword) {
        BindFromShape(ps[1..], pos[1..], kw, partial, varKw, used);
      } else if pos != [] {
      } else if p.kind == VarKeyword {
        BindFromShape(ps[1..], [], kw, partial, Some(p.name), used);
      } else if p.kind != PositionalOnly && p.name in kw.items {
        BindFromShape(ps[1..], [], kw, partial, varKw, used + {p.name});
      } else {
        BindFromShape(ps[1..], [], kw, partial, varKw, used);
      }
    }
  }

  /** Every key of a binding names a parameter of the signature and holds a slot of the shape
      the parameter's kind calls for: a tuple for `*args`, a dict for `**kwargs`. */
  lemma BindWellShaped<A>(sig: Signature, pos: seq<A>, kw: Dict<A>, partial: bool)
    ensures Bind(sig, pos, kw, partial).Ok? ==> WellShaped(sig, Bind(sig, pos, kw, partial).value)
  {
    BindFromShape(sig, pos, kw, partial, None, {});
  }

  lemma {:induction false} BindFromFillsRequired<A>(ps: seq<Param>, pos: seq<A>, kw: Dict<A>,
                                                    varKw: Option<string>, used: set<string>)
    requires DistinctNames(ps)
    requires varKw.Some? ==> KindOf(ps, varKw.value).None?
    ensures var r := BindFrom(ps, pos, kw, false, varKw, used);
      r.Ok? ==> forall i :: 0 <= i < |ps| && Required(ps[i]) ==> ps[i].name in r.value.items
    decreases |ps|
  {
    if ps != [] {
      var p := ps[0];
      TailNames(ps);
      var r := BindFrom(ps, pos, kw, false, varKw, used);
      if p.kind == VarPositional {
        BindFromFillsRequired(ps[1..], [], kw, varKw, used);
      } else if pos != [] && (p.kind == PositionalOnly || p.kind == PositionalOrKeyword) {
        BindFromFillsRequired(ps[1..], pos[1..], kw, varKw, used);
      } else if pos != [] {
      } else if p.kind == VarKeyword {
        BindFromFillsRequired(ps[1..], [], kw, Some(p.name), used);
      } else if p.kind != PositionalOnly && p.name in kw.items {
        BindFromFillsRequired(ps[1..], [], kw, varKw, used + {p.name});
      } else {
        BindFromFillsRequired(ps[1..], [], kw, varKw, used);
      }
      if r.Ok? {
        forall i | 0 <= i < |ps| && Required(ps[i])
          ensures ps[i].name in r.value.items
        {
          if i > 0 {
            assert ps[1..][i - 1] == ps[i];
          }
        }
      }
    }
  }

  /** A strict binding that succeeds has filled every parameter without a default, other
      than `*args` and `**kwargs`. */
  lemma BindFillsRequired<A>(sig: Signature, pos: seq<A>, kw: Dict<A>)
    ensures var r := Bind(sig, pos, kw, false);
      r.Ok? ==> forall i :: 0 <= i < |sig| && Required(sig[i]) ==> sig[i].name in r.value.items
  {
    BindFromFillsRequired(sig, pos, kw, None, {});
  }

  function PositionalFrom<A>(sig: Signature, i: nat, b: Bound<A>): seq<A>
    requires i <= |sig| && WellShaped(sig, b)
    decreases |sig| - i
  {
    if i == |sig| then []
    else
      var p := sig[i];
      if p.kind == VarKeyword || p.kind == KeywordOnly || p.name !in b.items then []
      else
        KindOfAt(sig, i);
        if p.kind == VarPositional then b.items[p.name].items + PositionalFrom(sig, i + 1, b)
        else [b.items[p.name].value] + PositionalFrom(sig, i + 1, b)
  }

  /** `BoundArguments.args`: bound values of the leading positional parameters, stopping at the
      first unbound one, with the `*args` tuple spliced in. */
  function PositionalOf<A>(sig: Signature, b: Bound<A>): seq<A>
    requires WellShaped(sig, b)
  {
    PositionalFrom(sig, 0, b)
  }

  function KeywordsFrom<A>(sig: Signature, i: nat, b: Bound<A>, started: bool, acc: Dict<A>): Dict<A>
    requires i <= |sig| && WellShaped(sig, b)
    decreases |sig| - i
  {
    if i == |sig| then acc
    else
      var p := sig[i];
      if !started && p.kind != VarKeyword && p.kind != KeywordOnly then
        KeywordsFrom(sig, i + 1, b, p.name !in b.items, acc)
      else if p.name !in b.items || p.kind == VarPositional then
        // a bound `*args` after the keyword part has started cannot come out of a binding
        KeywordsFrom(sig, i + 1, b, true, acc)
      else
        KindOfAt(sig, i);
        if p.kind == VarKeyword then KeywordsFrom(sig, i + 1, b, true, Update(acc, b.items[p.name].entries))
        else KeywordsFrom(sig, i + 1, b, true, Set(acc, p.name, b.items[p.name].value))
  }

  /** `BoundArguments.kwargs`: the bound values not passed positionally, by name, with the
      `**kwargs` dict merged in. */
  function KeywordsOf<A>(sig: Signature, b: Bound<A>): Dict<A>
    requires WellShaped(sig, b)
  {
    KeywordsFrom(sig, 0, b, false, Empty())
  }

  /** `fn(*bound.args, **bound.kwargs)`: the call a binding stands for. It passes nothing but
      values of the binding. */
  function CallOf<A(==)>(sig: Signature, b: Bound<A>): (c: Call<A>)
    requires WellShaped(sig, b)
    ensures forall x :: x in c.positional ==> IsBound(b, x)
    ensures forall k :: k in c.keywords.items ==> IsBound(b, c.keywords.items[k])
  {
    PositionalFromBound(sig, 0, b);
    KeywordsFromBound(sig, 0, b, false, Empty());
    assert KeywordsOf(sig, b) == KeywordsFrom(sig, 0, b, false, Empty());
    Call(PositionalOf(sig, b), KeywordsOf(sig, b))
  }

  /** `x` is a value of slot `s`: the value itself, an element of the tuple, or a value of the
      dict. */
  predicate Holds<A(==)>(s: Slot<A>, x: A) {
    match s
    case Single(v) => v == x
    case Many(xs) => x in xs
    case Keywords(e) => x in e.items.Values
  }

  /** `x` is a value of some slot of `b`. */
  predicate IsBound<A(==)>(b: Bound<A>, x: A) {
    exists k :: k in b.items && Holds(b.items[k], x)
  }

  lemma {:induction false} PositionalFromBound<A>(sig: Signature, i: nat, b: Bound<A>)
    requires i <= |sig| && WellShaped(sig, b)
    ensures forall x :: x in PositionalFrom(sig, i, b) ==> IsBound(b, x)
    decreases |sig| - i
  {
    if i < |sig| {
      var p := sig[i];
      if !(p.kind == VarKeyword || p.kind == KeywordOnly || p.name !in b.items) {
        KindOfAt(sig, i);
        PositionalFromBound(sig, i + 1, b);
        forall x | x in PositionalFrom(sig, i, b)
          ensures IsBound(b, x)
        {
          if x !in PositionalFrom(sig, i + 1, b) {
            assert Holds(b.items[p.name], x);
          }
        }
      }
    }
  }

  lemma {:induction false} KeywordsFromBound<A>(sig: Signature, i: nat, b: Bound<A>, started: bool, acc: Dict<A>)
    requires i <= |sig| && WellShaped(sig, b)
    requires forall k :: k in acc.items ==> IsBound(b, acc.items[k])
    ensures forall k :: k in KeywordsFrom(sig, i, b, started, acc).items ==>
      IsBound(b, KeywordsFrom(sig, i, b, started, acc).items[k])
    decreases |sig| - i
  {
    if i < |sig| {
      var p := sig[i];
      if !started && p.kind != VarKeyword && p.kind != KeywordOnly {
        assert KeywordsFrom(sig, i, b, started, acc) == KeywordsFrom(sig, i + 1, b, p.name !in b.items, acc);
        KeywordsFromBound(sig, i + 1, b, p.name !in b.items, acc);
      } else if p.name !in b.items || p.kind == VarPositional {
        KeywordsFromBound(sig, i + 1, b, true, acc);
      } else {
        KindOfAt(sig, i);
        if p.kind == VarKeyword {
          var e := b.items[p.name].entries;
          var acc' := Update(acc, e);
          forall k | k in acc'.items
            ensures IsBound(b, acc'.items[k])
          {
            if k in e.items {
              assert acc'.items[k] == e.items[k];
              assert Holds(b.items[p.name], e.items[k]);
            }
          }
          KeywordsFromBound(sig, i + 1, b, true, acc');
        } else {
          var acc' := Set(acc, p.name, b.items[p.name].value);
          assert Holds(b.items[p.name], b.items[p.name].value);
          KeywordsFromBound(sig, i + 1, b, true, acc');
        }
      }
    }
  }
}
