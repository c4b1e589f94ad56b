/** Python's `dict` with string keys: a finite map that remembers insertion order.
    Bound arguments, `**kwargs` mappings and parameter tables are all values of this type. */
module PyDict {

  predicate Distinct(s: seq<string>) {
    forall i, j :: 0 <= i < j < |s| ==> s[i] != s[j]
  }

  datatype RawDict<V> = RawDict(order: seq<string>, items: map<string, V>)

  /** `order` lists every key exactly once, in insertion order. */
  predicate Valid<V>(d: RawDict<V>) {
    && Distinct(d.order)
    && (forall k :: k in d.items ==> k in d.order)
    && (forall k :: k in d.order ==> k in d.items)
  }

  type Dict<V> = d: RawDict<V> | Valid(d) witness RawDict([], map[])

  function Empty<V>(): Dict<V> {
    RawDict([], map[])
  }

  /** A dict has no keys exactly when it has no entries. */
  lemma EmptyOrder<V>(d: Dict<V>)
    ensures d.order == [] <==> d.items == map[]
  {
    if d.order != [] {
      assert d.order[0] in d.items;
    }
  }

  /** The display `{k1: v1, k2: v2, k3: v3}` of three distinct keys is a dict. */
  lemma Display3<V>(k1: string, v1: V, k2: string, v2: V, k3: string, v3: V)
    requires k1 != k2 && k1 != k3 && k2 != k3
    ensures Valid(RawDict([k1, k2, k3], map[k1 := v1, k2 := v2, k3 := v3]))
  {
    assert map[k1 := v1, k2 := v2, k3 := v3].Keys == {k1, k2, k3};
  }

  /** `d[k] = v`: an existing key keeps its position, a new key goes last. */
  function Set<V>(d: Dict<V>, k: string, v: V): Dict<V> {
    if k in d.items then RawDict(d.order, d.items[k := v])
    else RawDict(d.order + [k], d.items[k := v])
  }

  /** Setting a key to the value it already holds changes nothing. */
  lemma SetSame<V>(d: Dict<V>, k: string, v: V)
    requires k in d.items && d.items[k] == v
    ensures Set(d, k, v) == d
  {
    assert d.items[k := v] == d.items;
  }

  /** A dict whose first key is `k`, followed by the entries of `d`. */
  function Cons<V>(k: string, v: V, d: Dict<V>): Dict<V>
    requires k !in d.items
  {
    RawDict([k] + d.order, d.items[k := v])
  }

  /** The keys of `keys` that are not in `seen`, in their original order. */
  function Fresh(keys: seq<string>, seen: set<string>): seq<string>
  {
    if keys == [] then []
    else (if keys[0] in seen then [] else [keys[0]]) + Fresh(keys[1..], seen)
  }

  lemma {:induction false} FreshMembers(keys: seq<string>, seen: set<string>)
    ensures forall k :: k in Fresh(keys, seen) <==> k in keys && k !in seen
    ensures Distinct(keys) ==> Distinct(Fresh(keys, seen))
  {
    if keys != [] {
      FreshMembers(keys[1..], seen);
      assert forall k :: k in keys <==> k == keys[0] || k in keys[1..];
      if Distinct(keys) && keys[0] !in seen {
        TailDistinct(keys);
        DistinctCons(keys[0], Fresh(keys[1..], seen));
      }
    }
  }

  lemma DistinctCons(k: string, s: seq<string>)
    requires k !in s && Distinct(s)
    ensures Distinct([k] + s)
  {
    forall i, j | 0 <= i < j < |[k] + s|
      ensures ([k] + s)[i] != ([k] + s)[j]
    {
      if i > 0 {
        assert ([k] + s)[i] == s[i - 1] && ([k] + s)[j] == s[j - 1];
      } else {
        assert ([k] + s)[j] == s[j - 1];
      }
    }
  }

  /** With nothing seen, every key is fresh. */
  lemma {:induction false} FreshOfNone(keys: seq<string>)
    ensures Fresh(keys, {}) == keys
  {
    if keys != [] {
      FreshOfNone(keys[1..]);
    }
  }

  /** Adding a key the list does not contain to `seen` changes nothing. */
  lemma {:induction false} FreshIgnores(keys: seq<string>, seen: set<string>, x: string)
    requires x !in keys
    ensures Fresh(keys, seen + {x}) == Fresh(keys, seen)
  {
    if keys != [] {
      assert x !in keys[1..];
      FreshIgnores(keys[1..], seen, x);
    }
  }

  /** Keys already seen are never fresh. */
  lemma {:induction false} FreshOfSeen(keys: seq<string>, seen: set<string>)
    requires forall k :: k in keys ==> k in seen
    ensures Fresh(keys, seen) == []
  {
    if keys != [] {
      assert keys[0] in keys;
      FreshOfSeen(keys[1..], seen);
    }
  }

  lemma TailDistinct(keys: seq<string>)
    requires keys != [] && Distinct(keys)
    ensures Distinct(keys[1..]) && keys[0] !in keys[1..]
  {
    forall i | 0 <= i < |keys[1..]|
      ensures keys[1..][i] != keys[0]
    {
      assert keys[1..][i] == keys[i + 1];
    }
  }

  lemma ComprehensionCons<V>(keys: seq<string>, vals: map<string, V>)
    requires keys != []
    requires forall k :: k in keys ==> k in vals
    ensures (map k | k in keys :: vals[k])
         == (map k | k in keys[1..] :: vals[k])[keys[0] := vals[keys[0]]]
  {
    assert forall k :: k in keys <==> k == keys[0] || k in keys[1..];
  }

  function UpdateWith<V>(d: Dict<V>, keys: seq<string>, vals: map<string, V>): Dict<V>
    requires forall k :: k in keys ==> k in vals
    decreases |keys|
  {
    if keys == [] then d
    else UpdateWith(Set(d, keys[0], vals[keys[0]]), keys[1..], vals)
  }

  lemma {:induction false} UpdateWithItems<V>(d: Dict<V>, keys: seq<string>, vals: map<string, V>)
    requires forall k :: k in keys ==> k in vals
    ensures UpdateWith(d, keys, vals).items == d.items + (map k | k in keys :: vals[k])
    decreases |keys|
  {
    if keys != [] {
      var k0 := keys[0];
      var d' := Set(d, k0, vals[k0]);
      UpdateWithItems(d', keys[1..], vals);
      ComprehensionCons(keys, vals);
      AssignThenUnion(d.items, map k | k in keys[1..] :: vals[k], k0, vals[k0]);
    }
  }

  lemma AssignThenUnion<V>(a: map<string, V>, b: map<string, V>, k: string, v: V)
    requires k in b ==> b[k] == v
    ensures a[k := v] + b == a + b[k := v]
  {
  }

  lemma SetOrder<V>(d: Dict<V>, k: string, v: V)
    ensures Set(d, k, v).order == d.order + (if k in d.items then [] else [k])
  {
  }

  /** The key order `UpdateWith` produces, computed on plain sequences. */
  function OrderAfter(order: seq<string>, present: set<string>, keys: seq<string>): seq<string>
    decreases |keys|
  {
    if keys == [] then order
    else OrderAfter(order + (if keys[0] in present then [] else [keys[0]]), present + {keys[0]}, keys[1..])
  }

  lemma {:induction false} OrderAfterFresh(order: seq<string>, present: set<string>, keys: seq<string>)
    requires Distinct(keys)
    ensures OrderAfter(order, present, keys) == order + Fresh(keys, present)
    decreases |keys|
  {
    if keys != [] {
      var k0 := keys[0];
      var pre := if k0 in present then [] else [k0];
      TailDistinct(keys);
      FreshIgnores(keys[1..], present, k0);
      OrderAfterFresh(order + pre, present + {k0}, keys[1..]);
      assert (order + pre) + Fresh(keys[1..], present) == order + (pre + Fresh(keys[1..], present));
    }
  }

  lemma {:induction false} UpdateWithOrderAfter<V>(d: Dict<V>, keys: seq<string>, vals: map<string, V>)
    requires forall k :: k in keys ==> k in vals
    ensures UpdateWith(d, keys, vals).order == OrderAfter(d.order, d.items.Keys, keys)
    decreases |keys|
  {
    if keys != [] {
      var d' := Set(d, keys[0], vals[keys[0]]);
      SetOrder(d, keys[0], vals[keys[0]]);
      assert d'.items.Keys == d.items.Keys + {keys[0]};
      UpdateWithOrderAfter(d', keys[1..], vals);
    }
  }

  /** Python's `d.update(e)`: the keys of `e` take `e`'s values; keys new to `d` are appended
      in `e`'s order; nothing is removed. */
  function Update<V>(d: Dict<V>, e: Dict<V>): (r: Dict<V>)
    ensures r.items == d.items + e.items
    ensures r.order == d.order + Fresh(e.order, d.items.Keys)
  {
    assert (map k | k in e.order :: e.items[k]) == e.items;
    UpdateWithItems(d, e.order, e.items);
    UpdateWithOrderAfter(d, e.order, e.items);
    OrderAfterFresh(d.order, d.items.Keys, e.order);
    UpdateWith(d, e.order, e.items)
  }

  /** Updating a dict with itself gives the same dict back. */
  lemma UpdateSelf<V>(d: Dict<V>)
    ensures Update(d, d) == d
  {
    FreshOfSeen(d.order, d.items.Keys);
  }

  /** Updating an empty dict with `d` gives `d`. */
  lemma UpdateEmpty<V>(d: Dict<V>)
    ensures Update(Empty(), d) == d
  {
    var e: Dict<V> := Empty();
    var u := Update(e, d);
    assert u.order == d.order by {
      assert e.items.Keys == {};
      FreshOfNone(d.order);
    }
    assert u.items == d.items;
  }

  /** Updating a dict with one holding the same keys in the same order gives the latter. */
  lemma UpdateSameOrder<V>(d: Dict<V>, e: Dict<V>)
    requires d.order == e.order
    ensures Update(d, e) == e
  {
    assert forall k :: k in e.order ==> k in d.items.Keys;
    FreshOfSeen(e.order, d.items.Keys);
    assert d.order + [] == e.order;
    UnionCovered(d.items, e.items);
  }

  /** Updating a one-key dict with a dict holding that key and then one more gives the latter. */
  lemma UpdateAddsOne<V>(d: Dict<V>, e: Dict<V>, x: string, y: string)
    requires d.order == [x] && e.order == [x, y]
    ensures Update(d, e) == e
  {
    assert e.order[0] != e.order[1];
    assert x in d.items.Keys && y !in d.items.Keys;
    assert [x, y][1..] == [y] && [y][1..] == [];
    assert Fresh([y], d.items.Keys) == [y] + Fresh([], d.items.Keys);
    assert Fresh([x, y], d.items.Keys) == [] + Fresh([y], d.items.Keys);
    assert d.order + [y] == e.order;
    UnionCovered(d.items, e.items);
  }

  /** A dict whose keys all reappear in `b` is overwritten entirely by `b`. */
  lemma UnionCovered<V>(a: map<string, V>, b: map<string, V>)
    requires forall k :: k in a ==> k in b
    ensures a + b == b
  {
  }

  /** `r` can be obtained from `s` by deleting elements: its elements occur in `s` in the same
      relative order. */
  predicate SubseqOf(r: seq<string>, s: seq<string>)
    decreases |s|
  {
    r == [] || (s != [] && ((r[0] == s[0] && SubseqOf(r[1..], s[1..])) || SubseqOf(r, s[1..])))
  }

  /** The keys of `keys` whose entries satisfy `keep`, in their original order. */
  function SelectKeys<V>(keys: seq<string>, items: map<string, V>, keep: (string, V) -> bool): (r: seq<string>)
    requires forall k :: k in keys ==> k in items
    ensures forall k :: k in r <==> k in keys && keep(k, items[k])
    ensures Distinct(keys) ==> Distinct(r)
    ensures SubseqOf(r, keys)
    decreases |keys|
  {
    if keys == [] then []
    else
      var tail := SelectKeys(keys[1..], items, keep);
      assert Distinct(keys) ==> keys[0] !in keys[1..] && Distinct(keys[1..]) by {
        if Distinct(keys) { TailDistinct(keys); }
      }
      if keep(keys[0], items[keys[0]]) then
        (if Distinct(keys) then DistinctCons(keys[0], tail); [keys[0]] + tail else [keys[0]] + tail)
      else tail
  }

  /** The dict comprehension `{k: v for k, v in d.items() if keep(k, v)}`. */
  function Filter<V>(d: Dict<V>, keep: (string, V) -> bool): (r: Dict<V>)
    ensures forall k :: k in r.items <==> k in d.items && keep(k, d.items[k])
    ensures forall k :: k in r.items ==> r.items[k] == d.items[k]
    ensures SubseqOf(r.order, d.order)
    ensures r.order == SelectKeys(d.order, d.items, keep)
  {
    RawDict(SelectKeys(d.order, d.items, keep), map k | k in d.items && keep(k, d.items[k]) :: d.items[k])
  }
}
