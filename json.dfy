// JSON-shaped Python values: request bodies, parsed AI responses and the dicts the
// serialisers build. A dict is a sequence of entries in insertion order, as Python keeps it.
module Json {
  import opened Wrappers

  datatype Value =
    | Null
    | Bool(b: bool)
    | Int(i: int)
    | Real(r: real)
    | Str(s: string)
    | Arr(items: seq<Value>)
    | Obj(fields: seq<(string, Value)>)

  /** Python truthiness: `None`, `False`, zero and empty containers are falsy. */
  predicate Truthy(v: Value)
  {
    match v
    case Null => false
    case Bool(b) => b
    case Int(i) => i != 0
    case Real(r) => r != 0.0
    case Str(s) => s != []
    case Arr(items) => items != []
    case Obj(fields) => fields != []
  }

  // Dicts: a sequence of entries in insertion order, over any key and value type.

  /** The keys of a dict, in insertion order. */
  function Keys<K, V>(fields: seq<(K, V)>): (ks: seq<K>)
    ensures |ks| == |fields| && forall i :: 0 <= i < |fields| ==> ks[i] == fields[i].0
  {
    seq(|fields|, i requires 0 <= i < |fields| => fields[i].0)
  }

  /** The keys of joined entries are the keys of each part, in order. */
  lemma KeysAppend<K, V>(a: seq<(K, V)>, b: seq<(K, V)>)
    ensures Keys(a + b) == Keys(a) + Keys(b)
  {
    assert |Keys(a + b)| == |Keys(a) + Keys(b)|;
    forall i | 0 <= i < |a + b| ensures Keys(a + b)[i] == (Keys(a) + Keys(b))[i] {
      if i >= |a| {
        assert (a + b)[i] == b[i - |a|];
      }
    }
  }

  /** The keys of a non-empty dict: the first key, then the keys of the rest. */
  lemma KeysCons<K, V>(fields: seq<(K, V)>)
    requires fields != []
    ensures Keys(fields) == [fields[0].0] + Keys(fields[1..])
  {
    assert Keys(fields)[1..] == Keys(fields[1..]);
  }

  /** The dict pairing each key with the value at the same position. */
  function Zip<K, V>(ks: seq<K>, vs: seq<V>): (r: seq<(K, V)>)
    requires |ks| == |vs|
    ensures Keys(r) == ks && forall i :: 0 <= i < |ks| ==> r[i] == (ks[i], vs[i])
  {
    seq(|ks|, i requires 0 <= i < |ks| => (ks[i], vs[i]))
  }

  /** A well-formed dict holds each key once. */
  predicate IsDict<K(==), V>(fields: seq<(K, V)>)
  {
    forall i, j :: 0 <= i < j < |fields| ==> fields[i].0 != fields[j].0
  }

  /** `d.get(k)`, with `None` for a missing key. */
  function Lookup<K(==), V>(fields: seq<(K, V)>, k: K): (r: Option<V>)
    ensures r.Some? <==> k in Keys(fields)
  {
    if fields == [] then None
    else if fields[0].0 == k then Some(fields[0].1)
    else
      KeysCons(fields);
      Lookup(fields[1..], k)
  }

  /** `k in d` on a request body that may be null or not a dict (only a dict has keys here). */
  predicate Has(v: Value, k: string)
  {
    v.Obj? && k in Keys(v.fields)
  }

  /** `d.get(k)` on a dict value: `None` when the key is missing. */
  function Get(v: Value, k: string): Value
    requires v.Obj?
  {
    Lookup(v.fields, k).GetOr(Null)
  }

  /** `d[k] = v`: a present key keeps its place and takes the new value; a new key goes last. */
  function Set<K(==), V>(fields: seq<(K, V)>, k: K, v: V): (r: seq<(K, V)>)
    ensures Keys(r) == if k in Keys(fields) then Keys(fields) else Keys(fields) + [k]
  {
    if fields == [] then [(k, v)]
    else if fields[0].0 == k then
      KeysReplaceFirst(fields, v);
      [(k, v)] + fields[1..]
    else
      var rest := Set(fields[1..], k, v);
      KeysSetLater(fields, k, rest);
      [fields[0]] + rest
  }

  /** Giving the first entry a new value keeps the keys. */
  lemma KeysReplaceFirst<K, V>(fields: seq<(K, V)>, v: V)
    requires fields != []
    ensures Keys([(fields[0].0, v)] + fields[1..]) == Keys(fields)
  {
    var r := [(fields[0].0, v)] + fields[1..];
    assert |Keys(r)| == |Keys(fields)|;
    forall i | 0 <= i < |r|
      ensures Keys(r)[i] == Keys(fields)[i]
    {
      if i > 0 {
        assert r[i] == fields[i];
      }
    }
  }

  /** The keys after an assignment further on, with the first entry kept in front. */
  lemma KeysSetLater<K, V>(fields: seq<(K, V)>, k: K, rest: seq<(K, V)>)
    requires fields != [] && fields[0].0 != k
    requires Keys(rest) == if k in Keys(fields[1..]) then Keys(fields[1..]) else Keys(fields[1..]) + [k]
    ensures Keys([fields[0]] + rest) == if k in Keys(fields) then Keys(fields) else Keys(fields) + [k]
  {
    KeysCons(fields);
    KeysAppend([fields[0]], rest);
    assert Keys([fields[0]]) == [fields[0].0];
    assert k in Keys(fields) <==> k in Keys(fields[1..]);
  }

  lemma {:induction false} SetGet<K, V>(fields: seq<(K, V)>, k: K, v: V, q: K)
    ensures Lookup(Set(fields, k, v), q) == if q == k then Some(v) else Lookup(fields, q)
  {
    if fields != [] && fields[0].0 != k {
      SetGet(fields[1..], k, v, q);
    }
  }

  lemma {:induction false} SetIsDict<K, V>(fields: seq<(K, V)>, k: K, v: V)
    requires IsDict(fields)
    ensures IsDict(Set(fields, k, v))
  {
    var r := Set(fields, k, v);
    forall i, j | 0 <= i < j < |r|
      ensures r[i].0 != r[j].0
    {
      assert Keys(r)[i] == r[i].0 && Keys(r)[j] == r[j].0;
      if k !in Keys(fields) && j == |fields| {
        assert Keys(fields)[i] == fields[i].0;
      } else {
        assert Keys(fields)[i] == fields[i].0 && Keys(fields)[j] == fields[j].0;
      }
    }
  }

  /** `d.update(other)`: every entry of `other` assigned in turn. */
  function Update<K(==), V>(fields: seq<(K, V)>, other: seq<(K, V)>): seq<(K, V)>
    decreases |other|
  {
    if other == [] then fields
    else Update(Set(fields, other[0].0, other[0].1), other[1..])
  }

  /** After `d.update(other)`, every key `other` holds reads as there, every other key is unchanged. */
  lemma {:induction false} UpdateGet<K, V>(fields: seq<(K, V)>, other: seq<(K, V)>, q: K)
    requires IsDict(other)
    ensures Lookup(Update(fields, other), q) == if q in Keys(other) then Lookup(other, q) else Lookup(fields, q)
    decreases |other|
  {
    if other != [] {
      var rest := other[1..];
      KeysCons(other);
      DictTail(other);
      UpdateGet(Set(fields, other[0].0, other[0].1), rest, q);
      SetGet(fields, other[0].0, other[0].1, q);
      if q == other[0].0 {
        assert q !in Keys(rest) by {
          forall j | 0 <= j < |rest|
            ensures Keys(rest)[j] != q
          {
            assert rest[j] == other[j + 1];
          }
        }
      }
    }
  }

  lemma {:induction false} UpdateKeys<K, V>(fields: seq<(K, V)>, other: seq<(K, V)>, q: K)
    ensures q in Keys(Update(fields, other)) <==> q in Keys(fields) || q in Keys(other)
    decreases |other|
  {
    if other != [] {
      KeysCons(other);
      UpdateKeys(Set(fields, other[0].0, other[0].1), other[1..], q);
    }
  }
  /** A lookup in `a + b` finds `a`'s entry first. */
  lemma {:induction false} LookupAppend<K, V>(a: seq<(K, V)>, b: seq<(K, V)>, q: K)
    ensures Lookup(a + b, q) == if q in Keys(a) then Lookup(a, q) else Lookup(b, q)
  {
    if a == [] {
      assert a + b == b;
    } else {
      assert (a + b)[1..] == a[1..] + b;
      KeysCons(a);
      LookupAppend(a[1..], b, q);
    }
  }

  /** Assigning a new key appends it. */
  lemma {:induction false} SetFresh<K, V>(fields: seq<(K, V)>, k: K, v: V)
    requires k !in Keys(fields)
    ensures Set(fields, k, v) == fields + [(k, v)]
  {
    if fields != [] {
      KeysCons(fields);
      SetFresh(fields[1..], k, v);
      assert fields == [fields[0]] + fields[1..];
    }
  }

  /** The entries after the first of a dict make a dict. */
  lemma DictTail<K, V>(fields: seq<(K, V)>)
    requires fields != [] && IsDict(fields)
    ensures IsDict(fields[1..])
  {
    var rest := fields[1..];
    forall i, j | 0 <= i < j < |rest|
      ensures rest[i].0 != rest[j].0
    {
      assert rest[i] == fields[i + 1] && rest[j] == fields[j + 1];
    }
  }

  /** Appending a fresh first entry keeps the remaining entries fresh. */
  lemma FreshAfterAppend<K, V>(fields: seq<(K, V)>, other: seq<(K, V)>)
    requires other != [] && IsDict(other)
    requires forall i :: 0 <= i < |other| ==> other[i].0 !in Keys(fields)
    ensures forall i :: 0 <= i < |other| - 1 ==> other[1..][i].0 !in Keys(fields + [other[0]])
  {
    KeysAppend(fields, [other[0]]);
    assert Keys([other[0]]) == [other[0].0];
    forall i | 0 <= i < |other| - 1
      ensures other[1..][i].0 !in Keys(fields + [other[0]])
    {
      assert other[1..][i] == other[i + 1];
      assert other[i + 1].0 != other[0].0;
    }
  }

  /** Updating with a fresh first entry appends it, then updates with the rest. */
  lemma UpdateFreshStep<K, V>(fields: seq<(K, V)>, other: seq<(K, V)>)
    requires other != [] && other[0].0 !in Keys(fields)
    ensures Update(fields, other) == Update(fields + [other[0]], other[1..])
    ensures fields + [other[0]] + other[1..] == fields + other
  {
    SetFresh(fields, other[0].0, other[0].1);
    var l, r := fields + [other[0]] + other[1..], fields + other;
    assert |l| == |r|;
    forall i | 0 <= i < |l|
      ensures l[i] == r[i]
    {
      if i > |fields| {
        assert l[i] == other[1..][i - |fields| - 1];
      }
    }
  }

  /** Updating with entries none of whose keys is present appends them in order. */
  lemma {:induction false} UpdateFresh<K, V>(fields: seq<(K, V)>, other: seq<(K, V)>)
    requires IsDict(other)
    requires forall i :: 0 <= i < |other| ==> other[i].0 !in Keys(fields)
    ensures Update(fields, other) == fields + other
    decreases |other|
  {
    if other != [] {
      UpdateFreshStep(fields, other);
      FreshAfterAppend(fields, other);
      DictTail(other);
      UpdateFresh(fields + [other[0]], other[1..]);
    }
  }

  /** Two dicts with no key in common make a dict when joined. */
  lemma DictConcat<K, V>(a: seq<(K, V)>, b: seq<(K, V)>)
    requires IsDict(a) && IsDict(b)
    requires forall i, j :: 0 <= i < |a| && 0 <= j < |b| ==> a[i].0 != b[j].0
    ensures IsDict(a + b)
  {
    forall i, j | 0 <= i < j < |a + b|
      ensures (a + b)[i].0 != (a + b)[j].0
    {
      if j < |a| {
      } else if i < |a| {
        assert (a + b)[j] == b[j - |a|];
      } else {
        assert (a + b)[i] == b[i - |a|] && (a + b)[j] == b[j - |a|];
      }
    }
  }

  // Lists.

  /** `[f(x) for x in xs]`: one result per element, in order. */
  function MapList<T, U>(f: T -> U, xs: seq<T>): (r: seq<U>)
    ensures |r| == |xs|
    ensures forall i :: 0 <= i < |xs| ==> r[i] == f(xs[i])
  {
    if xs == [] then [] else [f(xs[0])] + MapList(f, xs[1..])
  }

  /** A serialiser's `if not obj: return None` guard around `f`. */
  function MapOption<T, U>(f: T -> U, x: Option<T>): (r: Option<U>)
    ensures r.None? <==> x.None?
    ensures r.Some? ==> r.value == f(x.value)
  {
    match x
    case None => None
    case Some(v) => Some(f(v))
  }

  /** Serialising two lists one after the other is serialising their concatenation. */
  lemma MapListAppend<T, U>(f: T -> U, a: seq<T>, b: seq<T>)
    ensures MapList(f, a + b) == MapList(f, a) + MapList(f, b)
  {
    var l, la, lb := MapList(f, a + b), MapList(f, a), MapList(f, b);
    assert |l| == |la + lb|;
    forall i | 0 <= i < |l|
      ensures l[i] == (la + lb)[i]
    {
      if i < |a| {
        assert (a + b)[i] == a[i] && (la + lb)[i] == la[i];
      } else {
        assert (a + b)[i] == b[i - |a|] && (la + lb)[i] == lb[i - |a|];
      }
    }
  }
}
