/** JSON values as the JavaScript code sees them, with the parts of the
    object model the comparison and merge code relies on: `Object.keys`,
    property access `v[k]`, truthiness and object spread. Arrays expose the
    decimal strings "0", "1", … as their keys, as `Object.keys` does. */
module Json {
  import opened Wrappers
  import opened Text

  /** An object keeps its properties as an ordered list of (key, value)
      pairs, in insertion order. */
  datatype Json =
    | Null
    | Bool(b: bool)
    | Num(n: int)
    | Str(s: string)
    | Arr(items: seq<Json>)
    | Obj(fields: seq<(string, Json)>)
  {
    /** `typeof v === "object" && v !== null`. */
    predicate IsObject() { Arr? || Obj? }

    /** JavaScript truthiness. */
    predicate Truthy() {
      match this
      case Null => false
      case Bool(b) => b
      case Num(n) => n != 0
      case Str(s) => s != ""
      case _ => true
    }
  }

  /** `undefined` is `None`; `x || y` and `x?.[k]` work on these. */
  predicate Defined(v: Option<Json>) { v.Some? && v.value.Truthy() }

  function Sum(xs: seq<nat>): (r: nat)
    ensures forall i :: 0 <= i < |xs| ==> xs[i] <= r
  {
    if xs == [] then 0 else xs[0] + Sum(xs[1..])
  }

  /** A measure that shrinks from a container to each of its elements. */
  function Size(j: Json): nat {
    match j
    case Arr(items) => 1 + Sum(seq(|items|, i requires 0 <= i < |items| => Size(items[i])))
    case Obj(fs) => 1 + Sum(seq(|fs|, i requires 0 <= i < |fs| => Size(fs[i].1)))
    case _ => 1
  }

  /** The keys `"0"`, …, `String(n - 1)` of an array or string of length n. */
  function IndexKeys(n: nat): (r: seq<string>)
    ensures |r| == n
    ensures forall i :: 0 <= i < n ==> r[i] == NatToString(i)
  {
    seq(n, i requires 0 <= i < n => NatToString(i))
  }

  function FieldKeys(fs: seq<(string, Json)>): (r: seq<string>)
    ensures |r| == |fs|
    ensures forall i :: 0 <= i < |fs| ==> r[i] == fs[i].0
  {
    seq(|fs|, i requires 0 <= i < |fs| => fs[i].0)
  }

  /** `Object.keys(v)` (and the keys `for … in` visits): indices of arrays
      and strings, property names of objects, nothing for other values. */
  function Keys(j: Json): seq<string> {
    match j
    case Arr(items) => IndexKeys(|items|)
    case Str(s) => IndexKeys(|s|)
    case Obj(fs) => FieldKeys(fs)
    case _ => []
  }

  /** The value stored under the i-th key. */
  function Child(j: Json, i: nat): (r: Json)
    requires i < |Keys(j)|
    ensures j.IsObject() ==> Size(r) < Size(j)
  {
    match j
    case Arr(items) =>
      var sizes := seq(|items|, k requires 0 <= k < |items| => Size(items[k]));
      assert sizes[i] == Size(items[i]);
      items[i]
    case Str(s) => Str([s[i]])
    case Obj(fs) =>
      var sizes := seq(|fs|, k requires 0 <= k < |fs| => Size(fs[k].1));
      assert sizes[i] == Size(fs[i].1);
      fs[i].1
  }

  /** The position of the first occurrence of k in ks, or -1. */
  function Find(ks: seq<string>, k: string): (r: int)
    ensures -1 <= r < |ks|
    ensures r >= 0 ==> ks[r] == k
    ensures r < 0 <==> k !in ks
  {
    if ks == [] then -1
    else if ks[0] == k then 0
    else
      var r := Find(ks[1..], k);
      assert k in ks[1..] ==> k in ks;
      assert forall x :: x in ks[1..] ==> x in ks;
      if r < 0 then -1 else r + 1
  }

  /** Find gives the first occurrence. */
  lemma {:induction false} FindFirst(ks: seq<string>, k: string)
    ensures forall i :: 0 <= i < Find(ks, k) ==> ks[i] != k
  {
    if ks != [] && ks[0] != k {
      FindFirst(ks[1..], k);
      forall i | 0 < i < Find(ks, k) ensures ks[i] != k {
        assert ks[i] == ks[1..][i - 1];
      }
    }
  }

  /** Appending a different key does not move the first occurrence. */
  lemma {:induction false} FindAppendOther(ks: seq<string>, k: string, k': string)
    requires k != k'
    ensures Find(ks + [k], k') == Find(ks, k')
  {
    if ks != [] {
      assert (ks + [k])[1..] == ks[1..] + [k];
      FindAppendOther(ks[1..], k, k');
    }
  }

  /** Property access `v[k]`; `None` is `undefined`. */
  function Get(j: Json, k: string): (r: Option<Json>)
    ensures r.Some? <==> k in Keys(j)
    ensures j.IsObject() && r.Some? ==> Size(r.value) < Size(j)
    ensures j.Str? && r.Some? ==> r.value.Str?
  {
    var i := Find(Keys(j), k);
    if i < 0 then None else Some(Child(j, i))
  }

  /** Every object in the value has distinct property names, as every
      JavaScript object has. */
  predicate WellFormed(j: Json)
    decreases Size(j)
  {
    match j
    case Arr(items) =>
      forall i :: 0 <= i < |items| ==> WellFormed(Child(j, i))
    case Obj(fs) =>
      (forall i, k :: 0 <= i < k < |fs| ==> fs[i].0 != fs[k].0)
      && forall i :: 0 <= i < |fs| ==> WellFormed(Child(j, i))
    case _ => true
  }

  /** `isEqual(a, b)`: identical values are equal; otherwise both must be
      objects (arrays included) with the same number of keys, every key of
      `a` a key of `b`, and the values under it equal again. */
  function IsEqual(a: Json, b: Json): (r: bool)
    ensures a == b ==> r
    ensures !a.IsObject() || !b.IsObject() ==> (r <==> a == b)
    ensures r && a != b ==> |Keys(a)| == |Keys(b)| && forall k :: k in Keys(a) ==> k in Keys(b)
    decreases Size(a)
  {
    if a == b then true
    else if !a.IsObject() || !b.IsObject() then false
    else
      var ka := Keys(a);
      var kb := Keys(b);
      |ka| == |kb|
      && forall i :: 0 <= i < |ka| ==>
           ka[i] in kb && IsEqual(Get(a, ka[i]).value, Get(b, ka[i]).value)
  }

  /** Distinct keys: no key is repeated. */
  predicate Distinct(ks: seq<string>) {
    forall i, k :: 0 <= i < k < |ks| ==> ks[i] != ks[k]
  }

  /** `set.add(f)` on a JavaScript Set kept in insertion order. */
  function AddToSet(s: seq<string>, f: string): (r: seq<string>)
    ensures Distinct(s) ==> Distinct(r)
    ensures forall x :: x in r <==> x in s || x == f
  {
    if f in s then s else s + [f]
  }

  lemma {:induction false} DistinctCard(ks: seq<string>)
    requires Distinct(ks)
    ensures |set k | k in ks| == |ks|
  {
    if ks != [] {
      var rest := ks[1..];
      DistinctCard(rest);
      assert (set k | k in ks) == {ks[0]} + (set k | k in rest);
      assert ks[0] !in rest;
    }
  }

  /** Two duplicate-free key lists of the same length, one contained in the
      other, contain each other. */
  lemma SameKeys(ka: seq<string>, kb: seq<string>)
    requires Distinct(ka) && Distinct(kb) && |ka| == |kb|
    requires forall k :: k in ka ==> k in kb
    ensures forall k :: k in kb ==> k in ka
  {
    var sa := set k | k in ka;
    var sb := set k | k in kb;
    DistinctCard(ka);
    DistinctCard(kb);
    assert sa <= sb;
    var rest := sb - sa;
    assert sa + rest == sb && sa * rest == {};
    assert rest == {};
    forall k | k in kb ensures k in ka {
      assert k in sb;
    }
  }

  lemma KeysDistinct(j: Json)
    requires WellFormed(j)
    ensures Distinct(Keys(j))
  {
    match j
    case Arr(items) =>
      forall i, k | 0 <= i < k < |items| ensures NatToString(i) != NatToString(k) {
        if NatToString(i) == NatToString(k) { NatToStringInjective(i, k); }
      }
    case Str(s) =>
      forall i, k | 0 <= i < k < |s| ensures NatToString(i) != NatToString(k) {
        if NatToString(i) == NatToString(k) { NatToStringInjective(i, k); }
      }
    case _ =>
  }

  /** `xs[String(i)]` is element i. */
  lemma GetIndex(xs: seq<Json>, i: nat)
    requires i < |xs|
    ensures Get(Arr(xs), NatToString(i)) == Some(xs[i])
  {
    var x := Find(Keys(Arr(xs)), NatToString(i));
    NatToStringInjective(x, i);
  }

  /** An object with a single property. */
  lemma GetSingle(k: string, v: Json)
    ensures Keys(Obj([(k, v)])) == [k]
    ensures Get(Obj([(k, v)]), k) == Some(v)
  {
    assert Keys(Obj([(k, v)]))[0] == k;
  }

  lemma ChildWellFormed(j: Json, k: string)
    requires WellFormed(j) && j.IsObject() && k in Keys(j)
    ensures WellFormed(Get(j, k).value)
  {
  }

  /** `isEqual` does not depend on the order of its arguments. */
  lemma {:induction false} IsEqualSymmetric(a: Json, b: Json)
    requires WellFormed(a) && WellFormed(b)
    requires IsEqual(a, b)
    ensures IsEqual(b, a)
    decreases Size(a)
  {
    if a != b {
      var ka := Keys(a);
      var kb := Keys(b);
      KeysDistinct(a);
      KeysDistinct(b);
      SameKeys(ka, kb);
      forall i | 0 <= i < |kb|
        ensures kb[i] in ka && IsEqual(Get(b, kb[i]).value, Get(a, kb[i]).value)
      {
        var k := kb[i];
        var x := Find(ka, k);
        assert ka[x] == k;
        ChildWellFormed(a, k);
        ChildWellFormed(b, k);
        IsEqualSymmetric(Get(a, k).value, Get(b, k).value);
      }
    }
  }

  /** Reordering an object's properties does not change what it equals. */
  lemma PropertyOrderIrrelevant(fs: seq<(string, Json)>, gs: seq<(string, Json)>)
    requires WellFormed(Obj(fs))
    requires multiset(fs) == multiset(gs)
    ensures IsEqual(Obj(fs), Obj(gs))
  {
    var a, b := Obj(fs), Obj(gs);
    if a != b {
      var ka, kb := Keys(a), Keys(b);
      assert |ka| == |kb| by {
        assert |fs| == |multiset(fs)| == |multiset(gs)| == |gs|;
      }
      forall i | 0 <= i < |ka|
        ensures ka[i] in kb && IsEqual(Get(a, ka[i]).value, Get(b, ka[i]).value)
      {
        SamePropertyAt(fs, gs, i);
      }
    }
  }

  /** The i-th property of an object with distinct keys is what any
      reordering of it stores under that key. */
  lemma SamePropertyAt(fs: seq<(string, Json)>, gs: seq<(string, Json)>, i: nat)
    requires forall j, k :: 0 <= j < k < |fs| ==> fs[j].0 != fs[k].0
    requires multiset(fs) == multiset(gs)
    requires i < |fs|
    ensures Keys(Obj(fs))[i] in Keys(Obj(gs))
    ensures Get(Obj(fs), Keys(Obj(fs))[i]) == Get(Obj(gs), Keys(Obj(fs))[i])
  {
    var k := fs[i].0;
    assert fs[i] in multiset(gs);
    var m :| 0 <= m < |gs| && gs[m] == fs[i];
    assert Keys(Obj(gs))[m] == k;
    var x := Find(Keys(Obj(fs)), k);
    var y := Find(Keys(Obj(gs)), k);
    assert x == i;
    assert gs[y].0 == k;
    assert gs[y] in multiset(fs);
    var n :| 0 <= n < |fs| && fs[n] == gs[y];
    assert n == i;
  }

  /** Only keys are compared: an array equals the object that maps its
      decimal indices to its elements (so `[]` equals `{}`). */
  lemma ArrayEqualsIndexObject(xs: seq<Json>)
    ensures IsEqual(Arr(xs), Obj(seq(|xs|, i requires 0 <= i < |xs| => (NatToString(i), xs[i]))))
  {
    var a := Arr(xs);
    var b := Obj(seq(|xs|, i requires 0 <= i < |xs| => (NatToString(i), xs[i])));
    assert Keys(a) == Keys(b);
    forall i | 0 <= i < |xs|
      ensures IsEqual(Get(a, Keys(a)[i]).value, Get(b, Keys(a)[i]).value)
    {
      var x := Find(Keys(a), Keys(a)[i]);
      assert Child(a, x) == Child(b, x);
    }
  }

  lemma EmptyArrayEqualsEmptyObject()
    ensures IsEqual(Arr([]), Obj([]))
    ensures IsEqual(Arr([Str("x")]), Obj([("0", Str("x"))]))
  {
    ArrayEqualsIndexObject([]);
    ArrayEqualsIndexObject([Str("x")]);
    assert NatToString(0) == "0";
    assert seq(1, i requires 0 <= i < 1 => (NatToString(i), [Str("x")][i])) == [("0", Str("x"))];
  }
}
