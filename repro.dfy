/** The silent three-way merge of tech-stack data, the array-item editor and
    the webhook's commit scan, in the form the repro harness keeps them. */
module Repro {
  import opened Wrappers
  import opened Text
  import opened Json
  import opened DataFiles

  /** `{...t}`: the own enumerable properties of t copied into a fresh
      object. Arrays and strings contribute their indices; null, booleans
      and numbers contribute nothing. */
  function Spread(t: Json): (r: Json)
    ensures r.Obj?
    ensures !(t.IsObject() || t.Str?) ==> r == Obj([])
  {
    match t
    case Obj(_) => t
    case Arr(_) | Str(_) =>
      var ks := Keys(t);
      Obj(seq(|ks|, i requires 0 <= i < |ks| => (ks[i], Child(t, i))))
    case _ => Obj([])
  }

  /** The copy has the same keys, and the same value under each. */
  lemma SpreadGet(t: Json, k: string)
    requires t.IsObject() || t.Str?
    ensures Keys(Spread(t)) == Keys(t)
    ensures Get(Spread(t), k) == Get(t, k)
  {
    var r := Spread(t);
    var ks := Keys(t);
    assert Keys(r) == ks;
    assert forall i :: 0 <= i < |ks| ==> Child(r, i) == Child(t, i);
  }

  /** `o[k] = v` on an object: an existing property keeps its place, a new
      one goes last. */
  function SetKey(o: Json, k: string, v: Json): (r: Json)
    requires o.Obj?
    ensures r.Obj?
    ensures Get(r, k) == Some(v)
    ensures Keys(r) == if k in Keys(o) then Keys(o) else Keys(o) + [k]
  {
    var i := Find(Keys(o), k);
    if i < 0 then
      var r := Obj(o.fields + [(k, v)]);
      assert Keys(r) == Keys(o) + [k];
      r
    else
      var r := Obj(o.fields[i := (k, v)]);
      assert Keys(r) == Keys(o);
      r
  }

  /** Writing one property leaves every other property as it was. */
  lemma SetKeyOther(o: Json, k: string, v: Json, k': string)
    requires o.Obj? && k' != k
    ensures Get(SetKey(o, k, v), k') == Get(o, k')
  {
    var r := SetKey(o, k, v);
    var i := Find(Keys(o), k);
    if i < 0 {
      FindAppendOther(Keys(o), k, k');
      assert forall j :: 0 <= j < |Keys(o)| ==> Child(r, j) == Child(o, j);
    } else {
      assert forall j :: 0 <= j < |Keys(o)| && j != i ==> Child(r, j) == Child(o, j);
    }
  }

  /** `x || d` for a possibly undefined value. */
  function Or(x: Option<Json>, d: Json): (r: Json)
    ensures d != Null ==> r != Null
  {
    if Defined(x) then x.value else d
  }

  /** `b?.[key]`: undefined when b is null. */
  function BaseAt(b: Json, key: string): Option<Json> {
    if b.Null? then None else Get(b, key)
  }

  /** `v?.[idx]` for an array index. */
  function ItemAt(v: Option<Json>, idx: nat): Option<Json> {
    if v.None? then None else Get(v.value, NatToString(idx))
  }

  /** One element of a locally modified array: the incoming item when the
      local and base items both exist and are deeply equal, otherwise the
      local item when it exists, otherwise the incoming item. */
  function MergeItem(local: Option<Json>, bItem: Option<Json>, incItem: Json): Json {
    if Defined(local) && Defined(bItem) && IsEqual(local.value, bItem.value) then incItem
    else if Defined(local) then local.value
    else incItem
  }

  /** `incoming.map((item, idx) => …)` over a locally modified array: each
      incoming item merged against the local and base items at its index. */
  function MergedItems(local: Option<Json>, base: Option<Json>, items: seq<Json>): seq<Json> {
    seq(|items|, idx requires 0 <= idx < |items| => MergeItem(ItemAt(local, idx), ItemAt(base, idx), items[idx]))
  }

  /** The path string `[...path, key].join("::")`. */
  function FullPath(path: seq<string>, key: string): string {
    Join(path + [key], "::")
  }

  /** What the merge writes under `key` (a key of `inc`), or `None` when
      it keeps the target's value. */
  function Entry(t: Json, inc: Json, b: Json, path: seq<string>, modified: seq<string>, key: string): (r: Option<Json>)
    requires key in Keys(inc)
    decreases Size(inc), 0
  {
    var incValue := Get(inc, key).value;
    var baseValue := BaseAt(b, key);
    var full := FullPath(path, key);
    match incValue
    case Arr(items) =>
      if full !in modified then Some(incValue)
      else
        Some(Arr(MergedItems(Get(t, key), baseValue, items)))
    case Obj(_) =>
      Some(Merged(Or(Get(t, key), Obj([])), incValue, Or(baseValue, Obj([])), path + [key], modified))
    case _ =>
      if full !in modified then Some(incValue) else None
  }

  /** The result object after the first n keys of `inc` are processed. */
  function MergedKeys(t: Json, inc: Json, b: Json, path: seq<string>, modified: seq<string>, n: nat): (r: Json)
    requires n <= |Keys(inc)|
    ensures r.Obj?
    decreases Size(inc), n
  {
    if n == 0 then Spread(t)
    else
      var prev := MergedKeys(t, inc, b, path, modified, n - 1);
      var key := Keys(inc)[n - 1];
      var e := Entry(t, inc, b, path, modified, key);
      if e.Some? then SetKey(prev, key, e.value) else prev
  }

  /** The inner `merge(t, inc, b, path)`. */
  function Merged(t: Json, inc: Json, b: Json, path: seq<string>, modified: seq<string>): (r: Json)
    ensures r.Obj?
    decreases Size(inc), |Keys(inc)| + 1
  {
    MergedKeys(t, inc, b, path, modified, |Keys(inc)|)
  }

  lemma MergedKeysStep(t: Json, inc: Json, b: Json, path: seq<string>, modified: seq<string>, n: nat)
    requires 0 < n <= |Keys(inc)|
    ensures var key := Keys(inc)[n - 1];
      var e := Entry(t, inc, b, path, modified, key);
      MergedKeys(t, inc, b, path, modified, n)
      == if e.Some? then SetKey(MergedKeys(t, inc, b, path, modified, n - 1), key, e.value)
         else MergedKeys(t, inc, b, path, modified, n - 1)
  {
  }

  /** The entries the loop writes, one per key of `inc`, in key order. */
  function Entries(t: Json, inc: Json, b: Json, path: seq<string>, modified: seq<string>): (es: seq<Option<Json>>)
    ensures |es| == |Keys(inc)|
  {
    seq(|Keys(inc)|, i requires 0 <= i < |Keys(inc)| => Entry(t, inc, b, path, modified, Keys(inc)[i]))
  }

  lemma EntriesAt(t: Json, inc: Json, b: Json, path: seq<string>, modified: seq<string>, i: nat)
    requires i < |Keys(inc)|
    ensures Entries(t, inc, b, path, modified)[i] == Entry(t, inc, b, path, modified, Keys(inc)[i])
  {
  }

  /** What reading k gives after the first n writes of `es` under the keys
      `ks` (a `None` entry writes nothing), starting from `init`. */
  function LastWrite(ks: seq<string>, es: seq<Option<Json>>, n: nat, k: string, init: Option<Json>): Option<Json>
    requires n <= |ks| && n <= |es|
  {
    if n == 0 then init
    else if ks[n - 1] == k && es[n - 1].Some? then es[n - 1]
    else LastWrite(ks, es, n - 1, k, init)
  }

  lemma LastWriteStep(ks: seq<string>, es: seq<Option<Json>>, n: nat, k: string, init: Option<Json>)
    requires 0 < n <= |ks| && n <= |es|
    ensures LastWrite(ks, es, n, k, init)
            == if ks[n - 1] == k && es[n - 1].Some? then es[n - 1] else LastWrite(ks, es, n - 1, k, init)
  {
  }

  /** With distinct keys, the last write under ks[i] is entry i, if written. */
  lemma {:induction false} LastWriteOwn(ks: seq<string>, es: seq<Option<Json>>, n: nat, k: string, init: Option<Json>, i: nat)
    requires n <= |ks| && n <= |es| && Distinct(ks)
    requires i < |ks| && i < |es| && ks[i] == k
    ensures i < n && es[i].Some? ==> LastWrite(ks, es, n, k, init) == es[i]
    ensures !(i < n && es[i].Some?) ==> LastWrite(ks, es, n, k, init) == init
  {
    if n > 0 {
      LastWriteOwn(ks, es, n - 1, k, init, i);
      if n - 1 != i {
        assert ks[n - 1] != k;
      }
    }
  }

  /** A key never written reads as `init`. */
  lemma {:induction false} LastWriteAbsent(ks: seq<string>, es: seq<Option<Json>>, n: nat, k: string, init: Option<Json>)
    requires n <= |ks| && n <= |es| && k !in ks
    ensures LastWrite(ks, es, n, k, init) == init
  {
    if n > 0 {
      LastWriteAbsent(ks, es, n - 1, k, init);
    }
  }

  lemma {:induction false} MergedKeysRead(t: Json, inc: Json, b: Json, path: seq<string>, modified: seq<string>, n: nat, k: string)
    requires n <= |Keys(inc)|
    ensures Get(MergedKeys(t, inc, b, path, modified, n), k)
            == LastWrite(Keys(inc), Entries(t, inc, b, path, modified), n, k, Get(Spread(t), k))
  {
    if n > 0 {
      MergedKeysRead(t, inc, b, path, modified, n - 1, k);
      var ks, es, init := Keys(inc), Entries(t, inc, b, path, modified), Get(Spread(t), k);
      MergedKeysStep(t, inc, b, path, modified, n);
      EntriesAt(t, inc, b, path, modified, n - 1);
      LastWriteStep(ks, es, n, k, init);
      ReadStep(MergedKeys(t, inc, b, path, modified, n - 1), MergedKeys(t, inc, b, path, modified, n), ks[n - 1], es[n - 1], k,
               LastWrite(ks, es, n - 1, k, init), LastWrite(ks, es, n, k, init));
    }
  }

  lemma ReadStep(prev: Json, next: Json, key: string, e: Option<Json>, k: string, before: Option<Json>, after: Option<Json>)
    requires prev.Obj?
    requires next == if e.Some? then SetKey(prev, key, e.value) else prev
    requires Get(prev, k) == before
    requires after == if key == k && e.Some? then e else before
    ensures Get(next, k) == after
  {
    WriteStep(prev, next, key, e, k);
  }

  /** Reading k after the loop body wrote e (or nothing) under key. */
  lemma WriteStep(prev: Json, next: Json, key: string, e: Option<Json>, k: string)
    requires prev.Obj?
    requires next == if e.Some? then SetKey(prev, key, e.value) else prev
    ensures k == key && e.Some? ==> Get(next, k) == e
    ensures !(k == key && e.Some?) ==> Get(next, k) == Get(prev, k)
  {
    if k != key && e.Some? {
      SetKeyOther(prev, key, e.value, k);
    }
  }

  /** Under each key the merged object holds what the loop wrote for it, or
      the copied target value when nothing was written. */
  lemma MergedGet(t: Json, inc: Json, b: Json, path: seq<string>, modified: seq<string>, k: string)
    requires WellFormed(inc)
    ensures k in Keys(inc) && Entry(t, inc, b, path, modified, k).Some? ==>
              Get(Merged(t, inc, b, path, modified), k) == Entry(t, inc, b, path, modified, k)
    ensures !(k in Keys(inc) && Entry(t, inc, b, path, modified, k).Some?) ==>
              Get(Merged(t, inc, b, path, modified), k) == Get(Spread(t), k)
  {
    var ks, es := Keys(inc), Entries(t, inc, b, path, modified);
    MergedKeysRead(t, inc, b, path, modified, |ks|, k);
    if k in ks {
      KeysDistinct(inc);
      var i :| 0 <= i < |ks| && ks[i] == k;
      LastWriteOwn(ks, es, |ks|, k, Get(Spread(t), k), i);
      EntriesAt(t, inc, b, path, modified, i);
    } else {
      LastWriteAbsent(ks, es, |ks|, k, Get(Spread(t), k));
    }
  }

  /** Keys that incoming does not mention keep the target's value. */
  lemma MergeKeepsUnmentioned(t: Json, inc: Json, b: Json, path: seq<string>, modified: seq<string>, k: string)
    requires WellFormed(inc) && k !in Keys(inc)
    ensures Get(Merged(t, inc, b, path, modified), k) == Get(Spread(t), k)
  {
    MergedGet(t, inc, b, path, modified, k);
  }

  /** An incoming array at a path that is not locally modified replaces the
      local value outright. */
  lemma MergeArrayReplaced(t: Json, inc: Json, b: Json, path: seq<string>, modified: seq<string>, k: string)
    requires WellFormed(inc) && k in Keys(inc)
    requires Get(inc, k).value.Arr? && FullPath(path, k) !in modified
    ensures Get(Merged(t, inc, b, path, modified), k) == Get(inc, k)
  {
    MergedGet(t, inc, b, path, modified, k);
  }

  /** An incoming array at a locally modified path is merged item by item
      and has exactly the incoming length, so a longer local array loses
      its tail. */
  lemma MergeArrayItems(t: Json, inc: Json, b: Json, path: seq<string>, modified: seq<string>, k: string)
    requires WellFormed(inc) && k in Keys(inc)
    requires Get(inc, k).value.Arr? && FullPath(path, k) in modified
    ensures var r := Get(Merged(t, inc, b, path, modified), k);
      var items := Get(inc, k).value.items;
      && r.Some? && r.value.Arr? && |r.value.items| == |items|
      && forall idx :: 0 <= idx < |items| ==>
           r.value.items[idx] == MergeItem(ItemAt(Get(t, k), idx), ItemAt(BaseAt(b, k), idx), items[idx])
  {
    var items := Get(inc, k).value.items;
    var e := Entry(t, inc, b, path, modified, k);
    assert e == Some(Arr(MergedItems(Get(t, k), BaseAt(b, k), items)));
    MergedGet(t, inc, b, path, modified, k);
  }

  /** An incoming object is merged recursively, one path segment deeper,
      into the local value (or `{}`) against the base value (or `{}`). */
  lemma MergeNested(t: Json, inc: Json, b: Json, path: seq<string>, modified: seq<string>, k: string)
    requires WellFormed(inc) && k in Keys(inc) && Get(inc, k).value.Obj?
    ensures Get(Merged(t, inc, b, path, modified), k)
      == Some(Merged(Or(Get(t, k), Obj([])), Get(inc, k).value, Or(BaseAt(b, k), Obj([])), path + [k], modified))
  {
    MergedGet(t, inc, b, path, modified, k);
  }

  /** An incoming scalar replaces the local value, unless its path is locally
      modified, in which case the local value stays. */
  lemma MergeScalar(t: Json, inc: Json, b: Json, path: seq<string>, modified: seq<string>, k: string)
    requires WellFormed(inc) && k in Keys(inc) && !Get(inc, k).value.IsObject()
    ensures FullPath(path, k) !in modified ==> Get(Merged(t, inc, b, path, modified), k) == Get(inc, k)
    ensures FullPath(path, k) in modified ==> Get(Merged(t, inc, b, path, modified), k) == Get(Spread(t), k)
  {
    MergedGet(t, inc, b, path, modified, k);
  }

  /** The inner `merge` as the code runs it: start from a copy of `t`, then
      visit the keys of `inc` in order, writing each result property. */
  method Merge(t: Json, inc: Json, b: Json, path: seq<string>, modified: seq<string>) returns (result: Json)
    requires t != Null
    ensures result == Merged(t, inc, b, path, modified)
    decreases Size(inc), 2
  {
    result := Spread(t);
    for n := 0 to |Keys(inc)|
      invariant result == MergedKeys(t, inc, b, path, modified, n)
    {
      result := MergeKey(t, inc, b, path, modified, Keys(inc)[n], result, n);
    }
  }

  /** The body of the `for … in` loop for one key of `inc`: the value it
      computes is written under the key, or nothing is written. */
  method MergeKey(t: Json, inc: Json, b: Json, path: seq<string>, modified: seq<string>, key: string, result: Json,
                  ghost n: nat)
    returns (result': Json)
    requires t != Null && n < |Keys(inc)| && key == Keys(inc)[n]
    requires result == MergedKeys(t, inc, b, path, modified, n)
    ensures result' == MergedKeys(t, inc, b, path, modified, n + 1)
    decreases Size(inc), 1
  {
    var e := KeyValue(t, inc, b, path, modified, key);
    if e.Some? {
      result' := SetKey(result, key, e.value);
    } else {
      result' := result;
    }
    MergedKeysStep(t, inc, b, path, modified, n + 1);
  }

  /** The branches of the loop body: an array replaced or merged item by
      item, an object merged recursively, a scalar written unless its path
      is locally modified. */
  method KeyValue(t: Json, inc: Json, b: Json, path: seq<string>, modified: seq<string>, key: string)
    returns (e: Option<Json>)
    requires t != Null && key in Keys(inc)
    ensures e == Entry(t, inc, b, path, modified, key)
    decreases Size(inc), 0
  {
    var full := FullPath(path, key);
    var incValue := Get(inc, key).value;
    var baseValue := BaseAt(b, key);
    match incValue
    case Arr(items) =>
      if full !in modified {
        e := Some(incValue);
      } else {
        e := Some(Arr(MergedItems(Get(t, key), baseValue, items)));
      }
    case Obj(_) =>
      var sub := Merge(Or(Get(t, key), Obj([])), incValue, Or(baseValue, Obj([])), path + [key], modified);
      e := Some(sub);
    case _ =>
      e := if full !in modified then Some(incValue) else None;
  }

  /** Some key of `inc` makes the merge read a property of the target: an
      object value, or a non-empty array at a locally modified path (the
      `map` callback reads the target's item). */
  predicate ReadsTarget(inc: Json, modified: seq<string>) {
    exists k :: k in Keys(inc) &&
      (Get(inc, k).value.Obj? || (Get(inc, k).value.Arr? && Get(inc, k).value.items != [] && FullPath([], k) in modified))
  }

  /** A null target spreads to `{}` and reads like `{}` everywhere. */
  lemma {:induction false} NullMergesAsEmpty(inc: Json, b: Json, modified: seq<string>, n: nat)
    requires n <= |Keys(inc)|
    ensures MergedKeys(Null, inc, b, [], modified, n) == MergedKeys(Obj([]), inc, b, [], modified, n)
  {
    if n > 0 {
      NullMergesAsEmpty(inc, b, modified, n - 1);
      NullEntryAsEmpty(inc, b, modified, Keys(inc)[n - 1]);
      MergedKeysStep(Null, inc, b, [], modified, n);
      MergedKeysStep(Obj([]), inc, b, [], modified, n);
    }
  }

  /** A null target and `{}` give every key the same entry. */
  lemma NullEntryAsEmpty(inc: Json, b: Json, modified: seq<string>, key: string)
    requires key in Keys(inc)
    ensures Entry(Null, inc, b, [], modified, key) == Entry(Obj([]), inc, b, [], modified, key)
  {
    assert Get(Null, key) == Get(Obj([]), key) == None;
  }

  const NullRead := "TypeError: Cannot read properties of null"

  /** `mergeSilently({target, incoming, base, locallyModifiedPaths})`. A
      null target spreads to `{}`; the call throws only when a key of
      `incoming` makes the merge read a property of that null target. */
  method MergeSilently(target: Json, incoming: Json, base: Json, modified: seq<string>) returns (result: Result<Json, string>)
    ensures result.Err? <==> target == Null && ReadsTarget(incoming, modified)
    ensures result.Ok? ==> result.value == Merged(target, incoming, base, [], modified)
  {
    if target == Null && ReadsTarget(incoming, modified) {
      return Err(NullRead);
    }
    var t := target;
    if t == Null {
      t := Obj([]);
      NullMergesAsEmpty(incoming, base, modified, |Keys(incoming)|);
    }
    var r := Merge(t, incoming, base, [], modified);
    result := Ok(r);
  }

  function Name(s: string): Json { Obj([("name", Str(s))]) }

  /** The data of the harness's first case: the base, the local target with
      "Angular" appended, and the incoming update of React's version. */
  const React181: Json := Obj([("name", Str("React")), ("version", Str("18.1"))])
  const BaseItems: seq<Json> := [Name("React"), Name("Vue")]
  const LocalItems: seq<Json> := [Name("React"), Name("Vue"), Name("Angular")]
  const IncomingItems: seq<Json> := [React181, Name("Vue")]

  lemma IncomingWellFormed()
    ensures WellFormed(Obj([("general", Arr(IncomingItems))]))
  {
    GetSingle("general", Arr(IncomingItems));
    assert Keys(React181) == ["name", "version"];
    assert WellFormed(React181) && WellFormed(Name("Vue"));
    assert WellFormed(Arr(IncomingItems));
  }

  /** Both local items still equal their base items, so each merged item is
      the incoming one. */
  lemma ItemsTakeIncoming()
    ensures forall idx :: 0 <= idx < |IncomingItems| ==>
      MergeItem(ItemAt(Some(Arr(LocalItems)), idx), ItemAt(Some(Arr(BaseItems)), idx), IncomingItems[idx])
        == IncomingItems[idx]
  {
    GetIndex(LocalItems, 0);
    GetIndex(BaseItems, 0);
    GetIndex(LocalItems, 1);
    GetIndex(BaseItems, 1);
  }

  /** When every item merges to the incoming one, the merged array is the
      incoming array. */
  lemma MergeTakesIncomingArray(t: Json, inc: Json, b: Json, path: seq<string>, modified: seq<string>, k: string)
    requires WellFormed(inc) && k in Keys(inc)
    requires Get(inc, k).value.Arr? && FullPath(path, k) in modified
    requires var items := Get(inc, k).value.items;
      forall idx :: 0 <= idx < |items| ==> MergeItem(ItemAt(Get(t, k), idx), ItemAt(BaseAt(b, k), idx), items[idx]) == items[idx]
    ensures Get(Merged(t, inc, b, path, modified), k) == Get(inc, k)
  {
    MergeArrayItems(t, inc, b, path, modified, k);
    assert Get(Merged(t, inc, b, path, modified), k).value.items == Get(inc, k).value.items;
  }

  /** The harness's first case: the user appended "Angular" to a locally
      modified array, the incoming array still has two items, and the
      merged array has the incoming two items only. */
  lemma LocalTailDropped()
    ensures Get(Merged(Obj([("general", Arr(LocalItems))]), Obj([("general", Arr(IncomingItems))]),
                       Obj([("general", Arr(BaseItems))]), [], ["general"]), "general")
            == Some(Arr(IncomingItems))
  {
    GetSingle("general", Arr(LocalItems));
    GetSingle("general", Arr(BaseItems));
    GetSingle("general", Arr(IncomingItems));
    IncomingWellFormed();
    ItemsTakeIncoming();
    MergeTakesIncomingArray(Obj([("general", Arr(LocalItems))]), Obj([("general", Arr(IncomingItems))]),
                            Obj([("general", Arr(BaseItems))]), [], ["general"], "general");
  }

  /** `handleItemChange(items, idx, field, value)` on an existing index: a
      copy of the array with slot idx replaced and every other slot kept. */
  function HandleItemChange(items: seq<Json>, idx: nat, field: string, value: Json): (r: seq<Json>)
    requires idx < |items|
    ensures |r| == |items|
    ensures forall i :: 0 <= i < |items| && i != idx ==> r[i] == items[i]
  {
    var current := items[idx];
    var updated :=
      if current.Str? then
        if field == "name" then value else Obj([("name", current), (field, value)])
      else if field == "url" then SetKey(SetKey(Spread(current), "url", value), "link", value)
      else SetKey(Spread(current), field, value);
    items[idx := updated]
  }

  /** The edited slot: a string item becomes the value when its name is
      edited and otherwise turns into the object `{name, [field]: value}`;
      any other item is copied with the field set, an edited url being
      written to both `url` and `link`, and its other properties kept. */
  lemma HandleItemChangeSlot(items: seq<Json>, idx: nat, field: string, value: Json, k: string)
    requires idx < |items|
    ensures var item := HandleItemChange(items, idx, field, value)[idx];
      && (items[idx].Str? && field == "name" ==> item == value)
      && (items[idx].Str? && field != "name" ==>
            Keys(item) == ["name", field] && Get(item, "name") == Some(items[idx])
            && Get(item, field) == Some(value))
      && (!items[idx].Str? && field == "url" ==>
            Get(item, "url") == Some(value) && Get(item, "link") == Some(value)
            && (k != "url" && k != "link" ==> Get(item, k) == Get(Spread(items[idx]), k)))
      && (!items[idx].Str? && field != "url" ==>
            Get(item, field) == Some(value) && (k != field ==> Get(item, k) == Get(Spread(items[idx]), k)))
  {
    var current := items[idx];
    if !current.Str? {
      var s := Spread(current);
      if field == "url" {
        var u := SetKey(s, "url", value);
        SetKeyOther(u, "link", value, "url");
        if k != "url" && k != "link" {
          SetKeyOther(u, "link", value, k);
          SetKeyOther(s, "url", value, k);
        }
      } else if k != field {
        SetKeyOther(s, field, value, k);
      }
    }
  }

  /** The harness's second case: editing the version of a string item turns
      that item into an object and leaves the other a string. */
  lemma StringItemBecomesObject()
    ensures var r := HandleItemChange([Str("React"), Str("Vue")], 0, "version", Str("18.0"));
      r[0].Obj? && Get(r[0], "name") == Some(Str("React")) && r[1] == Str("Vue")
  {
  }

  /** One commit of a push payload: the file names it added, removed and
      modified. */
  datatype Commit = Commit(added: seq<string>, removed: seq<string>, modified: seq<string>)

  /** A file some commit removed (or added or modified) under the data path. */
  predicate RemovedIn(commits: seq<Commit>, f: string, dataPath: string) {
    IsDataFile(f, dataPath) && exists c :: c in commits && f in c.removed
  }

  predicate ChangedIn(commits: seq<Commit>, f: string, dataPath: string) {
    IsDataFile(f, dataPath) && exists c :: c in commits && (f in c.added || f in c.modified)
  }

  /** The error a payload without commits throws. */
  const NoCommits := "Cannot read properties of undefined (reading 'forEach')"

  /** `webhookProcessCommits(payload, dataPath)`: a payload without commits
      throws; otherwise the removed data files and the added-or-modified
      data files of all commits, each set free of repeats. */
  method WebhookProcessCommits(commits: Option<seq<Commit>>, dataPath: string)
    returns (r: Result<(seq<string>, seq<string>), string>)
    ensures commits.None? <==> r.Err?
    ensures r.Ok? ==> Distinct(r.value.0) && Distinct(r.value.1)
    ensures r.Ok? ==> forall f :: f in r.value.0 <==> RemovedIn(commits.value, f, dataPath)
    ensures r.Ok? ==> forall f :: f in r.value.1 <==> ChangedIn(commits.value, f, dataPath)
  {
    if commits.None? {
      return Err(NoCommits);
    }
    var cs := commits.value;
    var removed: seq<string> := [];
    var changed: seq<string> := [];
    var i := 0;
    while i < |cs|
      invariant 0 <= i <= |cs|
      invariant Distinct(removed) && Distinct(changed)
      invariant forall f :: f in removed <==> RemovedIn(cs[..i], f, dataPath)
      invariant forall f :: f in changed <==> ChangedIn(cs[..i], f, dataPath)
    {
      removed := AddDataFiles(removed, cs[i].removed, dataPath);
      changed := AddDataFiles(changed, cs[i].added, dataPath);
      changed := AddDataFiles(changed, cs[i].modified, dataPath);
      assert cs[..i + 1] == cs[..i] + [cs[i]];
      i := i + 1;
    }
    assert cs[..i] == cs;
    r := Ok((removed, changed));
  }
}
