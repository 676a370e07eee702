/** The tech-stack collection: one record per JSON file of the data
    directory, keyed by the file name. Records are kept in insertion order,
    which is the order queries return them in. */
module TechStore {
  import opened Wrappers
  import opened Json

  /** A tech-stack record. `data` is the published JSON and `draft` the
      editor's working copy (`docs_flow_data`); `Null` stands for absent. */
  datatype TechDoc = TechDoc(
    id: string,
    version: string,
    lastCommitId: Option<string>,
    lastUpdate: Option<int>,
    creation: Option<int>,
    lastGithubUser: Option<string>,
    lastUpdatedBy: string,
    status: string,
    data: Json,
    draft: Json)

  /** A record as an upsert first inserts it: the schema's defaults. */
  function Fresh(id: string): (d: TechDoc)
    ensures d.id == id && d.status == "published" && d.lastUpdatedBy == "github"
  {
    TechDoc(id, "", None, None, None, None, "github", "published", Null, Null)
  }

  predicate UniqueIds(ds: seq<TechDoc>) {
    forall i, j :: 0 <= i < j < |ds| ==> ds[i].id != ds[j].id
  }

  function Ids(ds: seq<TechDoc>): (r: set<string>)
    ensures forall id :: id in r <==> exists i :: 0 <= i < |ds| && ds[i].id == id
  {
    set i | 0 <= i < |ds| :: ds[i].id
  }

  /** `findOne({ _id: id })`. */
  function Find(ds: seq<TechDoc>, id: string): (r: Option<TechDoc>)
    ensures r.Some? <==> id in Ids(ds)
    ensures r.Some? ==> r.value in ds && r.value.id == id
  {
    if ds == [] then None
    else if ds[0].id == id then Some(ds[0])
    else
      assert Ids(ds) == {ds[0].id} + Ids(ds[1..]) by {
        forall x | x in Ids(ds) ensures x in {ds[0].id} + Ids(ds[1..]) {
          var i :| 0 <= i < |ds| && ds[i].id == x;
          if i > 0 { assert ds[1..][i - 1].id == x; }
        }
      }
      Find(ds[1..], id)
  }

  /** `updateOne({ _id: id }, …)`: the record with that id becomes f of
      itself; nothing else changes. */
  function UpdateOne(ds: seq<TechDoc>, id: string, f: TechDoc -> TechDoc): (r: seq<TechDoc>)
    ensures |r| == |ds|
    ensures forall i :: 0 <= i < |ds| ==> r[i] == if ds[i].id == id then f(ds[i]) else ds[i]
  {
    seq(|ds|, i requires 0 <= i < |ds| => if ds[i].id == id then f(ds[i]) else ds[i])
  }

  /** `updateOne({ _id: id }, …, { upsert: true })`: f of the record, or of
      nothing when there is none, in which case the new record goes last. */
  function UpsertOne(ds: seq<TechDoc>, id: string, f: Option<TechDoc> -> TechDoc): (r: seq<TechDoc>)
  {
    if id in Ids(ds) then UpdateOne(ds, id, d => f(Some(d))) else ds + [f(None)]
  }

  /** `deleteMany({ _id: { $in: ids } })`. */
  function DeleteIds(ds: seq<TechDoc>, ids: set<string>): (r: seq<TechDoc>)
    ensures forall d :: d in r <==> d in ds && d.id !in ids
    ensures |r| <= |ds|
  {
    if ds == [] then []
    else
      var r := DeleteIds(ds[..|ds| - 1], ids);
      var d := ds[|ds| - 1];
      assert forall x :: x in ds <==> x in ds[..|ds| - 1] || x == d;
      if d.id in ids then r else r + [d]
  }

  /** The record for id after an upsert is f of what was there before. */
  lemma UpsertFinds(ds: seq<TechDoc>, id: string, f: Option<TechDoc> -> TechDoc)
    requires UniqueIds(ds)
    requires forall o :: f(o).id == id
    ensures UniqueIds(UpsertOne(ds, id, f))
    ensures Find(UpsertOne(ds, id, f), id) == Some(f(Find(ds, id)))
    ensures forall other :: other != id ==> Find(UpsertOne(ds, id, f), other) == Find(ds, other)
  {
    var r := UpsertOne(ds, id, f);
    if id in Ids(ds) {
      var d := Find(ds, id).value;
      var k :| 0 <= k < |ds| && ds[k] == d;
      assert r[k] == f(Some(d));
      FindAt(r, k);
      forall other | other != id ensures Find(r, other) == Find(ds, other) {
        UpdateFindOther(ds, id, d0 => f(Some(d0)), other);
      }
    } else {
      assert r[|ds|] == f(None);
      FindAt(r, |ds|);
      forall other | other != id ensures Find(r, other) == Find(ds, other) {
        FindAppendOther(ds, f(None), other);
      }
    }
  }

  /** With unique ids, the record at position k is the one found by its id. */
  lemma FindAt(ds: seq<TechDoc>, k: nat)
    requires UniqueIds(ds) && k < |ds|
    ensures Find(ds, ds[k].id) == Some(ds[k])
  {
    var r := Find(ds, ds[k].id);
    var j :| 0 <= j < |ds| && ds[j] == r.value;
    assert forall m :: 0 <= m < |ds| && m != k ==> ds[m].id != ds[k].id;
  }

  lemma {:induction false} UpdateFindOther(ds: seq<TechDoc>, id: string, f: TechDoc -> TechDoc, other: string)
    requires other != id && forall d: TechDoc :: d.id == id ==> f(d).id == id
    ensures Find(UpdateOne(ds, id, f), other) == Find(ds, other)
  {
    if ds != [] {
      assert UpdateOne(ds, id, f)[1..] == UpdateOne(ds[1..], id, f);
      UpdateFindOther(ds[1..], id, f, other);
    }
  }

  lemma {:induction false} FindAppendOther(ds: seq<TechDoc>, d: TechDoc, other: string)
    requires other != d.id
    ensures Find(ds + [d], other) == Find(ds, other)
  {
    if ds != [] {
      assert (ds + [d])[1..] == ds[1..] + [d];
      FindAppendOther(ds[1..], d, other);
    }
  }

  /** Deleting one id set and then another is deleting their union. */
  lemma {:induction false} DeleteIdsTwice(ds: seq<TechDoc>, a: set<string>, b: set<string>)
    ensures DeleteIds(DeleteIds(ds, a), b) == DeleteIds(ds, a + b)
  {
    if ds != [] {
      var init, d := ds[..|ds| - 1], ds[|ds| - 1];
      DeleteIdsTwice(init, a, b);
      var r := DeleteIds(init, a);
      if d.id !in a {
        assert (r + [d])[..|r|] == r;
      }
    }
  }

  /** Deleting no ids keeps the collection as it is. */
  lemma {:induction false} DeleteNothing(ds: seq<TechDoc>)
    ensures DeleteIds(ds, {}) == ds
  {
    if ds != [] {
      DeleteNothing(ds[..|ds| - 1]);
      assert ds[..|ds| - 1] + [ds[|ds| - 1]] == ds;
    }
  }

  /** Updating one record, keeping its id, changes only what is found
      under that id. */
  lemma UpdateFinds(ds: seq<TechDoc>, id: string, g: TechDoc -> TechDoc)
    requires UniqueIds(ds) && id in Ids(ds)
    requires forall d :: g(d).id == d.id
    ensures UniqueIds(UpdateOne(ds, id, g))
    ensures Find(UpdateOne(ds, id, g), id) == Some(g(Find(ds, id).value))
    ensures forall other :: other != id ==> Find(UpdateOne(ds, id, g), other) == Find(ds, other)
  {
    var r := UpdateOne(ds, id, g);
    var d := Find(ds, id).value;
    var k :| 0 <= k < |ds| && ds[k] == d;
    forall i, j | 0 <= i < j < |r| ensures r[i].id != r[j].id {
      assert r[i].id == ds[i].id && r[j].id == ds[j].id;
    }
    FindAt(r, k);
    forall other | other != id ensures Find(r, other) == Find(ds, other) {
      UpdateFindOther(ds, id, g, other);
    }
  }

  /** Deleting some ids removes exactly those from the ids present. */
  lemma DeleteIdsIds(ds: seq<TechDoc>, ids: set<string>)
    ensures Ids(DeleteIds(ds, ids)) == Ids(ds) - ids
  {
    var r := DeleteIds(ds, ids);
    forall x | x in Ids(ds) - ids ensures x in Ids(r) {
      var i :| 0 <= i < |ds| && ds[i].id == x;
      assert ds[i] in r;
    }
    forall x | x in Ids(r) ensures x in Ids(ds) - ids {
      var i :| 0 <= i < |r| && r[i].id == x;
      assert r[i] in ds;
    }
  }

  /** An update that keeps the id it targets keeps the set of ids. */
  lemma UpdateKeepsIds(ds: seq<TechDoc>, id: string, f: TechDoc -> TechDoc)
    requires forall d: TechDoc :: d.id == id ==> f(d).id == id
    ensures Ids(UpdateOne(ds, id, f)) == Ids(ds)
  {
    var r := UpdateOne(ds, id, f);
    forall x | x in Ids(ds) ensures x in Ids(r) {
      var i :| 0 <= i < |ds| && ds[i].id == x;
      assert r[i].id == x;
    }
  }

  /** An upsert adds its id and keeps every other. */
  lemma UpsertIds(ds: seq<TechDoc>, id: string, f: Option<TechDoc> -> TechDoc)
    requires forall o :: f(o).id == id
    ensures Ids(UpsertOne(ds, id, f)) == Ids(ds) + {id}
  {
    if id in Ids(ds) {
      UpdateKeepsIds(ds, id, d => f(Some(d)));
    } else {
      var r := UpsertOne(ds, id, f);
      assert r[|ds|].id == id;
      forall x | x in Ids(ds) ensures x in Ids(r) {
        var i :| 0 <= i < |ds| && ds[i].id == x;
        assert r[i].id == x;
      }
    }
  }

  class Store {
    var docs: seq<TechDoc>

    predicate Valid()
      reads this
    {
      UniqueIds(docs)
    }

    constructor (docs: seq<TechDoc>)
      requires UniqueIds(docs)
      ensures Valid() && this.docs == docs
    {
      this.docs := docs;
    }

    /** `findOneAndUpdate({ _id: id }, { $set })` without upsert. */
    method Update(id: string, f: TechDoc -> TechDoc)
      requires Valid()
      requires forall d :: f(d).id == d.id
      modifies this
      ensures Valid()
      ensures docs == UpdateOne(old(docs), id, f)
    {
      docs := UpdateOne(docs, id, f);
    }

    /** An upsert by id. */
    method Upsert(id: string, f: Option<TechDoc> -> TechDoc)
      requires Valid()
      requires forall o :: f(o).id == id
      modifies this
      ensures Valid()
      ensures docs == UpsertOne(old(docs), id, f)
    {
      UpsertFinds(docs, id, f);
      docs := UpsertOne(docs, id, f);
    }

    /** `deleteMany` by id. */
    method Delete(ids: set<string>)
      requires Valid()
      modifies this
      ensures Valid()
      ensures docs == DeleteIds(old(docs), ids)
    {
      DeleteKeepsUnique(docs, ids);
      docs := DeleteIds(docs, ids);
    }
  }

  lemma {:induction false} DeleteKeepsUnique(ds: seq<TechDoc>, ids: set<string>)
    requires UniqueIds(ds)
    ensures UniqueIds(DeleteIds(ds, ids))
  {
    if ds != [] {
      var init := ds[..|ds| - 1];
      DeleteKeepsUnique(init, ids);
      var d := ds[|ds| - 1];
      forall x | x in DeleteIds(init, ids) ensures x.id != d.id {
        var i :| 0 <= i < |init| && init[i] == x;
        assert ds[i] == x;
      }
    }
  }
}
