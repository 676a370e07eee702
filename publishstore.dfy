/** The `PublishBranch` collection: one record per publish branch with the
    files last published on it. Records carry Mongoose's `updatedAt`, which
    every update refreshes. */
module PublishStore {
  import opened Wrappers

  datatype FileRecord = FileRecord(path: string, blobSha: string, publishedAt: Option<int>)

  datatype PrInfo = PrInfo(url: string, number: nat, state: string)

  datatype BranchRecord = BranchRecord(
    id: nat,
    entity: string,
    branch: string,
    base: string,
    files: seq<FileRecord>,
    pr: Option<PrInfo>,
    status: string,
    lastUsedAt: Option<int>,
    updatedAt: int)

  /** What `updateOne({ _id }, { $set })` does to every record: the record
      with that id becomes `f` of itself, stamped with the update time. */
  function UpdateById(rs: seq<BranchRecord>, id: nat, f: BranchRecord -> BranchRecord, now: int): (r: seq<BranchRecord>)
    ensures |r| == |rs|
    ensures forall i :: 0 <= i < |rs| ==> r[i] == if rs[i].id == id then f(rs[i]).(updatedAt := now) else rs[i]
  {
    seq(|rs|, i requires 0 <= i < |rs| => if rs[i].id == id then f(rs[i]).(updatedAt := now) else rs[i])
  }

  function MarkStale(r: BranchRecord): (s: BranchRecord)
    ensures s.status == "stale" && s.(status := r.status) == r
  {
    r.(status := "stale")
  }

  /** `r` is `old` or `old` marked stale at some time. */
  predicate StaleOrSame(old_: BranchRecord, r: BranchRecord) {
    r == old_ || r == MarkStale(old_).(updatedAt := r.updatedAt)
  }

  /** Every record is unchanged or only marked stale. */
  predicate OnlyMarkedStale(before: seq<BranchRecord>, after: seq<BranchRecord>) {
    |before| == |after| && forall i :: 0 <= i < |before| ==> StaleOrSame(before[i], after[i])
  }

  lemma OnlyMarkedStaleTrans(a: seq<BranchRecord>, b: seq<BranchRecord>, c: seq<BranchRecord>)
    requires OnlyMarkedStale(a, b) && OnlyMarkedStale(b, c)
    ensures OnlyMarkedStale(a, c)
  {
    forall i | 0 <= i < |a| ensures StaleOrSame(a[i], c[i]) {
      assert StaleOrSame(b[i], c[i]);
    }
  }

  predicate IdsDistinct(rs: seq<BranchRecord>) {
    forall i, j :: 0 <= i < j < |rs| ==> rs[i].id != rs[j].id
  }

  /** The position of the first record on branch b, or -1. */
  function FirstOnBranch(rs: seq<BranchRecord>, b: string): (k: int)
    ensures -1 <= k < |rs|
    ensures k >= 0 ==> rs[k].branch == b && forall j :: 0 <= j < k ==> rs[j].branch != b
    ensures k < 0 ==> forall j :: 0 <= j < |rs| ==> rs[j].branch != b
  {
    if rs == [] then -1
    else if rs[0].branch == b then 0
    else
      var k := FirstOnBranch(rs[1..], b);
      if k < 0 then -1 else k + 1
  }

  class BranchStore {
    var records: seq<BranchRecord>
    var nextId: nat

    /** Ids are distinct and below the next id handed out. */
    predicate Valid()
      reads this
    {
      IdsDistinct(records) && forall i :: 0 <= i < |records| ==> records[i].id < nextId
    }

    constructor (records: seq<BranchRecord>, nextId: nat)
      requires IdsDistinct(records) && forall i :: 0 <= i < |records| ==> records[i].id < nextId
      ensures Valid() && this.records == records && this.nextId == nextId
    {
      this.records := records;
      this.nextId := nextId;
    }

    /** `updateOne({ _id: id }, { $set: { status: "stale" } })`. */
    method SetStale(id: nat, now: int)
      requires Valid()
      modifies this`records
      ensures Valid()
      ensures records == UpdateById(old(records), id, MarkStale, now)
      ensures OnlyMarkedStale(old(records), records)
    {
      records := UpdateById(records, id, MarkStale, now);
    }

    /** `updateOne({ _id: id }, { $set: … })` with the record's new fields. */
    method Update(id: nat, f: BranchRecord -> BranchRecord, now: int)
      requires Valid()
      requires forall r :: f(r).id == r.id
      modifies this`records
      ensures Valid()
      ensures records == UpdateById(old(records), id, f, now)
    {
      records := UpdateById(records, id, f, now);
    }

    /** `updateOne({ branch: b }, { $set: … }, { upsert: true })`: the first
        record on branch b becomes f of itself; with none, f of an empty
        record on b is inserted. */
    method UpsertByBranch(b: string, f: BranchRecord -> BranchRecord, now: int)
      requires Valid()
      requires forall r :: f(r).id == r.id
      modifies this
      ensures Valid()
      ensures var k := FirstOnBranch(old(records), b);
        if k >= 0 then records == old(records)[k := f(old(records)[k]).(updatedAt := now)] && nextId == old(nextId)
        else records == old(records) + [f(BranchRecord(old(nextId), "", b, "", [], None, "", None, now)).(updatedAt := now)]
             && nextId == old(nextId) + 1
    {
      var k := FirstOnBranch(records, b);
      if k >= 0 {
        records := records[k := f(records[k]).(updatedAt := now)];
      } else {
        records := records + [f(BranchRecord(nextId, "", b, "", [], None, "", None, now)).(updatedAt := now)];
        nextId := nextId + 1;
      }
    }

    /** `create(…)`: a new record under a fresh id. */
    method Create(r: BranchRecord, now: int) returns (id: nat)
      requires Valid()
      modifies this
      ensures Valid()
      ensures id == old(nextId) && nextId == id + 1
      ensures records == old(records) + [r.(id := id, updatedAt := now)]
    {
      id := nextId;
      records := records + [r.(id := id, updatedAt := now)];
      nextId := nextId + 1;
    }
  }
}
