/** The tech-stack server actions: the manual sync, which upserts every
    fetched file and writes the draft only when it inserts a record; the
    draft update, which validates its input and changes one record; and the
    version reads. */
module TechActions {
  import opened Wrappers
  import opened Json
  import opened TechStore
  import GitHubApi

  const Published := "published"
  const Modified := "modified"
  const GithubUpdater := "github"
  const DocsflowUpdater := "docsflow"
  const NullData := "Data cannot be null or undefined"
  const NotAnObject := "Data must be an object"

  /** What an action answers: success (the sync with its count), or an
      error message. */
  datatype Outcome = Success(count: nat) | Failure(error: string)

  // ---------------------------------------------------------------------
  // syncTechStack

  /** The record one fetched file leaves: `$set` of the version, commit,
      data, "published" and "github"; `$setOnInsert` of the draft, so a
      stored draft survives. Metadata that is absent sets nothing. */
  function Stamped(o: Option<TechDoc>, f: GitHubApi.TechFile, parseDate: string -> int): (d: TechDoc)
    ensures d.id == f.fileName && d.version == f.version && d.data == f.content
    ensures d.status == Published && d.lastUpdatedBy == GithubUpdater
    ensures o.Some? ==> d.draft == o.value.draft && d.creation == o.value.creation
    ensures o.None? ==> d.draft == f.content
    ensures f.metadata.Some? ==>
      d.lastCommitId == Some(f.metadata.value.lastCommitId) && d.lastGithubUser == Some(f.metadata.value.lastGithubUser)
    ensures f.metadata.None? && o.Some? ==>
      d.lastCommitId == o.value.lastCommitId && d.lastGithubUser == o.value.lastGithubUser && d.lastUpdate == o.value.lastUpdate
  {
    var base := if o.Some? then o.value else Fresh(f.fileName).(draft := f.content);
    var m := if f.metadata.None? then base
             else
               var meta := f.metadata.value;
               base.(lastCommitId := Some(meta.lastCommitId),
                     lastUpdate := if meta.lastUpdate.Some? then Some(parseDate(meta.lastUpdate.value)) else base.lastUpdate,
                     lastGithubUser := Some(meta.lastGithubUser));
    m.(id := f.fileName, version := f.version, lastUpdatedBy := GithubUpdater, status := Published, data := f.content)
  }

  /** The collection after upserting the files in order; an absent entry
      is skipped. */
  function UpsertAll(docs: seq<TechDoc>, files: seq<Option<GitHubApi.TechFile>>, parseDate: string -> int): seq<TechDoc>
  {
    if files == [] then docs
    else
      var init := UpsertAll(docs, files[..|files| - 1], parseDate);
      var f := files[|files| - 1];
      if f.None? then init else UpsertOne(init, f.value.fileName, o => Stamped(o, f.value, parseDate))
  }

  /** How many entries are present. */
  function Present(files: seq<Option<GitHubApi.TechFile>>): (n: nat)
    ensures n <= |files|
  {
    if files == [] then 0
    else Present(files[..|files| - 1]) + (if files[|files| - 1].Some? then 1 else 0)
  }

  /** The names of the present entries. */
  function FileNames(files: seq<Option<GitHubApi.TechFile>>): set<string> {
    set i | 0 <= i < |files| && files[i].Some? :: files[i].value.fileName
  }

  /** The names of a listing with one more entry. */
  lemma FileNamesSnoc(files: seq<Option<GitHubApi.TechFile>>)
    requires files != []
    ensures var f := files[|files| - 1];
      FileNames(files) == FileNames(files[..|files| - 1]) + (if f.Some? then {f.value.fileName} else {})
  {
    var pre := files[..|files| - 1];
    forall x | x in FileNames(pre) ensures x in FileNames(files) {
      var i :| 0 <= i < |pre| && pre[i].Some? && pre[i].value.fileName == x;
      assert files[i] == pre[i];
    }
    forall x | x in FileNames(files) ensures x in FileNames(pre) || (files[|files| - 1].Some? && x == files[|files| - 1].value.fileName) {
      var i :| 0 <= i < |files| && files[i].Some? && files[i].value.fileName == x;
      if i < |pre| { assert pre[i] == files[i]; }
    }
  }

  /** After the upserts, the stored ids are the old ones plus the files'
      names, each once. */
  lemma {:induction false} UpsertAllIds(docs: seq<TechDoc>, files: seq<Option<GitHubApi.TechFile>>,
                                        parseDate: string -> int)
    requires UniqueIds(docs)
    ensures UniqueIds(UpsertAll(docs, files, parseDate))
    ensures Ids(UpsertAll(docs, files, parseDate)) == Ids(docs) + FileNames(files)
  {
    if files != [] {
      var pre := files[..|files| - 1];
      var f := files[|files| - 1];
      UpsertAllIds(docs, pre, parseDate);
      FileNamesSnoc(files);
      var init := UpsertAll(docs, pre, parseDate);
      if f.Some? {
        var g := o => Stamped(o, f.value, parseDate);
        assert UpsertAll(docs, files, parseDate) == UpsertOne(init, f.value.fileName, g);
        UpsertFinds(init, f.value.fileName, g);
        UpsertIds(init, f.value.fileName, g);
      }
    }
  }

  /** After the upserts, every file's record is published by "github", and
      every record that existed keeps its draft and its creation time. */
  lemma {:induction false} UpsertAllKeepsDrafts(docs: seq<TechDoc>, files: seq<Option<GitHubApi.TechFile>>,
                                                parseDate: string -> int)
    requires UniqueIds(docs)
    ensures var r := UpsertAll(docs, files, parseDate);
      && (forall id :: id in FileNames(files) ==>
            TechStore.Find(r, id).Some?
            && TechStore.Find(r, id).value.status == Published && TechStore.Find(r, id).value.lastUpdatedBy == GithubUpdater)
      && (forall id :: id in Ids(docs) ==>
            TechStore.Find(r, id).Some?
            && TechStore.Find(r, id).value.draft == TechStore.Find(docs, id).value.draft
            && TechStore.Find(r, id).value.creation == TechStore.Find(docs, id).value.creation)
  {
    UpsertAllIds(docs, files, parseDate);
    if files != [] {
      var pre := files[..|files| - 1];
      var f := files[|files| - 1];
      UpsertAllKeepsDrafts(docs, pre, parseDate);
      UpsertAllIds(docs, pre, parseDate);
      FileNamesSnoc(files);
      var init := UpsertAll(docs, pre, parseDate);
      var r := UpsertAll(docs, files, parseDate);
      if f.Some? {
        var name := f.value.fileName;
        var g := o => Stamped(o, f.value, parseDate);
        assert r == UpsertOne(init, name, g);
        UpsertFinds(init, name, g);
        forall id | id in FileNames(files)
          ensures TechStore.Find(r, id).Some?
          ensures TechStore.Find(r, id).value.status == Published && TechStore.Find(r, id).value.lastUpdatedBy == GithubUpdater
        {
          if id != name {
            assert TechStore.Find(r, id) == TechStore.Find(init, id);
          }
        }
        forall id | id in Ids(docs)
          ensures TechStore.Find(r, id).Some?
          ensures TechStore.Find(r, id).value.draft == TechStore.Find(docs, id).value.draft
          ensures TechStore.Find(r, id).value.creation == TechStore.Find(docs, id).value.creation
        {
          assert id in Ids(init);
          if id != name {
            assert TechStore.Find(r, id) == TechStore.Find(init, id);
          } else {
            assert TechStore.Find(r, id) == Some(g(TechStore.Find(init, id)));
          }
        }
      } else {
        assert r == init;
      }
    }
  }

  /** One upsert of the sync loop. */
  method UpsertFile(techs: Store, file: GitHubApi.TechFile, parseDate: string -> int)
    requires techs.Valid()
    modifies techs
    ensures techs.Valid()
    ensures techs.docs == UpsertOne(old(techs.docs), file.fileName, o => Stamped(o, file, parseDate))
  {
    techs.Upsert(file.fileName, o => Stamped(o, file, parseDate));
  }

  /** One turn of the sync loop: entry i is upserted when present. */
  method UpsertEntry(techs: Store, files: seq<Option<GitHubApi.TechFile>>, i: nat, parseDate: string -> int,
                     ghost start: seq<TechDoc>)
    requires i < |files|
    requires techs.Valid() && techs.docs == UpsertAll(start, files[..i], parseDate)
    modifies techs
    ensures techs.Valid() && techs.docs == UpsertAll(start, files[..i + 1], parseDate)
  {
    assert files[..i + 1][..i] == files[..i];
    if files[i].Some? {
      UpsertFile(techs, files[i].value, parseDate);
    }
  }

  /** The loop of `syncTechStack`: skips absent entries, upserts the rest,
      and counts the upserts. */
  method UpsertFiles(techs: Store, files: seq<Option<GitHubApi.TechFile>>, parseDate: string -> int)
    returns (updatedCount: nat)
    requires techs.Valid()
    modifies techs
    ensures techs.Valid()
    ensures techs.docs == UpsertAll(old(techs.docs), files, parseDate)
    ensures updatedCount == Present(files)
  {
    updatedCount := 0;
    var i := 0;
    while i < |files|
      invariant 0 <= i <= |files|
      invariant techs.Valid()
      invariant techs.docs == UpsertAll(old(techs.docs), files[..i], parseDate)
      invariant updatedCount == Present(files[..i])
    {
      assert files[..i + 1][..i] == files[..i];
      UpsertEntry(techs, files, i, parseDate, old(techs.docs));
      if files[i].Some? {
        updatedCount := updatedCount + 1;
      }
      i := i + 1;
    }
    assert files[..i] == files;
  }

  /** `syncTechStack`: a failed listing fails before any write; otherwise
      every fetched file is upserted and the count is the number of files. */
  method SyncTechStack(techs: Store, api: GitHubApi.Api, parseDate: string -> int) returns (r: Outcome)
    requires techs.Valid()
    modifies techs
    ensures techs.Valid()
    ensures var fetched := GitHubApi.FetchTechStackFiles(api);
      && (fetched.Err? ==> r == Failure(fetched.error) && techs.docs == old(techs.docs))
      && (fetched.Ok? ==>
            var files := seq(|fetched.value|, i requires 0 <= i < |fetched.value| => Some(fetched.value[i]));
            && r == Success(|fetched.value|)
            && techs.docs == UpsertAll(old(techs.docs), files, parseDate))
  {
    var fetched := GitHubApi.FetchTechStackFiles(api);
    if fetched.Err? {
      return Failure(fetched.error);
    }
    var files := seq(|fetched.value|, i requires 0 <= i < |fetched.value| => Some(fetched.value[i]));
    var count := UpsertFiles(techs, files, parseDate);
    AllPresent(files);
    r := Success(count);
  }

  /** A listing without absent entries counts every entry. */
  lemma {:induction false} AllPresent(files: seq<Option<GitHubApi.TechFile>>)
    requires forall i :: 0 <= i < |files| ==> files[i].Some?
    ensures Present(files) == |files|
  {
    if files != [] {
      AllPresent(files[..|files| - 1]);
    }
  }

  // ---------------------------------------------------------------------
  // updateDocsFlowData

  /** The first record with the version, as `findOne({ version })` finds
      it. */
  function FindVersion(docs: seq<TechDoc>, version: string): (r: Option<TechDoc>)
    ensures r.Some? ==> r.value in docs && r.value.version == version
    ensures r.None? <==> forall d :: d in docs ==> d.version != version
  {
    if docs == [] then None
    else if docs[0].version == version then Some(docs[0])
    else
      assert forall d :: d in docs ==> d == docs[0] || d in docs[1..];
      FindVersion(docs[1..], version)
  }

  /** Input validation: the new draft must be a non-array object; `None`
      stands for `undefined`. */
  function Validate(newData: Option<Json>): (r: Option<string>)
    ensures r.None? <==> newData.Some? && newData.value.Obj?
    ensures newData.None? || newData.value.Null? ==> r == Some(NullData)
  {
    if newData.None? || newData.value.Null? then Some(NullData)
    else if !newData.value.IsObject() || newData.value.Arr? then Some(NotAnObject)
    else None
  }

  function NotFound(version: string): string {
    "Version \"" + version + "\" not found"
  }

  /** The edit applied to the record found. */
  function Edited(d: TechDoc, draft: Json): (e: TechDoc)
    ensures e.id == d.id && e.data == d.data && e.version == d.version
    ensures e.draft == draft && e.status == Modified && e.lastUpdatedBy == DocsflowUpdater
  {
    d.(draft := draft, status := Modified, lastUpdatedBy := DocsflowUpdater)
  }

  /** `updateDocsFlowData`: an invalid draft is refused, an unknown
      version reported, and otherwise the first record with the version is
      edited. */
  method UpdateDocsFlowData(techs: Store, version: string, newData: Option<Json>) returns (r: Outcome)
    requires techs.Valid()
    modifies techs
    ensures techs.Valid()
    ensures Validate(newData).Some? ==> r == Failure(Validate(newData).value) && techs.docs == old(techs.docs)
    ensures Validate(newData).None? && FindVersion(old(techs.docs), version).None? ==>
      r == Failure(NotFound(version)) && techs.docs == old(techs.docs)
    ensures Validate(newData).None? && FindVersion(old(techs.docs), version).Some? ==>
      r == Success(0)
      && techs.docs == UpdateOne(old(techs.docs), FindVersion(old(techs.docs), version).value.id,
                                 d => Edited(d, newData.value))
  {
    var invalid := Validate(newData);
    if invalid.Some? {
      return Failure(invalid.value);
    }
    var found := FindVersion(techs.docs, version);
    if found.None? {
      return Failure(NotFound(version));
    }
    techs.Update(found.value.id, d => Edited(d, newData.value));
    r := Success(0);
  }

  /** A successful draft update changes exactly the record with the
      version: its draft, status and editor change and its published data
      does not; every other record is as it was. */
  lemma DraftUpdateEffect(docs: seq<TechDoc>, version: string, draft: Json)
    requires UniqueIds(docs) && FindVersion(docs, version).Some?
    ensures var found := FindVersion(docs, version).value;
      var r := UpdateOne(docs, found.id, d => Edited(d, draft));
      && TechStore.Find(r, found.id) == Some(found.(draft := draft, status := Modified, lastUpdatedBy := DocsflowUpdater))
      && TechStore.Find(r, found.id).value.data == found.data
      && (forall other :: other != found.id ==> TechStore.Find(r, other) == TechStore.Find(docs, other))
  {
    var found := FindVersion(docs, version).value;
    var k :| 0 <= k < |docs| && docs[k] == found;
    FindAt(docs, k);
    UpdateFinds(docs, found.id, d => Edited(d, draft));
  }

  // ---------------------------------------------------------------------
  // Reads

  /** `getVersions`: the versions in collection order, or none when the
      store cannot be reached. */
  function GetVersions(docs: seq<TechDoc>, reachable: bool): (vs: seq<string>)
    ensures !reachable ==> vs == []
    ensures reachable ==> |vs| == |docs| && forall i :: 0 <= i < |docs| ==> vs[i] == docs[i].version
  {
    if reachable then seq(|docs|, i requires 0 <= i < |docs| => docs[i].version) else []
  }

  /** `getVersionDetails`: the first record with the version, or nothing
      when there is none or the store cannot be reached. */
  function GetVersionDetails(docs: seq<TechDoc>, version: string, reachable: bool): (r: Option<TechDoc>)
    ensures r.Some? <==> reachable && exists d :: d in docs && d.version == version
    ensures r.Some? ==> r.value in docs && r.value.version == version
  {
    if reachable then FindVersion(docs, version) else None
  }

  /** Every version `getVersions` lists has details. */
  lemma ListedVersionsHaveDetails(docs: seq<TechDoc>, v: string)
    requires v in GetVersions(docs, true)
    ensures GetVersionDetails(docs, v, true).Some?
  {
    var i :| 0 <= i < |docs| && GetVersions(docs, true)[i] == v;
    assert docs[i] in docs;
  }
}
