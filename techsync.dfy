/** The tech-stack integrity check (`syncTechStack` of the sync script):
    records for files gone from the data directory are deleted, and every
    ".json" file whose stored commit id is missing or behind the file's
    latest commit is fetched at that commit and upserted. A failed GitHub
    call, or content that does not parse, stops the run where it is. */
module TechSync {
  import opened Wrappers
  import opened Text
  import opened Json
  import opened TechStore
  import opened DataFiles
  import GitHubApi
  import Config

  /** How many commits `listCommits` returns when no `per_page` is given. */
  const DefaultPage := 30

  const Published := "published"
  const GithubUpdater := "github"

  /** The names of some listed files, in order. */
  function NamesOf(fs: seq<GitHubApi.Listed>): (r: seq<string>)
    ensures |r| == |fs| && forall i :: 0 <= i < |fs| ==> r[i] == fs[i].name
  {
    seq(|fs|, i requires 0 <= i < |fs| => fs[i].name)
  }

  /** The stored ids that are not among the names, in store order. */
  function Obsolete(docs: seq<TechDoc>, names: seq<string>): (r: seq<string>)
    ensures forall x :: x in r <==> x in Ids(docs) && x !in names
  {
    if docs == [] then []
    else (if docs[0].id in names then [] else [docs[0].id]) + Obsolete(docs[1..], names)
  }

  /** The commit id the store held for a name when the run began (`dbCommitMap`). */
  function StoredCommit(snapshot: seq<TechDoc>, name: string): Option<string> {
    var d := TechStore.Find(snapshot, name);
    if d.Some? then d.value.lastCommitId else None
  }

  /** A file needs a sync when its stored commit id is missing (or empty)
      or differs from its latest commit. */
  predicate NeedsResync(stored: Option<string>, latest: string) {
    !GitHubApi.Truthy(stored) || stored.value != latest
  }

  /** The record the upsert leaves: name, version, the latest commit's id,
      date (the clock when it has none) and user, the content, status
      "published" by "github"; the draft and the creation time stay. */
  function Resynced(o: Option<TechDoc>, name: string, latest: GitHubApi.CommitInfo, data: Json,
                    parseDate: string -> int, now: int): (d: TechDoc)
    ensures d.id == name && d.version == ReplaceFirst(name, JsonSuffix, "")
    ensures d.lastCommitId == Some(latest.sha) && d.status == Published && d.lastUpdatedBy == GithubUpdater
    ensures d.data == data
    ensures d.lastGithubUser == Some(GitHubApi.AttributedTo(latest, GitHubApi.UnknownScriptUser))
    ensures d.lastUpdate == Some(if GitHubApi.Truthy(latest.committerDate) then parseDate(latest.committerDate.value) else now)
    ensures o.Some? ==> d.draft == o.value.draft && d.creation == o.value.creation
    ensures o.None? ==> d.draft == Null && d.creation == None
  {
    var base := if o.Some? then o.value else Fresh(name);
    base.(id := name,
          version := ReplaceFirst(name, JsonSuffix, ""),
          lastCommitId := Some(latest.sha),
          lastUpdate := Some(if GitHubApi.Truthy(latest.committerDate) then parseDate(latest.committerDate.value) else now),
          lastGithubUser := Some(GitHubApi.AttributedTo(latest, GitHubApi.UnknownScriptUser)),
          lastUpdatedBy := GithubUpdater,
          status := Published,
          data := data)
  }

  /** The creation time from the oldest commit of the first page of the
      file's history, written only when the record has none. */
  function CreationFill(docs: seq<TechDoc>, e: GitHubApi.Listed, api: GitHubApi.Api, parseDate: string -> int)
    : (seq<TechDoc>, bool)
  {
    var doc := TechStore.Find(docs, e.name);
    if doc.None? || doc.value.creation.Some? then (docs, true)
    else
      var listing := api.listCommits(e.path, Config.Branch);
      if listing.Err? then (docs, false)
      else
        var page := GitHubApi.Page(listing.value, DefaultPage);
        if page == [] || !GitHubApi.Truthy(page[|page| - 1].committerDate) then (docs, true)
        else (UpdateOne(docs, e.name, (d: TechDoc) => d.(creation := Some(parseDate(page[|page| - 1].committerDate.value)))), true)
  }

  /** The file's content at a commit, parsed: nothing when the fetch
      fails, the path is a directory or the text does not parse. */
  function FetchAt(api: GitHubApi.Api, path: string, sha: string): (r: Option<Json>)
    ensures r.Some? ==> var resp := api.getContent(path, sha);
      resp.Ok? && resp.value.Entry? && r == api.parse(api.decode(resp.value.content))
  {
    var resp := api.getContent(path, sha);
    if resp.Err? || resp.value.Directory? then None else api.parse(api.decode(resp.value.content))
  }

  /** The upsert of a file fetched at its latest commit, then the creation
      time. */
  function Write(docs: seq<TechDoc>, e: GitHubApi.Listed, latest: GitHubApi.CommitInfo, data: Json,
                 api: GitHubApi.Api, parseDate: string -> int, now: int): (seq<TechDoc>, bool)
  {
    CreationFill(UpsertOne(docs, e.name, o => Resynced(o, e.name, latest, data, parseDate, now)), e, api, parseDate)
  }

  /** One listed file: its latest commit (`per_page: 1`; an empty history
      throws), then, when it needs a sync, its content at that commit and
      the upsert. The flag is false when the run stops here. */
  function SyncEntry(docs: seq<TechDoc>, e: GitHubApi.Listed, snapshot: seq<TechDoc>, api: GitHubApi.Api,
                     parseDate: string -> int, now: int): (r: (seq<TechDoc>, bool))
    ensures api.listCommits(e.path, Config.Branch).Err? || api.listCommits(e.path, Config.Branch).value == [] ==>
      r == (docs, false)
    ensures r.0 != docs ==>
      var commits := api.listCommits(e.path, Config.Branch);
      && commits.Ok? && commits.value != []
      && NeedsResync(StoredCommit(snapshot, e.name), commits.value[0].sha)
      && FetchAt(api, e.path, commits.value[0].sha).Some?
  {
    var commits := api.listCommits(e.path, Config.Branch);
    if commits.Err? || commits.value == [] then (docs, false)
    else
      var latest := commits.value[0];
      if !NeedsResync(StoredCommit(snapshot, e.name), latest.sha) then (docs, true)
      else
        var content := FetchAt(api, e.path, latest.sha);
        if content.None? then (docs, false)
        else Write(docs, e, latest, content.value, api, parseDate, now)
  }

  /** The files in order, stopping at the first failure. */
  function SyncEntries(docs: seq<TechDoc>, es: seq<GitHubApi.Listed>, snapshot: seq<TechDoc>, api: GitHubApi.Api,
                       parseDate: string -> int, now: int): (seq<TechDoc>, bool)
  {
    if es == [] then (docs, true)
    else
      var (d, ok) := SyncEntries(docs, es[..|es| - 1], snapshot, api, parseDate, now);
      if !ok then (d, false) else SyncEntry(d, es[|es| - 1], snapshot, api, parseDate, now)
  }

  /** A failure ends the run: the files after it change nothing. */
  lemma {:induction false} FailureStops(docs: seq<TechDoc>, es: seq<GitHubApi.Listed>, k: nat, snapshot: seq<TechDoc>,
                                        api: GitHubApi.Api, parseDate: string -> int, now: int)
    requires k <= |es| && !SyncEntries(docs, es[..k], snapshot, api, parseDate, now).1
    ensures SyncEntries(docs, es, snapshot, api, parseDate, now) == SyncEntries(docs, es[..k], snapshot, api, parseDate, now)
  {
    if k < |es| {
      assert es[..|es| - 1][..k] == es[..k];
      FailureStops(docs, es[..|es| - 1], k, snapshot, api, parseDate, now);
    } else {
      assert es[..k] == es;
    }
  }

  /** The ids `deleteMany` is given, as a set. */
  function Gone(docs: seq<TechDoc>, names: seq<string>): set<string> {
    set x | x in Obsolete(docs, names)
  }

  /** The whole run: the store after it and whether it finished. A data
      path that cannot be listed as a directory stops it before any
      change. */
  function Integrity(docs: seq<TechDoc>, api: GitHubApi.Api, dataPath: string, parseDate: string -> int, now: int)
    : (r: (seq<TechDoc>, bool))
    ensures var listing := api.getContent(dataPath, Config.Branch);
      !(listing.Ok? && listing.value.Directory?) ==> r == (docs, false)
  {
    var listing := api.getContent(dataPath, Config.Branch);
    if listing.Err? || listing.value.Entry? then (docs, false)
    else
      var files := GitHubApi.JsonEntries(listing.value.entries);
      SyncEntries(DeleteIds(docs, Gone(docs, NamesOf(files))), files, docs, api, parseDate, now)
  }

  /** The loop body: one listed file. */
  method SyncListed(techs: Store, e: GitHubApi.Listed, snapshot: seq<TechDoc>, api: GitHubApi.Api,
                    parseDate: string -> int, now: int) returns (ok: bool)
    requires techs.Valid()
    modifies techs
    ensures techs.Valid()
    ensures (techs.docs, ok) == SyncEntry(old(techs.docs), e, snapshot, api, parseDate, now)
  {
    var commits := api.listCommits(e.path, Config.Branch);
    if commits.Err? || commits.value == [] {
      return false;
    }
    var latestCommitSha := commits.value[0].sha;
    if !NeedsResync(StoredCommit(snapshot, e.name), latestCommitSha) {
      return true;
    }
    var contentRes := api.getContent(e.path, latestCommitSha);
    if contentRes.Err? || contentRes.value.Directory? {
      return false;
    }
    var content := api.parse(api.decode(contentRes.value.content));
    if content.None? {
      return false;
    }
    var commitInfo := commits.value[0];
    techs.Upsert(e.name, o => Resynced(o, e.name, commitInfo, content.value, parseDate, now));
    var doc := TechStore.Find(techs.docs, e.name);
    if doc.None? || doc.value.creation.Some? {
      return true;
    }
    var listing := api.listCommits(e.path, Config.Branch);
    if listing.Err? {
      return false;
    }
    var firstCommits := GitHubApi.Page(listing.value, DefaultPage);
    if firstCommits == [] || !GitHubApi.Truthy(firstCommits[|firstCommits| - 1].committerDate) {
      return true;
    }
    var created := parseDate(firstCommits[|firstCommits| - 1].committerDate.value);
    techs.Update(e.name, (d: TechDoc) => d.(creation := Some(created)));
    ok := true;
  }

  /** `deleteMany` of the stored ids that are not among the listed names
      (skipped when there are none). */
  method DeleteObsolete(techs: Store, names: seq<string>)
    requires techs.Valid()
    modifies techs
    ensures techs.Valid()
    ensures techs.docs == DeleteIds(old(techs.docs), Gone(old(techs.docs), names))
  {
    var toDelete := Obsolete(techs.docs, names);
    if |toDelete| > 0 {
      techs.Delete(Gone(techs.docs, names));
    } else {
      DeleteNothing(techs.docs);
      assert Gone(techs.docs, names) == {};
    }
  }

  /** The loop over the listed files, returning at the first failure. */
  method SyncListedFiles(techs: Store, files: seq<GitHubApi.Listed>, snapshot: seq<TechDoc>, api: GitHubApi.Api,
                         parseDate: string -> int, now: int) returns (ok: bool)
    requires techs.Valid()
    modifies techs
    ensures techs.Valid()
    ensures (techs.docs, ok) == SyncEntries(old(techs.docs), files, snapshot, api, parseDate, now)
  {
    ghost var start := techs.docs;
    for i := 0 to |files|
      invariant techs.Valid()
      invariant SyncEntries(start, files[..i], snapshot, api, parseDate, now) == (techs.docs, true)
    {
      assert files[..i + 1][..i] == files[..i];
      ok := SyncListed(techs, files[i], snapshot, api, parseDate, now);
      if !ok {
        FailureStops(start, files, i + 1, snapshot, api, parseDate, now);
        return false;
      }
    }
    assert files[..|files|] == files;
    ok := true;
  }

  /** `syncTechStack`. */
  method SyncTechStack(techs: Store, api: GitHubApi.Api, dataPath: string, parseDate: string -> int, now: int)
    returns (ok: bool)
    requires techs.Valid()
    modifies techs
    ensures techs.Valid()
    ensures (techs.docs, ok) == Integrity(old(techs.docs), api, dataPath, parseDate, now)
  {
    var files := api.getContent(dataPath, Config.Branch);
    if files.Err? || files.value.Entry? {
      return false;
    }
    var githubFiles := GitHubApi.JsonEntries(files.value.entries);
    var dbDocs := techs.docs;
    DeleteObsolete(techs, NamesOf(githubFiles));
    ok := SyncListedFiles(techs, githubFiles, dbDocs, api, parseDate, now);
  }

  // ---------------------------------------------------------------------
  // Properties

  /** Filling in the creation time keeps every id, and changes at most the
      creation time of the file's record, which it leaves alone when there
      is one. */
  lemma CreationFillKeeps(docs: seq<TechDoc>, e: GitHubApi.Listed, api: GitHubApi.Api, parseDate: string -> int)
    requires UniqueIds(docs)
    ensures var r := CreationFill(docs, e, api, parseDate).0;
      var before, after := TechStore.Find(docs, e.name), TechStore.Find(r, e.name);
      && UniqueIds(r) && Ids(r) == Ids(docs)
      && (before.Some? ==> after.Some? && after.value == before.value.(creation := after.value.creation))
      && (before.Some? && before.value.creation.Some? ==> r == docs)
  {
    var doc := TechStore.Find(docs, e.name);
    var listing := api.listCommits(e.path, Config.Branch);
    var r := CreationFill(docs, e, api, parseDate).0;
    if doc.Some? && doc.value.creation.None? && listing.Ok? && GitHubApi.Page(listing.value, DefaultPage) != []
       && GitHubApi.Truthy(GitHubApi.Page(listing.value, DefaultPage)[|GitHubApi.Page(listing.value, DefaultPage)| - 1].committerDate) {
      var page := GitHubApi.Page(listing.value, DefaultPage);
      var g := (d: TechDoc) => d.(creation := Some(parseDate(page[|page| - 1].committerDate.value)));
      assert r == UpdateOne(docs, e.name, g);
      UpdateFinds(docs, e.name, g);
      UpdateKeepsIds(docs, e.name, g);
    } else {
      assert r == docs;
    }
  }

  /** The write stores the file's record as `Resynced` makes it, up to a
      creation time it fills in only when there was none, and adds no id
      but the file's name. */
  lemma WriteEffect(docs: seq<TechDoc>, e: GitHubApi.Listed, latest: GitHubApi.CommitInfo, data: Json,
                    api: GitHubApi.Api, parseDate: string -> int, now: int)
    requires UniqueIds(docs)
    ensures var r := Write(docs, e, latest, data, api, parseDate, now).0;
      var before, after := TechStore.Find(docs, e.name), TechStore.Find(r, e.name);
      && UniqueIds(r) && Ids(r) == Ids(docs) + {e.name}
      && after.Some?
      && after.value == Resynced(before, e.name, latest, data, parseDate, now).(creation := after.value.creation)
      && (before.Some? && before.value.creation.Some? ==> after.value.creation == before.value.creation)
  {
    var f := o => Resynced(o, e.name, latest, data, parseDate, now);
    UpsertFinds(docs, e.name, f);
    UpsertIds(docs, e.name, f);
    CreationFillKeeps(UpsertOne(docs, e.name, f), e, api, parseDate);
  }

  /** One file keeps the ids there were and adds at most its own name; it
      adds it whenever it finishes, unless the snapshot says the record is
      up to date. */
  lemma SyncEntryIds(docs: seq<TechDoc>, e: GitHubApi.Listed, snapshot: seq<TechDoc>, api: GitHubApi.Api,
                     parseDate: string -> int, now: int)
    requires UniqueIds(docs)
    ensures var r, ok := SyncEntry(docs, e, snapshot, api, parseDate, now).0, SyncEntry(docs, e, snapshot, api, parseDate, now).1;
      && UniqueIds(r)
      && Ids(docs) <= Ids(r) <= Ids(docs) + {e.name}
      && (ok && !GitHubApi.Truthy(StoredCommit(snapshot, e.name)) ==> e.name in Ids(r))
  {
    var commits := api.listCommits(e.path, Config.Branch);
    var r := SyncEntry(docs, e, snapshot, api, parseDate, now).0;
    if commits.Ok? && commits.value != [] && NeedsResync(StoredCommit(snapshot, e.name), commits.value[0].sha)
       && FetchAt(api, e.path, commits.value[0].sha).Some? {
      var latest := commits.value[0];
      WriteEffect(docs, e, latest, FetchAt(api, e.path, latest.sha).value, api, parseDate, now);
    } else {
      assert r == docs;
    }
  }

  /** The files so far keep every id and add only their names; when they
      all finish, each of their names is stored, provided that a name the
      snapshot marks as synced was still in the store. */
  lemma {:induction false} SyncEntriesIds(docs: seq<TechDoc>, es: seq<GitHubApi.Listed>, snapshot: seq<TechDoc>,
                                          api: GitHubApi.Api, parseDate: string -> int, now: int)
    requires UniqueIds(docs)
    requires forall e :: e in es && GitHubApi.Truthy(StoredCommit(snapshot, e.name)) ==> e.name in Ids(docs)
    ensures var r, ok := SyncEntries(docs, es, snapshot, api, parseDate, now).0, SyncEntries(docs, es, snapshot, api, parseDate, now).1;
      && UniqueIds(r)
      && Ids(docs) <= Ids(r) <= Ids(docs) + (set e | e in es :: e.name)
      && (ok ==> Ids(r) == Ids(docs) + (set e | e in es :: e.name))
  {
    if es != [] {
      var init, e := es[..|es| - 1], es[|es| - 1];
      assert forall x :: x in es <==> x in init || x == e;
      SyncEntriesIds(docs, init, snapshot, api, parseDate, now);
      var d, ok := SyncEntries(docs, init, snapshot, api, parseDate, now).0, SyncEntries(docs, init, snapshot, api, parseDate, now).1;
      assert (set x | x in es :: x.name) == (set x | x in init :: x.name) + {e.name};
      if ok {
        SyncEntryIds(d, e, snapshot, api, parseDate, now);
        assert SyncEntries(docs, es, snapshot, api, parseDate, now) == SyncEntry(d, e, snapshot, api, parseDate, now);
      } else {
        assert SyncEntries(docs, es, snapshot, api, parseDate, now) == (d, false);
      }
    }
  }

  /** A run removes every record whose file is not a ".json" file of the
      data directory, so no other id is ever left; when it finishes, the
      stored ids are exactly the names of those files. */
  lemma IntegrityIds(docs: seq<TechDoc>, api: GitHubApi.Api, dataPath: string, parseDate: string -> int, now: int)
    requires UniqueIds(docs)
    ensures var listing := api.getContent(dataPath, Config.Branch);
      listing.Ok? && listing.value.Directory? ==>
        var names := set e | e in listing.value.entries && EndsWith(e.name, JsonSuffix) :: e.name;
        var r, ok := Integrity(docs, api, dataPath, parseDate, now).0, Integrity(docs, api, dataPath, parseDate, now).1;
        && UniqueIds(r)
        && Ids(r) <= names
        && (ok ==> Ids(r) == names)
  {
    var listing := api.getContent(dataPath, Config.Branch);
    if listing.Ok? && listing.value.Directory? {
      var files := GitHubApi.JsonEntries(listing.value.entries);
      var names := NamesOf(files);
      var fileNames := set e | e in files :: e.name;
      assert (set e | e in listing.value.entries && EndsWith(e.name, JsonSuffix) :: e.name) == fileNames;
      var gone := Gone(docs, names);
      var kept := DeleteIds(docs, gone);
      DeleteKeepsUnique(docs, gone);
      DeleteIdsIds(docs, gone);
      assert Ids(kept) <= fileNames by {
        forall x | x in Ids(kept) ensures x in fileNames {
          var i :| 0 <= i < |names| && names[i] == x;
          assert files[i] in files;
        }
      }
      forall e | e in files && GitHubApi.Truthy(StoredCommit(docs, e.name)) ensures e.name in Ids(kept) {
        var k :| 0 <= k < |files| && files[k] == e;
        assert names[k] == e.name;
      }
      SyncEntriesIds(kept, files, docs, api, parseDate, now);
      assert Integrity(docs, api, dataPath, parseDate, now) == SyncEntries(kept, files, docs, api, parseDate, now);
    }
  }

  /** A file whose stored commit id is its latest commit is skipped; any
      other file that finishes is stored as fetched at its latest commit:
      that commit's id, status "published" by "github", its version, the
      content, and the draft and creation time the record had. */
  lemma SyncEntryRecord(docs: seq<TechDoc>, e: GitHubApi.Listed, snapshot: seq<TechDoc>, api: GitHubApi.Api,
                        parseDate: string -> int, now: int)
    requires UniqueIds(docs)
    requires api.listCommits(e.path, Config.Branch).Ok? && api.listCommits(e.path, Config.Branch).value != []
    ensures var latest := api.listCommits(e.path, Config.Branch).value[0];
      var r, ok := SyncEntry(docs, e, snapshot, api, parseDate, now).0, SyncEntry(docs, e, snapshot, api, parseDate, now).1;
      if !NeedsResync(StoredCommit(snapshot, e.name), latest.sha) then r == docs && ok
      else ok ==>
        var before, after := TechStore.Find(docs, e.name), TechStore.Find(r, e.name);
        && after.Some?
        && Some(after.value.data) == FetchAt(api, e.path, latest.sha)
        && after.value.lastCommitId == Some(latest.sha)
        && after.value.status == Published && after.value.lastUpdatedBy == GithubUpdater
        && after.value.version == ReplaceFirst(e.name, JsonSuffix, "")
        && (before.Some? ==> after.value.draft == before.value.draft)
        && (before.Some? && before.value.creation.Some? ==> after.value.creation == before.value.creation)
  {
    var latest := api.listCommits(e.path, Config.Branch).value[0];
    var content := FetchAt(api, e.path, latest.sha);
    if NeedsResync(StoredCommit(snapshot, e.name), latest.sha) && content.Some? {
      WriteEffect(docs, e, latest, content.value, api, parseDate, now);
    }
  }
}
