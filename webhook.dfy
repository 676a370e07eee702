/** The GitHub push webhook (`POST /api/github-webhook`). A request is
    authenticated by its HMAC signature. A push to the main branch is turned
    into the data files it added, modified and removed: from a comparison
    with the last synced commit (the bookmark), or from the payload's
    commits when there is no bookmark. Removed files are deleted from the
    tech-stack collection, added and modified ones are re-synced from
    GitHub, and the bookmark moves to the pushed commit only when all of it
    succeeded. HMAC-SHA256, `JSON.parse` of the body, the GitHub API and the
    clock are inputs. */
module Webhook {
  import opened Wrappers
  import opened Text
  import opened Json
  import opened TechStore
  import opened DataFiles
  import GitHubApi
  import Config

  /** `file.status` in a commit comparison. */
  datatype FileStatus = Added | Modified | Removed | Renamed | OtherStatus(name: string)

  /** One entry of a comparison's `files`. */
  datatype ComparedFile = ComparedFile(filename: string, status: FileStatus, previous: Option<string>)

  /** One commit of the push payload. */
  datatype PushCommit = PushCommit(added: seq<string>, modified: seq<string>, removed: seq<string>)

  /** The parts of the push payload the route reads; `commits` is `None`
      when the payload has none. */
  datatype Payload = Payload(ref: string, after: string, commits: Option<seq<PushCommit>>)

  /** The request: its raw body, its `x-hub-signature-256` and
      `x-github-event` headers, and the body parsed (`None` when
      `JSON.parse` throws). */
  datatype Request = Request(body: string, signature: Option<string>, event: Option<string>, payload: Option<Payload>)

  /** GitHub as the route sees it: `compareCommits(base, head)` with the
      compared files (an absent `files` is the empty list), the REST calls
      `syncFile` makes, and the date parser. */
  datatype Upstream = Upstream(
    compare: (string, string) -> Result<seq<ComparedFile>, string>,
    api: GitHubApi.Api,
    parseDate: string -> int)

  /** The `allAdded`, `allModified` and `allRemoved` Sets, in insertion
      order. */
  datatype Changes = Changes(added: seq<string>, modified: seq<string>, removed: seq<string>)

  const NoChanges := Changes([], [], [])

  predicate DistinctChanges(c: Changes) {
    Distinct(c.added) && Distinct(c.modified) && Distinct(c.removed)
  }

  /** The directory data files live in. */
  const DataPath := Config.TechStackPath

  /** What the route filters with: the configuration has no `DATA_PATH`,
      and `startsWith(undefined)` looks for the text "undefined". */
  const DataPathAsWritten := "undefined"

  const Signed := "sha256="
  const PushEvent := "push"
  const HeadsPrefix := "refs/heads/"
  const BookmarkKey := "tech-stack-sync"
  const Published := "published"
  const GithubUpdater := "github"

  /** How many commits `syncFile` asks for when it looks for a file's first
      commit. */
  const FirstCommitsPage := 100

  // ---------------------------------------------------------------------
  // The changed files

  /** One compared file: a data file goes to the set of its status; a
      rename also removes the previous name when that is under the data
      path. */
  function ClassifyFile(c: Changes, f: ComparedFile, dataPath: string): Changes {
    if !IsDataFile(f.filename, dataPath) then c
    else
      match f.status
      case Added => c.(added := AddToSet(c.added, f.filename))
      case Modified => c.(modified := AddToSet(c.modified, f.filename))
      case Removed => c.(removed := AddToSet(c.removed, f.filename))
      case Renamed =>
        var c' := if f.previous.Some? && StartsWith(f.previous.value, dataPath)
                  then c.(removed := AddToSet(c.removed, f.previous.value)) else c;
        c'.(added := AddToSet(c'.added, f.filename))
      case OtherStatus(_) => c
  }

  /** The comparison's files, classified in order. */
  function Classify(files: seq<ComparedFile>, dataPath: string): (r: Changes)
    ensures DistinctChanges(r)
  {
    if files == [] then NoChanges
    else ClassifyFile(Classify(files[..|files| - 1], dataPath), files[|files| - 1], dataPath)
  }

  predicate AddedBy(files: seq<ComparedFile>, x: string, dataPath: string) {
    exists f :: f in files && IsDataFile(f.filename, dataPath) && (f.status == Added || f.status == Renamed) && f.filename == x
  }

  predicate ModifiedBy(files: seq<ComparedFile>, x: string, dataPath: string) {
    exists f :: f in files && IsDataFile(f.filename, dataPath) && f.status == Modified && f.filename == x
  }

  predicate RemovedBy(files: seq<ComparedFile>, x: string, dataPath: string) {
    exists f :: f in files && IsDataFile(f.filename, dataPath)
                && ((f.status == Removed && f.filename == x)
                    || (f.status == Renamed && f.previous == Some(x) && StartsWith(x, dataPath)))
  }

  /** A data file is added when some compared file adds it or renames to
      it, modified when one modifies it, and removed when one removes it or
      renames away from it (the old name under the data path); each set
      holds every name once. */
  lemma {:induction false} ClassifyMembers(files: seq<ComparedFile>, dataPath: string)
    ensures DistinctChanges(Classify(files, dataPath))
    ensures forall x :: x in Classify(files, dataPath).added <==> AddedBy(files, x, dataPath)
    ensures forall x :: x in Classify(files, dataPath).modified <==> ModifiedBy(files, x, dataPath)
    ensures forall x :: x in Classify(files, dataPath).removed <==> RemovedBy(files, x, dataPath)
  {
    if files != [] {
      var init := files[..|files| - 1];
      ClassifyMembers(init, dataPath);
      assert forall g :: g in files <==> g in init || g == files[|files| - 1];
    }
  }

  /** `comparison.files?.forEach(…)`. */
  method ClassifyComparison(files: seq<ComparedFile>, dataPath: string) returns (c: Changes)
    ensures c == Classify(files, dataPath)
  {
    c := NoChanges;
    for i := 0 to |files|
      invariant c == Classify(files[..i], dataPath)
    {
      assert files[..i + 1][..i] == files[..i];
      var f := files[i];
      if IsDataFile(f.filename, dataPath) {
        match f.status
        case Added =>
          c := c.(added := AddToSet(c.added, f.filename));
        case Modified =>
          c := c.(modified := AddToSet(c.modified, f.filename));
        case Removed =>
          c := c.(removed := AddToSet(c.removed, f.filename));
        case Renamed =>
          if f.previous.Some? && StartsWith(f.previous.value, dataPath) {
            c := c.(removed := AddToSet(c.removed, f.previous.value));
          }
          c := c.(added := AddToSet(c.added, f.filename));
        case OtherStatus(_) =>
      }
    }
    assert files[..|files|] == files;
  }

  /** One payload commit's data files added to the three sets. */
  function CommitChanges(c: Changes, commit: PushCommit, dataPath: string): Changes {
    Changes(AddData(c.added, commit.added, dataPath),
            AddData(c.modified, commit.modified, dataPath),
            AddData(c.removed, commit.removed, dataPath))
  }

  /** The payload's commits, scanned in order. */
  function FromCommits(cs: seq<PushCommit>, dataPath: string): Changes {
    if cs == [] then NoChanges
    else CommitChanges(FromCommits(cs[..|cs| - 1], dataPath), cs[|cs| - 1], dataPath)
  }

  /** Each set holds, once, exactly the data files some commit lists under
      it: the fallback applies the same filter as the comparison. */
  lemma {:induction false} FromCommitsMembers(cs: seq<PushCommit>, dataPath: string)
    ensures DistinctChanges(FromCommits(cs, dataPath))
    ensures forall x :: x in FromCommits(cs, dataPath).added <==>
      IsDataFile(x, dataPath) && exists c :: c in cs && x in c.added
    ensures forall x :: x in FromCommits(cs, dataPath).modified <==>
      IsDataFile(x, dataPath) && exists c :: c in cs && x in c.modified
    ensures forall x :: x in FromCommits(cs, dataPath).removed <==>
      IsDataFile(x, dataPath) && exists c :: c in cs && x in c.removed
  {
    if cs != [] {
      var init, last := cs[..|cs| - 1], cs[|cs| - 1];
      FromCommitsMembers(init, dataPath);
      var c := FromCommits(init, dataPath);
      AddDataMembers(c.added, last.added, dataPath);
      AddDataMembers(c.modified, last.modified, dataPath);
      AddDataMembers(c.removed, last.removed, dataPath);
      assert forall k :: k in cs <==> k in init || k == last;
    }
  }

  /** `payload.commits.forEach(…)`. */
  method ProcessCommits(cs: seq<PushCommit>, dataPath: string) returns (c: Changes)
    ensures c == FromCommits(cs, dataPath)
  {
    c := NoChanges;
    for i := 0 to |cs|
      invariant c == FromCommits(cs[..i], dataPath)
      invariant DistinctChanges(c)
    {
      assert cs[..i + 1][..i] == cs[..i];
      var added := AddDataFiles(c.added, cs[i].added, dataPath);
      var modified := AddDataFiles(c.modified, cs[i].modified, dataPath);
      var removed := AddDataFiles(c.removed, cs[i].removed, dataPath);
      c := Changes(added, modified, removed);
    }
    assert cs[..|cs|] == cs;
  }

  // ---------------------------------------------------------------------
  // Removals

  /** The store keys of some paths: their last segments. */
  function Names(paths: seq<string>): set<string> {
    set p | p in paths :: LastSegment(p)
  }

  /** The removal loop: `deleteOne` by the last segment of each removed
      path. */
  method RemoveFiles(techs: Store, removed: seq<string>)
    requires techs.Valid()
    modifies techs
    ensures techs.Valid()
    ensures techs.docs == DeleteIds(old(techs.docs), Names(removed))
  {
    ghost var d0 := techs.docs;
    DeleteNothing(d0);
    assert Names(removed[..0]) == {};
    for i := 0 to |removed|
      invariant techs.Valid()
      invariant techs.docs == DeleteIds(d0, Names(removed[..i]))
    {
      var name := LastSegment(removed[i]);
      assert Names(removed[..i + 1]) == Names(removed[..i]) + {name} by {
        assert removed[..i + 1] == removed[..i] + [removed[i]];
      }
      DeleteIdsTwice(d0, Names(removed[..i]), {name});
      techs.Delete({name});
    }
    assert removed[..|removed|] == removed;
  }

  // ---------------------------------------------------------------------
  // Syncing one file

  /** The record `syncFile`'s upsert leaves under name: the file name,
      version and data, status "published" by "github", and the metadata
      when there is some (the fields of missing metadata are left as they
      were); the draft and the creation time are kept. */
  function Synced(o: Option<TechDoc>, name: string, meta: Option<GitHubApi.FileMeta>, data: Json,
                  parseDate: string -> int): (d: TechDoc)
    ensures d.id == name && d.status == Published && d.lastUpdatedBy == GithubUpdater && d.data == data
    ensures d.version == ReplaceFirst(name, JsonSuffix, "")
    ensures o.Some? ==> d.draft == o.value.draft && d.creation == o.value.creation
    ensures o.None? ==> d.draft == Null && d.creation == None
    ensures meta.Some? ==>
      d.lastCommitId == Some(meta.value.lastCommitId) && d.lastGithubUser == Some(meta.value.lastGithubUser)
    ensures meta.None? && o.Some? ==>
      d.lastCommitId == o.value.lastCommitId && d.lastGithubUser == o.value.lastGithubUser && d.lastUpdate == o.value.lastUpdate
  {
    var base := if o.Some? then o.value else Fresh(name);
    var m := if meta.None? then base
             else base.(lastCommitId := Some(meta.value.lastCommitId),
                        lastUpdate := if meta.value.lastUpdate.Some? then Some(parseDate(meta.value.lastUpdate.value)) else base.lastUpdate,
                        lastGithubUser := Some(meta.value.lastGithubUser));
    m.(id := name, version := ReplaceFirst(name, JsonSuffix, ""), lastUpdatedBy := GithubUpdater, status := Published, data := data)
  }

  /** The file's content could be fetched and parsed. */
  predicate ContentParses(up: Upstream, path: string) {
    var resp := up.api.getContent(path, Config.Branch);
    resp.Ok? && resp.value.Entry? && up.api.parse(up.api.decode(resp.value.content)).Some?
  }

  function ParsedContent(up: Upstream, path: string): Json
    requires ContentParses(up, path)
  {
    up.api.parse(up.api.decode(up.api.getContent(path, Config.Branch).value.content)).value
  }

  /** The creation-time patch after the upsert: when the record has no
      creation time, the oldest of the newest hundred commits gives it. A
      failed listing, or a commit without a committer date, makes the sync
      fail with the upsert done. */
  function CreationPatch(docs: seq<TechDoc>, path: string, name: string, up: Upstream): (seq<TechDoc>, bool) {
    var doc := TechStore.Find(docs, name);
    if doc.None? || doc.value.creation.Some? then (docs, true)
    else
      var listing := up.api.listCommits(path, Config.Branch);
      if listing.Err? then (docs, false)
      else
        var page := GitHubApi.Page(listing.value, FirstCommitsPage);
        if page == [] then (docs, true)
        else
          var first := page[|page| - 1];
          if first.committerDate.None? then (docs, false)
          else (UpdateOne(docs, name, (d: TechDoc) => d.(creation := Some(up.parseDate(first.committerDate.value)))), true)
  }

  /** `syncFile(path, name)`: the store after it, and what it returns. A
      fetch or parse failure changes nothing and returns false. */
  function SyncOne(docs: seq<TechDoc>, path: string, name: string, up: Upstream): (seq<TechDoc>, bool) {
    if !ContentParses(up, path) then (docs, false)
    else CreationPatch(Upserted(docs, path, name, up), path, name, up)
  }

  /** The upsert of a file whose content parses. */
  function Upserted(docs: seq<TechDoc>, path: string, name: string, up: Upstream): seq<TechDoc>
    requires ContentParses(up, path)
  {
    var meta := GitHubApi.GetFileMetadata(up.api, path, Config.Branch);
    UpsertOne(docs, name, o => Synced(o, name, meta, ParsedContent(up, path), up.parseDate))
  }

  /** The creation-time patch keeps every id and every other record, and
      changes at most the creation time of the file's record, which it
      leaves alone when there is one. */
  lemma CreationPatchKeeps(docs: seq<TechDoc>, path: string, name: string, up: Upstream)
    requires UniqueIds(docs)
    ensures var r := CreationPatch(docs, path, name, up).0;
      var before, after := TechStore.Find(docs, name), TechStore.Find(r, name);
      && UniqueIds(r) && Ids(r) == Ids(docs)
      && (before.Some? ==> after.Some? && after.value == before.value.(creation := after.value.creation))
      && (before.Some? && before.value.creation.Some? ==> r == docs)
      && (forall other :: other != name ==> TechStore.Find(r, other) == TechStore.Find(docs, other))
  {
    var doc := TechStore.Find(docs, name);
    var listing := up.api.listCommits(path, Config.Branch);
    var r := CreationPatch(docs, path, name, up).0;
    if doc.Some? && doc.value.creation.None? && listing.Ok? && GitHubApi.Page(listing.value, FirstCommitsPage) != []
       && GitHubApi.Page(listing.value, FirstCommitsPage)[|GitHubApi.Page(listing.value, FirstCommitsPage)| - 1].committerDate.Some? {
      var page := GitHubApi.Page(listing.value, FirstCommitsPage);
      var g := (d: TechDoc) => d.(creation := Some(up.parseDate(page[|page| - 1].committerDate.value)));
      assert r == UpdateOne(docs, name, g);
      UpdateFinds(docs, name, g);
      UpdateKeepsIds(docs, name, g);
    } else {
      assert r == docs;
    }
  }

  /** What a sync does to the store: a file that could not be fetched or
      parsed leaves it alone; otherwise its record carries the file's data,
      status "published" by "github", and the draft it had, while every
      other record stays as it was. */
  lemma SyncOneEffect(docs: seq<TechDoc>, path: string, name: string, up: Upstream)
    requires UniqueIds(docs)
    ensures UniqueIds(SyncOne(docs, path, name, up).0)
    ensures !ContentParses(up, path) ==> SyncOne(docs, path, name, up) == (docs, false)
    ensures ContentParses(up, path) ==>
      var r := TechStore.Find(SyncOne(docs, path, name, up).0, name);
      && r.Some? && r.value.status == Published && r.value.lastUpdatedBy == GithubUpdater
      && r.value.data == ParsedContent(up, path)
      && r.value.version == ReplaceFirst(name, JsonSuffix, "")
      && r.value.draft == (if TechStore.Find(docs, name).Some? then TechStore.Find(docs, name).value.draft else Null)
    ensures forall other :: other != name ==> TechStore.Find(SyncOne(docs, path, name, up).0, other) == TechStore.Find(docs, other)
  {
    if ContentParses(up, path) {
      var meta := GitHubApi.GetFileMetadata(up.api, path, Config.Branch);
      var f := o => Synced(o, name, meta, ParsedContent(up, path), up.parseDate);
      UpsertFinds(docs, name, f);
      CreationPatchKeeps(Upserted(docs, path, name, up), path, name, up);
    }
  }

  /** `syncFile`. */
  method SyncFile(techs: Store, path: string, name: string, up: Upstream) returns (ok: bool)
    requires techs.Valid()
    modifies techs
    ensures techs.Valid()
    ensures (techs.docs, ok) == SyncOne(old(techs.docs), path, name, up)
  {
    var resp := up.api.getContent(path, Config.Branch);
    var meta := GitHubApi.GetFileMetadata(up.api, path, Config.Branch);
    if resp.Err? || resp.value.Directory? {
      return false;
    }
    var content := up.api.parse(up.api.decode(resp.value.content));
    if content.None? {
      return false;
    }
    techs.Upsert(name, o => Synced(o, name, meta, content.value, up.parseDate));
    var doc := TechStore.Find(techs.docs, name);
    if doc.None? || doc.value.creation.Some? {
      return true;
    }
    var listing := up.api.listCommits(path, Config.Branch);
    if listing.Err? {
      return false;
    }
    var firstCommits := GitHubApi.Page(listing.value, FirstCommitsPage);
    if firstCommits == [] {
      return true;
    }
    var firstCommit := firstCommits[|firstCommits| - 1];
    if firstCommit.committerDate.None? {
      return false;
    }
    var created := up.parseDate(firstCommit.committerDate.value);
    techs.Update(name, (d: TechDoc) => d.(creation := Some(created)));
    ok := true;
  }

  // ---------------------------------------------------------------------
  // Updates

  /** `new Set([...a, ...b])`. */
  function Union(a: seq<string>, b: seq<string>): (r: seq<string>)
    ensures Distinct(a) ==> Distinct(r)
    ensures forall x :: x in r <==> x in a || x in b
  {
    if b == [] then a else AddToSet(Union(a, b[..|b| - 1]), b[|b| - 1])
  }

  /** The update loop: each path with a non-empty last segment synced in
      order; whether every sync returned true. */
  function SyncAll(docs: seq<TechDoc>, paths: seq<string>, up: Upstream): (seq<TechDoc>, bool) {
    if paths == [] then (docs, true)
    else
      var before := SyncAll(docs, paths[..|paths| - 1], up);
      var p := paths[|paths| - 1];
      var name := LastSegment(p);
      if name == "" then before
      else
        var one := SyncOne(before.0, p, name, up);
        (one.0, before.1 && one.1)
  }

  method UpdateFiles(techs: Store, paths: seq<string>, up: Upstream) returns (ok: bool)
    requires techs.Valid()
    modifies techs
    ensures techs.Valid()
    ensures (techs.docs, ok) == SyncAll(old(techs.docs), paths, up)
  {
    ghost var d0 := techs.docs;
    ok := true;
    for i := 0 to |paths|
      invariant techs.Valid()
      invariant (techs.docs, ok) == SyncAll(d0, paths[..i], up)
    {
      assert paths[..i + 1][..i] == paths[..i];
      var name := LastSegment(paths[i]);
      if name != "" {
        var synced := SyncFile(techs, paths[i], name, up);
        if !synced {
          ok := false;
        }
      }
    }
    assert paths[..|paths|] == paths;
  }

  /** The update loop never drops a record, adds records only under the
      paths' last segments, and leaves a record under the last segment of
      every path whose content could be fetched and parsed. It reports
      success only when every such content could. */
  lemma {:induction false} SyncAllIds(docs: seq<TechDoc>, paths: seq<string>, up: Upstream)
    requires UniqueIds(docs)
    ensures UniqueIds(SyncAll(docs, paths, up).0)
    ensures Ids(docs) <= Ids(SyncAll(docs, paths, up).0) <= Ids(docs) + Names(paths)
    ensures forall p :: p in paths && LastSegment(p) != "" && ContentParses(up, p) ==>
      LastSegment(p) in Ids(SyncAll(docs, paths, up).0)
    ensures SyncAll(docs, paths, up).1 ==>
      forall p :: p in paths && LastSegment(p) != "" ==> ContentParses(up, p)
  {
    if paths != [] {
      var init, p := paths[..|paths| - 1], paths[|paths| - 1];
      SyncAllIds(docs, init, up);
      assert forall q :: q in paths <==> q in init || q == p;
      assert Names(paths) == Names(init) + {LastSegment(p)};
      var d := SyncAll(docs, init, up).0;
      var name := LastSegment(p);
      if name != "" {
        SyncOneIds(d, p, name, up);
        assert SyncAll(docs, paths, up).0 == SyncOne(d, p, name, up).0;
      } else {
        assert SyncAll(docs, paths, up) == SyncAll(docs, init, up);
      }
    }
  }

  /** One sync keeps every id and adds at most its own name, which it adds
      whenever the content parses. */
  lemma SyncOneIds(docs: seq<TechDoc>, path: string, name: string, up: Upstream)
    requires UniqueIds(docs)
    ensures UniqueIds(SyncOne(docs, path, name, up).0)
    ensures Ids(docs) <= Ids(SyncOne(docs, path, name, up).0) <= Ids(docs) + {name}
    ensures ContentParses(up, path) ==> name in Ids(SyncOne(docs, path, name, up).0)
    ensures SyncOne(docs, path, name, up).1 ==> ContentParses(up, path)
  {
    if ContentParses(up, path) {
      var meta := GitHubApi.GetFileMetadata(up.api, path, Config.Branch);
      var f := o => Synced(o, name, meta, ParsedContent(up, path), up.parseDate);
      UpsertFinds(docs, name, f);
      UpsertIds(docs, name, f);
      CreationPatchKeeps(Upserted(docs, path, name, up), path, name, up);
    }
  }

  // ---------------------------------------------------------------------
  // The push

  /** The sync bookmark record. */
  datatype SyncMeta = SyncMeta(key: string, lastSyncCommitId: Option<string>, lastSyncTimestamp: Option<int>)

  /** The `meta_data` collection, by key. */
  class MetaStore {
    var records: map<string, SyncMeta>

    constructor (records: map<string, SyncMeta>)
      ensures this.records == records
    {
      this.records := records;
    }
  }

  function Bookmark(records: map<string, SyncMeta>): Option<string> {
    if BookmarkKey in records then records[BookmarkKey].lastSyncCommitId else None
  }

  /** Everything a push to the main branch does, given the stored
      bookmark: `None` when it throws (no bookmark and no commits);
      otherwise the store after the removals and then the updates, and
      whether the bookmark moves. */
  function Push(p: Payload, bookmark: Option<string>, up: Upstream, docs: seq<TechDoc>, dataPath: string)
    : (r: Option<(seq<TechDoc>, bool)>)
    ensures r.None? <==> !GitHubApi.Truthy(bookmark) && p.commits.None?
    ensures r.Some? && GitHubApi.Truthy(bookmark) && up.compare(bookmark.value, p.after).Err? ==> !r.value.1
  {
    var collected: Option<(Changes, bool)> :=
      if GitHubApi.Truthy(bookmark) then
        var cmp := up.compare(bookmark.value, p.after);
        Some(if cmp.Ok? then (Classify(cmp.value, dataPath), true) else (NoChanges, false))
      else if p.commits.None? then None
      else Some((FromCommits(p.commits.value, dataPath), true));
    if collected.None? then None
    else
      var c := collected.value.0;
      var synced := SyncAll(DeleteIds(docs, Names(c.removed)), Union(c.added, c.modified), up);
      Some((synced.0, collected.value.1 && synced.1))
  }

  /** Removals run before updates: a file removed and added again in the
      same push is in the store afterwards when its content parses, and a
      removed file that is not updated again is gone. */
  lemma RemovalThenUpdate(docs: seq<TechDoc>, c: Changes, up: Upstream)
    requires UniqueIds(docs)
    ensures var r := SyncAll(DeleteIds(docs, Names(c.removed)), Union(c.added, c.modified), up).0;
      && (forall p :: p in c.added && LastSegment(p) != "" && ContentParses(up, p) ==> LastSegment(p) in Ids(r))
      && (forall n :: n in Names(c.removed) && n !in Names(c.added) && n !in Names(c.modified) ==> n !in Ids(r))
  {
    var removed := DeleteIds(docs, Names(c.removed));
    DeleteKeepsUnique(docs, Names(c.removed));
    var u := Union(c.added, c.modified);
    SyncAllIds(removed, u, up);
    assert Names(u) == Names(c.added) + Names(c.modified);
  }

  /** The bookmark moves only when the changed files were found and every
      added or modified file's content could be fetched and parsed. */
  lemma BookmarkOnlyAfterSuccess(p: Payload, bookmark: Option<string>, up: Upstream, docs: seq<TechDoc>,
                                  dataPath: string)
    requires UniqueIds(docs)
    requires Push(p, bookmark, up, docs, dataPath).Some? && Push(p, bookmark, up, docs, dataPath).value.1
    ensures GitHubApi.Truthy(bookmark) ==> up.compare(bookmark.value, p.after).Ok?
    ensures var c := if GitHubApi.Truthy(bookmark) then Classify(up.compare(bookmark.value, p.after).value, dataPath)
                     else FromCommits(p.commits.value, dataPath);
      forall f :: (f in c.added || f in c.modified) && LastSegment(f) != "" ==> ContentParses(up, f)
  {
    var c := if GitHubApi.Truthy(bookmark) then Classify(up.compare(bookmark.value, p.after).value, dataPath)
             else FromCommits(p.commits.value, dataPath);
    var removed := DeleteIds(docs, Names(c.removed));
    DeleteKeepsUnique(docs, Names(c.removed));
    SyncAllIds(removed, Union(c.added, c.modified), up);
  }

  /** The `x-hub-signature-256` check: the header is "sha256=" and then the
      HMAC of the raw body under the secret; a missing header fails. */
  predicate Authentic(req: Request, secret: string, hmac: (string, string) -> string)
    ensures req.signature.None? ==> !Authentic(req, secret, hmac)
    ensures Authentic(req, secret, hmac) ==>
      var s := req.signature.value;
      |s| >= |Signed| && s[..|Signed|] == "sha256=" && s[|Signed|..] == hmac(secret, req.body)
    ensures (req.signature.Some? && |req.signature.value| >= |Signed| && req.signature.value[..|Signed|] == "sha256="
             && req.signature.value[|Signed|..] == hmac(secret, req.body)) ==> Authentic(req, secret, hmac)
  {
    GitHubApi.Truthy(req.signature) && req.signature.value == Signed + hmac(secret, req.body)
  }

  /** Only a `push` event on `refs/heads/main` is handled. */
  predicate IsMainPush(req: Request)
    requires req.payload.Some?
    ensures IsMainPush(req) <==> req.event == Some("push") && req.payload.value.ref == "refs/heads/main"
  {
    req.event == Some(PushEvent) && req.payload.value.ref == HeadsPrefix + Config.Branch
  }

  /** The push handling once the request is known to be a push to main.
      `dataPath` is the prefix the route filters with: `DataPathAsWritten`
      for the route as it stands, `DataPath` for the intended filter. */
  method HandlePush(p: Payload, up: Upstream, techs: Store, metas: MetaStore, now: int, dataPath: string)
    returns (status: int)
    requires techs.Valid()
    modifies techs, metas
    ensures techs.Valid()
    ensures var r := Push(p, Bookmark(old(metas.records)), up, old(techs.docs), dataPath);
      if r.None? then status == 500 && techs.docs == old(techs.docs) && metas.records == old(metas.records)
      else
        && status == 200 && techs.docs == r.value.0
        && metas.records == if r.value.1 then old(metas.records)[BookmarkKey := SyncMeta(BookmarkKey, Some(p.after), Some(now))]
                            else old(metas.records)
  {
    var bookmark := Bookmark(metas.records);
    var syncSuccess := true;
    var changes: Changes;
    if GitHubApi.Truthy(bookmark) {
      var comparison := up.compare(bookmark.value, p.after);
      if comparison.Ok? {
        changes := ClassifyComparison(comparison.value, dataPath);
      } else {
        changes := NoChanges;
        syncSuccess := false;
      }
    } else {
      if p.commits.None? {
        return 500;
      }
      changes := ProcessCommits(p.commits.value, dataPath);
    }
    RemoveFiles(techs, changes.removed);
    var toUpdate := Union(changes.added, changes.modified);
    var synced := UpdateFiles(techs, toUpdate, up);
    if !synced {
      syncSuccess := false;
    }
    if syncSuccess {
      metas.records := metas.records[BookmarkKey := SyncMeta(BookmarkKey, Some(p.after), Some(now))];
    }
    status := 200;
  }

  /** `POST /api/github-webhook`: 500 without a secret, 401 without a
      matching signature, 500 for a body that does not parse, and nothing
      changes unless the request is an authentic push to the main branch.
      The push handling filters with `dataPath`, as in `HandlePush`. */
  method Post(req: Request, secret: Option<string>, hmac: (string, string) -> string, up: Upstream,
              techs: Store, metas: MetaStore, now: int, dataPath: string)
    returns (status: int)
    requires techs.Valid()
    modifies techs, metas
    ensures techs.Valid()
    ensures !GitHubApi.Truthy(secret) ==> status == 500
    ensures GitHubApi.Truthy(secret) && !Authentic(req, secret.value, hmac) ==> status == 401
    ensures GitHubApi.Truthy(secret) && Authentic(req, secret.value, hmac) && req.payload.None? ==> status == 500
    ensures !(GitHubApi.Truthy(secret) && Authentic(req, secret.value, hmac) && req.payload.Some? && IsMainPush(req)) ==>
      techs.docs == old(techs.docs) && metas.records == old(metas.records)
    ensures GitHubApi.Truthy(secret) && Authentic(req, secret.value, hmac) && req.payload.Some? ==>
      if !IsMainPush(req) then status == 200
      else
        var r := Push(req.payload.value, Bookmark(old(metas.records)), up, old(techs.docs), dataPath);
        if r.None? then status == 500 && techs.docs == old(techs.docs) && metas.records == old(metas.records)
        else
          && status == 200 && techs.docs == r.value.0
          && metas.records == if r.value.1 then old(metas.records)[BookmarkKey := SyncMeta(BookmarkKey, Some(req.payload.value.after), Some(now))]
                              else old(metas.records)
  {
    if !GitHubApi.Truthy(secret) {
      return 500;
    }
    if !GitHubApi.Truthy(req.signature) {
      return 401;
    }
    var digest := Signed + hmac(secret.value, req.body);
    if req.signature.value != digest {
      return 401;
    }
    if req.payload.None? {
      return 500;
    }
    var payload := req.payload.value;
    if req.event == Some(PushEvent) && payload.ref == HeadsPrefix + Config.Branch {
      status := HandlePush(payload, up, techs, metas, now, dataPath);
    } else {
      status := 200;
    }
  }

  // ---------------------------------------------------------------------
  // The data path

  /** A tech-stack file as it sits in the repository. */
  const SampleDataFile := Config.TechStackPath + "/v11.4.0.json"

  /** As written, the filter looks for names starting with "undefined": a
      modification of a tech-stack file is not seen, by the comparison or
      by the commit scan. */
  lemma AsWrittenMissesDataFiles()
    ensures Classify([ComparedFile(SampleDataFile, Modified, None)], DataPathAsWritten) == NoChanges
    ensures FromCommits([PushCommit([], [SampleDataFile], [])], DataPathAsWritten) == NoChanges
  {
    assert !StartsWith(SampleDataFile, DataPathAsWritten) by {
      assert SampleDataFile[0] != DataPathAsWritten[0];
    }
    assert Classify([ComparedFile(SampleDataFile, Modified, None)][..0], DataPathAsWritten) == NoChanges;
    assert [PushCommit([], [SampleDataFile], [])][..0] == [];
    assert [SampleDataFile][..0] == [];
  }

  /** With the configured tech-stack directory, the same modification is
      seen and the file is re-synced. */
  lemma ConfiguredPathSeesDataFiles()
    ensures Classify([ComparedFile(SampleDataFile, Modified, None)], DataPath) == Changes([], [SampleDataFile], [])
    ensures FromCommits([PushCommit([], [SampleDataFile], [])], DataPath).modified == [SampleDataFile]
  {
    assert IsDataFile(SampleDataFile, DataPath) by {
      assert SampleDataFile[..|DataPath|] == DataPath;
      assert SampleDataFile[|SampleDataFile| - |JsonSuffix|..] == JsonSuffix;
    }
    assert Classify([ComparedFile(SampleDataFile, Modified, None)][..0], DataPath) == NoChanges;
    assert [PushCommit([], [SampleDataFile], [])][..0] == [];
    assert [SampleDataFile][..0] == [];
  }

  /** The push as the route is written: with a bookmark and a comparison
      that reports only a modified tech-stack file, no record changes and
      the bookmark still moves to the pushed commit. */
  lemma AsWrittenPushSkipsDataFiles(p: Payload, b: string, up: Upstream, docs: seq<TechDoc>)
    requires b != ""
    requires up.compare(b, p.after) == Ok([ComparedFile(SampleDataFile, Modified, None)])
    ensures Push(p, Some(b), up, docs, DataPathAsWritten) == Some((docs, true))
  {
    AsWrittenMissesDataFiles();
    assert Names([]) == {};
    DeleteNothing(docs);
  }

  /** The last segment of the sample file is its own name. */
  lemma SampleName()
    ensures LastSegment(SampleDataFile) == "v11.4.0.json"
  {
    assert SampleDataFile == Config.TechStackPath + ['/'] + "v11.4.0.json";
    LastPieceAfter(Config.TechStackPath, '/', "v11.4.0.json");
  }

  /** A push whose comparison reports only one modified file that the
      filter sees re-syncs that file and nothing else. */
  lemma PushOneModified(p: Payload, b: string, up: Upstream, docs: seq<TechDoc>, f: string, dataPath: string)
    requires b != ""
    requires up.compare(b, p.after) == Ok([ComparedFile(f, Modified, None)])
    requires Classify([ComparedFile(f, Modified, None)], dataPath) == Changes([], [f], [])
    ensures Push(p, Some(b), up, docs, dataPath) == Some(SyncAll(docs, [f], up))
  {
    assert Names([]) == {};
    DeleteNothing(docs);
    assert Union([], [f]) == [f] by {
      assert Union([], [f][..0]) == [];
    }
  }

  /** The same push with the configured tech-stack directory: the file is
      re-synced, so its record is present whenever its content parses, and
      the bookmark moves only when it does. */
  lemma ConfiguredPushSyncsDataFiles(p: Payload, b: string, up: Upstream, docs: seq<TechDoc>)
    requires UniqueIds(docs)
    requires b != ""
    requires up.compare(b, p.after) == Ok([ComparedFile(SampleDataFile, Modified, None)])
    ensures Push(p, Some(b), up, docs, DataPath).Some?
    ensures ContentParses(up, SampleDataFile) ==> "v11.4.0.json" in Ids(Push(p, Some(b), up, docs, DataPath).value.0)
    ensures Push(p, Some(b), up, docs, DataPath).value.1 ==> ContentParses(up, SampleDataFile)
  {
    ConfiguredPathSeesDataFiles();
    SampleName();
    PushOneModified(p, b, up, docs, SampleDataFile, DataPath);
    SyncAllIds(docs, [SampleDataFile], up);
  }
}
