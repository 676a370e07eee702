/** The document server actions: the directory tree of a path, read from
    its snapshot or synced on first use; a document's content, read from
    the store or fetched from GitHub on first use; and the save of an
    edited draft, which appends one history entry. The store is a map from
    path to record. The signed-in user, the clock and the diff function are
    inputs. */
module DocActions {
  import opened Wrappers
  import opened Json
  import GitHubApi
  import Config
  import TreeSync

  /** The commit a document was read at. */
  datatype CommitStamp = CommitStamp(lastCommitId: string, timestamp: int, username: string)

  /** Who made a change. */
  datatype Editor = Editor(name: string, email: Option<string>, image: Option<string>)

  /** One entry of a document's `history`. */
  datatype HistoryEntry = HistoryEntry(timestamp: int, updatedBy: string, user: Editor, changes: Json)

  /** A document record. `path` is absent on a record a save created.
      `githubData` is the content as read from GitHub, `docsflowData` the
      edited draft (`Null` when none). */
  datatype Doc = Doc(
    id: string,
    path: Option<string>,
    commitDetails: Option<CommitStamp>,
    lastUpdate: int,
    creation: int,
    source: string,
    lastUpdatedBy: Option<string>,
    status: string,
    githubData: Json,
    docsflowData: Json,
    history: seq<HistoryEntry>)

  /** The signed-in user, as the session reports it. */
  datatype SessionUser = SessionUser(name: Option<string>, email: Option<string>, image: Option<string>)

  /** Why a read failed: a GitHub call failed, or the file's latest commit
      has no date to store. */
  datatype DocError = CallFailed(error: GitHubApi.ApiError) | InvalidDate

  const Github := "github"
  const Docsflow := "docsflow"
  const Published := "published"
  const Modified := "modified"
  const UnknownEditor := "Unknown User"

  /** A record as an upsert first inserts it: the schema's defaults. */
  function Defaults(id: string, now: int): (d: Doc)
    ensures d.id == id && d.history == [] && d.githubData == Null && d.docsflowData == Null
  {
    Doc(id, None, None, now, now, Github, None, Published, Null, Null, [])
  }

  /** The documents collection. */
  class DocStore {
    var docs: map<string, Doc>

    constructor (docs: map<string, Doc>)
      ensures this.docs == docs
    {
      this.docs := docs;
    }
  }

  // ---------------------------------------------------------------------
  // The tree

  /** `fetchDocTree`: the stored snapshot of the path; when there is none,
      a sync and a second read, which may still find nothing. A failed
      sync fails the read. */
  method FetchDocTree(store: TreeSync.TreeStore, git: TreeSync.Git, path: string, now: int)
    returns (r: Result<Option<TreeSync.DocTree>, TreeSync.TreeSyncError>)
    modifies store
    ensures path in old(store.trees) ==> r == Ok(Some(old(store.trees)[path])) && store.trees == old(store.trees)
    ensures path !in old(store.trees) ==>
      var s := TreeSync.Snapshot(git, path, now);
      && (s.Err? ==> r == Err(s.error) && store.trees == old(store.trees))
      && (s.Ok? ==> r == s && store.trees == if s.value.Some? then old(store.trees)[path := s.value.value] else old(store.trees))
  {
    if path in store.trees {
      return Ok(Some(store.trees[path]));
    }
    var synced := TreeSync.PerformTreeSync(store, git, path, now);
    if synced.Err? {
      return Err(synced.error);
    }
    r := Ok(if path in store.trees then Some(store.trees[path]) else None);
  }

  /** `syncDocTree`: success exactly when the snapshot sync did not fail. */
  method SyncDocTree(store: TreeSync.TreeStore, git: TreeSync.Git, path: string, now: int) returns (success: bool)
    modifies store
    ensures var s := TreeSync.Snapshot(git, path, now);
      && (success <==> s.Ok?)
      && store.trees == if s.Ok? && s.value.Some? then old(store.trees)[path := s.value.value] else old(store.trees)
  {
    var synced := TreeSync.PerformTreeSync(store, git, path, now);
    success := synced.Ok?;
  }

  // ---------------------------------------------------------------------
  // Content

  /** The record created for a document read from GitHub: the content as
      `githubData`, no draft, "published" from "github", by the last
      committer (else "github"), with the commit when there is one. A
      commit without a date cannot be stored. */
  function FromGithub(path: string, content: string, meta: Option<GitHubApi.FileMeta>, parseDate: string -> int,
                      now: int): (r: Result<Doc, DocError>)
    ensures r.Ok? <==> meta.None? || meta.value.lastUpdate.Some?
    ensures r.Ok? ==>
      var d := r.value;
      && d.id == path && d.path == Some(path)
      && d.githubData == Str(content) && d.docsflowData == Null
      && d.status == Published && d.source == Github
      && d.lastUpdatedBy == Some(if meta.Some? then meta.value.lastGithubUser else Github)
      && (d.commitDetails.Some? <==> meta.Some?)
      && d.history == []
  {
    if meta.Some? && meta.value.lastUpdate.None? then Err(InvalidDate)
    else
      var stamp := if meta.Some?
                   then Some(CommitStamp(meta.value.lastCommitId, parseDate(meta.value.lastUpdate.value), meta.value.lastGithubUser))
                   else None;
      var user := if meta.Some? then meta.value.lastGithubUser else Github;
      Ok(Defaults(path, now).(path := Some(path), githubData := Str(content), docsflowData := Null, status := Published,
                              source := Github, lastUpdatedBy := Some(user), commitDetails := stamp))
  }

  /** What `fetchDocContent` returns: the stored record when there is one;
      otherwise the record created from GitHub's content, nothing when
      GitHub has no content, or the failure. */
  function ContentOf(docs: map<string, Doc>, api: GitHubApi.Api, path: string, parseDate: string -> int, now: int)
    : Result<Option<Doc>, DocError>
  {
    if path in docs then Ok(Some(docs[path]))
    else
      var content := GitHubApi.GetFileContent(api, path, Config.Branch);
      if content.Err? then Err(CallFailed(content.error))
      else if content.value.None? || content.value.value == "" then Ok(None)
      else
        var created := FromGithub(path, content.value.value, GitHubApi.GetFileMetadata(api, path, Config.Branch), parseDate, now);
        if created.Err? then Err(created.error) else Ok(Some(created.value))
  }

  /** The store after `fetchDocContent`: a record is added only for a
      document that was missing and that GitHub has content for. */
  function AfterContent(docs: map<string, Doc>, api: GitHubApi.Api, path: string, parseDate: string -> int, now: int)
    : map<string, Doc>
  {
    var r := ContentOf(docs, api, path, parseDate, now);
    if path !in docs && r.Ok? && r.value.Some? then docs[path := r.value.value] else docs
  }

  /** `fetchDocContent`. */
  method FetchDocContent(store: DocStore, api: GitHubApi.Api, path: string, parseDate: string -> int, now: int)
    returns (r: Result<Option<Doc>, DocError>)
    modifies store
    ensures r == ContentOf(old(store.docs), api, path, parseDate, now)
    ensures store.docs == AfterContent(old(store.docs), api, path, parseDate, now)
  {
    if path in store.docs {
      return Ok(Some(store.docs[path]));
    }
    var content := GitHubApi.GetFileContent(api, path, Config.Branch);
    if content.Err? {
      return Err(CallFailed(content.error));
    }
    var metadata := GitHubApi.GetFileMetadata(api, path, Config.Branch);
    if content.value.Some? && content.value.value != "" {
      var created := FromGithub(path, content.value.value, metadata, parseDate, now);
      if created.Err? {
        return Err(created.error);
      }
      store.docs := store.docs[path := created.value];
      return Ok(Some(created.value));
    }
    r := Ok(None);
  }

  /** Reading content is idempotent: the record the first read stores is
      what a second read returns, and the second read changes nothing. */
  lemma ContentReadTwice(docs: map<string, Doc>, api: GitHubApi.Api, path: string, parseDate: string -> int,
                         now: int, later: int)
    requires ContentOf(docs, api, path, parseDate, now).Ok? && ContentOf(docs, api, path, parseDate, now).value.Some?
    ensures var after := AfterContent(docs, api, path, parseDate, now);
      && ContentOf(after, api, path, parseDate, later) == ContentOf(docs, api, path, parseDate, now)
      && AfterContent(after, api, path, parseDate, later) == after
  {
  }

  // ---------------------------------------------------------------------
  // Saving

  /** The user a save is attributed to: the session's name, else
      "Unknown User". */
  function EditorName(session: Option<SessionUser>): (n: string)
    ensures n != ""
    ensures session.Some? && GitHubApi.Truthy(session.value.name) ==> n == session.value.name.value
  {
    if session.Some? then GitHubApi.OrElse(session.value.name, UnknownEditor) else UnknownEditor
  }

  /** `x || undefined`. */
  function Present(o: Option<string>): Option<string> {
    if GitHubApi.Truthy(o) then o else None
  }

  /** The history entry of a save. */
  function Entry(session: Option<SessionUser>, changes: Json, now: int): HistoryEntry {
    var email := if session.Some? then Present(session.value.email) else None;
    var image := if session.Some? then Present(session.value.image) else None;
    HistoryEntry(now, Docsflow, Editor(EditorName(session), email, image), changes)
  }

  /** The draft the diff is taken against: `existing?.docsflow_data`. */
  function PreviousDraft(existing: Option<Doc>): Option<Json> {
    if existing.Some? then Some(existing.value.docsflowData) else None
  }

  /** The record `saveDocContent` leaves: the record there was (or the
      defaults) with the new draft, status "modified" from "docsflow", by
      the editor, and exactly one history entry appended whose changes are
      the diff against the previous draft. What came from GitHub stays. */
  function Saved(existing: Option<Doc>, path: string, data: Json, computeDiff: (Option<Json>, Json) -> Json,
                 session: Option<SessionUser>, now: int): (d: Doc)
    ensures var before := if existing.Some? then existing.value else Defaults(path, now);
      && d.docsflowData == data && d.status == Modified && d.source == Docsflow
      && d.lastUpdatedBy == Some(EditorName(session)) && d.lastUpdate == now
      && |d.history| == |before.history| + 1
      && d.history[..|before.history|] == before.history
      && d.history[|before.history|].changes == computeDiff(PreviousDraft(existing), data)
      && d.history[|before.history|].user.name == EditorName(session)
      && d.githubData == before.githubData && d.commitDetails == before.commitDetails && d.path == before.path
  {
    var before := if existing.Some? then existing.value else Defaults(path, now);
    var entry := Entry(session, computeDiff(PreviousDraft(existing), data), now);
    assert (before.history + [entry])[..|before.history|] == before.history;
    before.(docsflowData := data, status := Modified, lastUpdatedBy := Some(EditorName(session)), source := Docsflow,
            lastUpdate := now, history := before.history + [entry])
  }

  /** What `saveDocContent` answers: the saved record, or a failure. */
  datatype SaveOutcome = SavedDoc(doc: Doc) | SaveFailed

  /** `saveDocContent`: when the store accepts the write (`accepted`), the
      record under the path becomes `Saved` of what was there and no other
      record changes; otherwise the save fails and nothing changes. */
  method SaveDocContent(store: DocStore, path: string, data: Json, computeDiff: (Option<Json>, Json) -> Json,
                        session: Option<SessionUser>, now: int, accepted: bool) returns (r: SaveOutcome)
    modifies store
    ensures r.SaveFailed? <==> !accepted
    ensures accepted ==>
      r.doc == Saved(if path in old(store.docs) then Some(old(store.docs)[path]) else None, path, data, computeDiff, session, now)
      && store.docs == old(store.docs)[path := r.doc]
    ensures !accepted ==> store.docs == old(store.docs)
  {
    var existing := if path in store.docs then Some(store.docs[path]) else None;
    var changes := computeDiff(PreviousDraft(existing), data);
    var historyEntry := Entry(session, changes, now);
    if !accepted {
      return SaveFailed;
    }
    var before := if existing.Some? then existing.value else Defaults(path, now);
    var doc := before.(docsflowData := data, status := Modified, lastUpdatedBy := Some(EditorName(session)),
                       source := Docsflow, lastUpdate := now, history := before.history + [historyEntry]);
    store.docs := store.docs[path := doc];
    r := SavedDoc(doc);
  }

  /** After a save, reading the document returns the saved record without
      calling GitHub, and two saves leave two entries in order, the second
      diffed against the first save's draft. */
  lemma SaveThenRead(docs: map<string, Doc>, api: GitHubApi.Api, path: string, data: Json, data': Json,
                     computeDiff: (Option<Json>, Json) -> Json, session: Option<SessionUser>, now: int, later: int,
                     parseDate: string -> int)
    ensures var first := Saved(if path in docs then Some(docs[path]) else None, path, data, computeDiff, session, now);
      && ContentOf(docs[path := first], api, path, parseDate, later) == Ok(Some(first))
      && var second := Saved(Some(first), path, data', computeDiff, session, later);
      var n := |first.history|;
      && |second.history| == n + 1
      && second.history[..n] == first.history
      && second.history[n - 1].changes == computeDiff(PreviousDraft(if path in docs then Some(docs[path]) else None), data)
      && second.history[n].changes == computeDiff(Some(data), data')
  {
    var existing := if path in docs then Some(docs[path]) else None;
    var first := Saved(existing, path, data, computeDiff, session, now);
    var before := if existing.Some? then existing.value else Defaults(path, now);
    var n := |first.history|;
    var second := Saved(Some(first), path, data', computeDiff, session, later);
    assert n == |before.history| + 1;
    assert second.history[n - 1] == second.history[..n][n - 1];
  }
}
