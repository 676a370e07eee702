/** The directory-tree snapshot (`performTreeSync`): the latest commit that
    touched a path, the recursive tree of that commit filtered to the
    entries under the path, and one upsert of the snapshot record keyed by
    the path. Nothing is written unless every fetch succeeded. */
module TreeSync {
  import opened Wrappers
  import opened Text
  import GitHubApi
  import Config

  /** An entry of a recursive git tree; `path` may be absent. */
  datatype TreeItem = TreeItem(path: Option<string>, mode: string, kind: string, sha: string)

  /** The commit a snapshot was taken at. */
  datatype CommitDetails = CommitDetails(lastCommitId: string, lastCommitTimestamp: int, lastCommitUser: string)

  /** A snapshot record, keyed by the watched path. */
  datatype DocTree = DocTree(id: string, commitDetails: CommitDetails, lastUpdate: int, tree: seq<TreeItem>)

  /** The git API the snapshot reads: the commits touching a path on a
      ref (newest first), the tree sha of a commit, the recursive listing
      of a tree, and the date parser. */
  datatype Git = Git(
    listCommits: (string, string) -> Result<seq<GitHubApi.CommitInfo>, GitHubApi.ApiError>,
    treeOf: string -> Result<string, GitHubApi.ApiError>,
    getTree: string -> Result<seq<TreeItem>, GitHubApi.ApiError>,
    parseDate: string -> int)

  /** Why a snapshot failed: a call failed, or the latest commit has no
      committer date to store. */
  datatype TreeSyncError = CallFailed(error: GitHubApi.ApiError) | NoCommitterDate

  /** `tree.filter(item => item.path?.startsWith(path))`. */
  function UnderPath(items: seq<TreeItem>, path: string): (r: seq<TreeItem>)
    ensures |r| <= |items|
    ensures forall it :: it in r <==> it in items && it.path.Some? && StartsWith(it.path.value, path)
  {
    if items == [] then []
    else
      var rest := UnderPath(items[1..], path);
      assert forall it :: it in items <==> it == items[0] || it in items[1..];
      if items[0].path.Some? && StartsWith(items[0].path.value, path) then [items[0]] + rest else rest
  }

  /** The filter keeps the listing's order: filtering a concatenation
      concatenates the filtered parts. */
  lemma {:induction false} UnderPathAppend(a: seq<TreeItem>, b: seq<TreeItem>, path: string)
    ensures UnderPath(a + b, path) == UnderPath(a, path) + UnderPath(b, path)
  {
    if a != [] {
      assert (a + b)[0] == a[0];
      assert (a + b)[1..] == a[1..] + b;
      UnderPathAppend(a[1..], b, path);
      var x, y := UnderPath(a[1..], path), UnderPath(b, path);
      assert [a[0]] + (x + y) == [a[0]] + x + y;
    } else {
      assert a + b == b;
    }
  }

  /** Filtering twice is filtering once. */
  lemma {:induction false} UnderPathIdempotent(items: seq<TreeItem>, path: string)
    ensures UnderPath(UnderPath(items, path), path) == UnderPath(items, path)
  {
    if items != [] {
      UnderPathIdempotent(items[1..], path);
    }
  }

  /** What a sync stores for a path: an error when a call fails, nothing
      when no commit touches the path, and otherwise the snapshot at the
      latest commit, keyed by the path, naming that commit and the user it
      is attributed to and its committer date, and holding the entries of
      its tree that lie under the path, in tree order. A failed call is
      reported as that call's error, and a latest commit without a
      committer date as `NoCommitterDate`. */
  function Snapshot(git: Git, path: string, now: int): (s: Result<Option<DocTree>, TreeSyncError>)
    ensures s == Ok(None) <==>
      git.listCommits(path, Config.Branch).Ok? && git.listCommits(path, Config.Branch).value == []
    ensures s.Ok? && s.value.Some? ==>
      var commits := git.listCommits(path, Config.Branch);
      var t := s.value.value;
      && commits.Ok? && commits.value != []
      && t.id == path
      && t.commitDetails.lastCommitId == commits.value[0].sha
      && t.commitDetails.lastCommitUser == GitHubApi.AttributedTo(commits.value[0], GitHubApi.UnknownScriptUser)
      && commits.value[0].committerDate.Some?
      && t.commitDetails.lastCommitTimestamp == git.parseDate(commits.value[0].committerDate.value)
      && t.lastUpdate == now
      && git.treeOf(commits.value[0].sha).Ok?
      && git.getTree(git.treeOf(commits.value[0].sha).value).Ok?
      && t.tree == UnderPath(git.getTree(git.treeOf(commits.value[0].sha).value).value, path)
      && (forall it :: it in t.tree <==>
            it in git.getTree(git.treeOf(commits.value[0].sha).value).value
            && it.path.Some? && StartsWith(it.path.value, path))
    ensures git.listCommits(path, Config.Branch).Err? ==> s == Err(CallFailed(git.listCommits(path, Config.Branch).error))
    ensures var commits := git.listCommits(path, Config.Branch);
      commits.Ok? && commits.value != [] ==>
        var treeSha := git.treeOf(commits.value[0].sha);
        && (treeSha.Err? ==> s == Err(CallFailed(treeSha.error)))
        && (treeSha.Ok? && git.getTree(treeSha.value).Err? ==> s == Err(CallFailed(git.getTree(treeSha.value).error)))
        && (treeSha.Ok? && git.getTree(treeSha.value).Ok? && commits.value[0].committerDate.None? ==> s == Err(NoCommitterDate))
  {
    var commits := git.listCommits(path, Config.Branch);
    if commits.Err? then Err(CallFailed(commits.error))
    else if commits.value == [] then Ok(None)
    else
      var latest := commits.value[0];
      var treeSha := git.treeOf(latest.sha);
      if treeSha.Err? then Err(CallFailed(treeSha.error))
      else
        var tree := git.getTree(treeSha.value);
        if tree.Err? then Err(CallFailed(tree.error))
        else if latest.committerDate.None? then Err(NoCommitterDate)
        else
          var details := CommitDetails(latest.sha, git.parseDate(latest.committerDate.value),
                                       GitHubApi.AttributedTo(latest, GitHubApi.UnknownScriptUser));
          Ok(Some(DocTree(path, details, now, UnderPath(tree.value, path))))
  }

  /** The `doc_trees` collection. */
  class TreeStore {
    var trees: map<string, DocTree>

    constructor (trees: map<string, DocTree>)
      ensures this.trees == trees
    {
      this.trees := trees;
    }
  }

  /** `performTreeSync`: true when a snapshot was written. Only the record
      of the path is written, and only after every call succeeded. */
  method PerformTreeSync(store: TreeStore, git: Git, path: string, now: int) returns (r: Result<bool, TreeSyncError>)
    modifies store
    ensures var s := Snapshot(git, path, now);
      && (s.Err? ==> r == Err(s.error) && store.trees == old(store.trees))
      && (s == Ok(None) ==> r == Ok(false) && store.trees == old(store.trees))
      && (s.Ok? && s.value.Some? ==> r == Ok(true) && store.trees == old(store.trees)[path := s.value.value])
  {
    var commits := git.listCommits(path, Config.Branch);
    if commits.Err? {
      return Err(CallFailed(commits.error));
    }
    if commits.value == [] {
      return Ok(false);
    }
    var latestCommit := commits.value[0];
    var branchCommit := git.treeOf(latestCommit.sha);
    if branchCommit.Err? {
      return Err(CallFailed(branchCommit.error));
    }
    var treeData := git.getTree(branchCommit.value);
    if treeData.Err? {
      return Err(CallFailed(treeData.error));
    }
    var filteredTree := UnderPath(treeData.value, path);
    if latestCommit.committerDate.None? {
      return Err(NoCommitterDate);
    }
    var details := CommitDetails(latestCommit.sha, git.parseDate(latestCommit.committerDate.value),
                                 GitHubApi.AttributedTo(latestCommit, GitHubApi.UnknownScriptUser));
    store.trees := store.trees[path := DocTree(path, details, now, filteredTree)];
    r := Ok(true);
  }
}
