/** The part of the GitHub REST API the publish code drives: branches,
    file lookups, blobs, trees, commits, ref updates and pull requests.
    Every call is recorded in `log`; whether a call fails (network, rate
    limits, permissions) is decided by the `fails` oracle. Object ids other
    than blob ids come from the opaque `treeId` and `commitId`. */
module Remote {
  import opened Wrappers
  import opened Utf8
  import opened GitBlob

  datatype EntryKind = Blob | Dir

  /** One entry of a recursive tree listing. */
  datatype TreeEntry = TreeEntry(path: string, kind: EntryKind, sha: string)

  type Tree = seq<TreeEntry>

  /** A `createTree` item: a file given by blob sha or by inline content. */
  datatype TreeItem = ItemSha(path: string, sha: string) | ItemContent(path: string, content: string)

  /** The commit author's name and e-mail. */
  datatype Author = Author(name: string, email: string)

  datatype Pull = Pull(head: string, base: string, url: string, number: nat, state: string)

  /** What `repos.getContent` answers: 404, a directory listing, or a file. */
  datatype Content = NotFound | Directory | File(sha: string)

  /** What a path names in a tree, or nothing without a tree. */
  function ContentAt(t: Option<Tree>, path: string): Content {
    if t.None? then NotFound
    else
      var i := FindEntry(t.value, path);
      if i < 0 then NotFound
      else if t.value[i].kind == Dir then Directory
      else File(t.value[i].sha)
  }

  datatype Call =
    | GetBranch(branch: string)
    | GetContent(ref: string, path: string)
    | CreateRef(branch: string, sha: string)
    | CreateBlob(content: string)
    | CreateTree(baseTree: string, items: seq<TreeItem>)
    | CreateCommit(message: string, tree: string, parent: string, author: Author)
    | UpdateRef(branch: string, sha: string)
    | ListPulls(head: string, base: string)
    | CreatePull(head: string, base: string, title: string, body: string)

  /** The position of the entry for path, or -1. */
  function FindEntry(t: Tree, path: string): (r: int)
    ensures -1 <= r < |t|
    ensures r >= 0 ==> t[r].path == path
    ensures r < 0 ==> forall i :: 0 <= i < |t| ==> t[i].path != path
  {
    if t == [] then -1
    else
      var r := FindEntry(t[..|t| - 1], path);
      if r >= 0 then r else if t[|t| - 1].path == path then |t| - 1 else -1
  }

  /** The blob an item stands for. */
  function ItemBlob(item: TreeItem, sha1: seq<Byte> -> string): (e: TreeEntry)
    ensures e.kind == Blob && e.path == item.path
  {
    match item
    case ItemSha(p, s) => TreeEntry(p, Blob, s)
    case ItemContent(p, c) => TreeEntry(p, Blob, ComputeBlobSha(c, sha1))
  }

  /** The tree `createTree` builds: the base tree with each item put in
      place, later items winning over earlier ones. */
  function Overlay(base: Tree, items: seq<TreeItem>, sha1: seq<Byte> -> string): Tree {
    if items == [] then base
    else
      var t := Overlay(base, items[..|items| - 1], sha1);
      var e := ItemBlob(items[|items| - 1], sha1);
      var i := FindEntry(t, e.path);
      if i >= 0 then t[i := e] else t + [e]
  }

  /** After the overlay each item's path holds the blob of the last item
      with that path. */
  lemma {:induction false} OverlayLookup(base: Tree, items: seq<TreeItem>, sha1: seq<Byte> -> string, k: nat)
    requires k < |items|
    requires forall j :: k < j < |items| ==> items[j].path != items[k].path
    ensures var t := Overlay(base, items, sha1);
      var i := FindEntry(t, items[k].path);
      i >= 0 && t[i] == ItemBlob(items[k], sha1)
    decreases |items|
  {
    var t0 := Overlay(base, items[..|items| - 1], sha1);
    var e := ItemBlob(items[|items| - 1], sha1);
    var i0 := FindEntry(t0, e.path);
    if k < |items| - 1 {
      OverlayLookup(base, items[..|items| - 1], sha1, k);
      var p := items[k].path;
      var t := Overlay(base, items, sha1);
      var j0 := FindEntry(t0, p);
      assert e.path != p;
      if i0 >= 0 {
        assert t == t0[i0 := e];
        assert FindEntry(t, p) == j0 by { FindEntryUpdate(t0, i0, e, p); }
      } else {
        assert t == t0 + [e];
        assert FindEntry(t, p) == j0 by { assert t[..|t| - 1] == t0; }
      }
    } else {
      var t := Overlay(base, items, sha1);
      if i0 >= 0 {
        FindEntryUpdate(t0, i0, e, e.path);
      } else {
        assert t[..|t| - 1] == t0;
      }
    }
  }

  /** Replacing the entry at i by one with the same path moves no lookup. */
  lemma {:induction false} FindEntryUpdate(t: Tree, i: nat, e: TreeEntry, p: string)
    requires i < |t| && t[i].path == e.path
    ensures FindEntry(t[i := e], p) == FindEntry(t, p)
    decreases |t|
  {
    if t != [] {
      var n := |t| - 1;
      if i < n {
        assert t[i := e][..n] == t[..n][i := e];
        FindEntryUpdate(t[..n], i, e, p);
      } else {
        assert t[i := e][..n] == t[..n];
      }
    }
  }

  class GitHub {
    /** Branch name to the commit at its tip. */
    var refs: map<string, string>
    /** Commit id to its tree. */
    var commits: map<string, Tree>
    /** Tree id to its entries. */
    var trees: map<string, Tree>
    var pulls: seq<Pull>
    var log: seq<Call>

    const fails: Call -> bool
    const sha1: seq<Byte> -> string
    const treeId: Tree -> string
    const commitId: (string, string, string) -> string
    const pullUrl: nat -> string

    constructor (refs: map<string, string>, commits: map<string, Tree>, pulls: seq<Pull>,
                 fails: Call -> bool, sha1: seq<Byte> -> string, treeId: Tree -> string,
                 commitId: (string, string, string) -> string, pullUrl: nat -> string)
      ensures this.refs == refs && this.commits == commits && this.trees == map[]
      ensures this.pulls == pulls && this.log == []
      ensures this.fails == fails && this.sha1 == sha1 && this.treeId == treeId
      ensures this.commitId == commitId && this.pullUrl == pullUrl
    {
      this.refs := refs;
      this.commits := commits;
      this.trees := map[];
      this.pulls := pulls;
      this.log := [];
      this.fails := fails;
      this.sha1 := sha1;
      this.treeId := treeId;
      this.commitId := commitId;
      this.pullUrl := pullUrl;
    }

    /** The tree of the commit a branch points at, if any. */
    function RefTree(ref: string): Option<Tree>
      reads this`refs, this`commits
    {
      if ref in refs && refs[ref] in commits then Some(commits[refs[ref]]) else None
    }

    /** The file or directory at path on a branch, or nothing. */
    function Lookup(ref: string, path: string): (c: Content)
      reads this`refs, this`commits
    {
      ContentAt(RefTree(ref), path)
    }

    /** `repos.getBranch`: the tip of the branch, `None` for a 404. */
    method GetBranch(name: string) returns (r: Result<Option<string>, string>)
      modifies this`log
      ensures log == old(log) + [Call.GetBranch(name)]
      ensures r.Err? <==> fails(Call.GetBranch(name))
      ensures r.Ok? ==> r.value == if name in refs then Some(refs[name]) else None
    {
      log := log + [Call.GetBranch(name)];
      if fails(Call.GetBranch(name)) {
        return Err("getBranch failed");
      }
      r := Ok(if name in refs then Some(refs[name]) else None);
    }

    /** `repos.getContent`. */
    method GetContent(ref: string, path: string) returns (r: Result<Content, string>)
      modifies this`log
      ensures log == old(log) + [Call.GetContent(ref, path)]
      ensures r.Err? <==> fails(Call.GetContent(ref, path))
      ensures r.Ok? ==> r.value == Lookup(ref, path)
    {
      log := log + [Call.GetContent(ref, path)];
      if fails(Call.GetContent(ref, path)) {
        return Err("getContent failed");
      }
      r := Ok(Lookup(ref, path));
    }

    /** `git.createRef`: a new branch at an existing commit. */
    method CreateRef(name: string, sha: string) returns (r: Result<(), string>)
      modifies this`log, this`refs
      ensures log == old(log) + [Call.CreateRef(name, sha)]
      ensures r.Ok? <==> !fails(Call.CreateRef(name, sha)) && name !in old(refs) && sha in commits
      ensures refs == if r.Ok? then old(refs)[name := sha] else old(refs)
    {
      log := log + [Call.CreateRef(name, sha)];
      if fails(Call.CreateRef(name, sha)) || name in refs || sha !in commits {
        return Err("createRef failed");
      }
      refs := refs[name := sha];
      r := Ok(());
    }

    /** `git.createBlob`: the id Git gives the content. */
    method CreateBlob(content: string) returns (r: Result<string, string>)
      modifies this`log
      ensures log == old(log) + [Call.CreateBlob(content)]
      ensures r.Err? <==> fails(Call.CreateBlob(content))
      ensures r.Ok? ==> r.value == ComputeBlobSha(content, sha1)
    {
      log := log + [Call.CreateBlob(content)];
      if fails(Call.CreateBlob(content)) {
        return Err("createBlob failed");
      }
      r := Ok(ComputeBlobSha(content, sha1));
    }

    /** The tree a `base_tree` id names. */
    function BaseTree(base: string): Option<Tree>
      reads this`commits, this`trees
    {
      BaseTreeIn(commits, trees, base)
    }

    /** `git.createTree` over a base tree. */
    method CreateTree(base: string, items: seq<TreeItem>) returns (r: Result<string, string>)
      modifies this`log, this`trees
      ensures log == old(log) + [Call.CreateTree(base, items)]
      ensures r.Ok? <==> !fails(Call.CreateTree(base, items)) && old(BaseTree(base)).Some?
      ensures r.Ok? ==>
        var t := Overlay(old(BaseTree(base)).value, items, sha1);
        r.value == treeId(t) && trees == old(trees)[r.value := t]
      ensures r.Err? ==> trees == old(trees)
    {
      log := log + [Call.CreateTree(base, items)];
      var b := BaseTree(base);
      if fails(Call.CreateTree(base, items)) || b.None? {
        return Err("createTree failed");
      }
      var t := Overlay(b.value, items, sha1);
      trees := trees[treeId(t) := t];
      r := Ok(treeId(t));
    }

    /** `git.createCommit` with one parent. */
    method CreateCommit(message: string, tree: string, parent: string, author: Author) returns (r: Result<string, string>)
      modifies this`log, this`commits
      ensures log == old(log) + [Call.CreateCommit(message, tree, parent, author)]
      ensures r.Ok? <==> !fails(Call.CreateCommit(message, tree, parent, author)) && tree in trees
      ensures r.Ok? ==> r.value == commitId(message, tree, parent) && commits == old(commits)[r.value := trees[tree]]
      ensures r.Err? ==> commits == old(commits)
    {
      log := log + [Call.CreateCommit(message, tree, parent, author)];
      if fails(Call.CreateCommit(message, tree, parent, author)) || tree !in trees {
        return Err("createCommit failed");
      }
      var id := commitId(message, tree, parent);
      commits := commits[id := trees[tree]];
      r := Ok(id);
    }

    /** `git.updateRef`: moves an existing branch to an existing commit. */
    method UpdateRef(name: string, sha: string) returns (r: Result<(), string>)
      modifies this`log, this`refs
      ensures log == old(log) + [Call.UpdateRef(name, sha)]
      ensures r.Ok? <==> !fails(Call.UpdateRef(name, sha)) && name in old(refs) && sha in commits
      ensures refs == if r.Ok? then old(refs)[name := sha] else old(refs)
    {
      log := log + [Call.UpdateRef(name, sha)];
      if fails(Call.UpdateRef(name, sha)) || name !in refs || sha !in commits {
        return Err("updateRef failed");
      }
      refs := refs[name := sha];
      r := Ok(());
    }

    /** The open pull requests from head into base, oldest first. */
    function OpenPulls(head: string, base: string): (r: seq<Pull>)
      reads this`pulls
    {
      Filtered(pulls, head, base)
    }

    /** `pulls.list({head, base, state: "open"})`. */
    method ListPulls(head: string, base: string) returns (r: Result<seq<Pull>, string>)
      modifies this`log
      ensures log == old(log) + [Call.ListPulls(head, base)]
      ensures r.Err? <==> fails(Call.ListPulls(head, base))
      ensures r.Ok? ==> r.value == OpenPulls(head, base)
    {
      log := log + [Call.ListPulls(head, base)];
      if fails(Call.ListPulls(head, base)) {
        return Err("pulls.list failed");
      }
      r := Ok(OpenPulls(head, base));
    }

    /** `pulls.create` with a title and a body: a new open pull request
        numbered after the others. */
    method CreatePull(head: string, base: string, title: string, body: string) returns (r: Result<Pull, string>)
      modifies this`log, this`pulls
      ensures log == old(log) + [Call.CreatePull(head, base, title, body)]
      ensures r.Ok? <==> !fails(Call.CreatePull(head, base, title, body)) && head in refs
      ensures r.Ok? ==> (r.value == Pull(head, base, pullUrl(|old(pulls)| + 1), |old(pulls)| + 1, "open")
                         && pulls == old(pulls) + [r.value])
      ensures r.Err? ==> pulls == old(pulls)
    {
      log := log + [Call.CreatePull(head, base, title, body)];
      if fails(Call.CreatePull(head, base, title, body)) || head !in refs {
        return Err("pulls.create failed");
      }
      var n := |pulls| + 1;
      var p := Pull(head, base, pullUrl(n), n, "open");
      pulls := pulls + [p];
      r := Ok(p);
    }
  }

  /** The tree a `base_tree` id names: a commit's tree or a tree. */
  function BaseTreeIn(commits: map<string, Tree>, trees: map<string, Tree>, base: string): Option<Tree> {
    if base in commits then Some(commits[base])
    else if base in trees then Some(trees[base])
    else None
  }

  /** The open pulls from head into base, in order. */
  function Filtered(ps: seq<Pull>, head: string, base: string): (r: seq<Pull>)
    ensures forall p :: p in r <==> p in ps && p.head == head && p.base == base && p.state == "open"
  {
    if ps == [] then []
    else
      var rest := Filtered(ps[..|ps| - 1], head, base);
      var p := ps[|ps| - 1];
      assert forall q :: q in ps <==> q in ps[..|ps| - 1] || q == p;
      if p.head == head && p.base == base && p.state == "open" then rest + [p] else rest
  }

  /** Moving a branch twice is moving it to the second tip. */
  lemma MoveTwice(refs: map<string, string>, branch: string, a: string, b: string)
    ensures refs[branch := a][branch := b] == refs[branch := b]
  {
  }

  /** Appending twice is appending the concatenation. */
  lemma AppendAssoc(log: seq<Call>, a: seq<Call>, b: seq<Call>)
    ensures log + a + b == log + (a + b)
  {
  }
}
