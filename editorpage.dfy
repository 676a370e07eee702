/** The shared editor page: the file tree it draws from the flat listing of
    a watched directory, the rules that enable its buttons, and the state it
    keeps for the open file — the text being edited, whether it differs
    from the saved draft, and the conflict-resolution panel used when a
    remote update cannot be merged cleanly.

    The nested tree is represented flat: one `FlatNode` per node in the
    order the nodes are created, each naming the path of its parent (None
    for a top-level node). The children of a node, in order, are the nodes
    that name its path as their parent. */
module EditorPage {
  import opened Wrappers
  import opened Text
  import Sorting
  import Diff3
  import GitHubApi
  import ReleaseNotesEditor

  const Slash := "/"
  const TreeKind := "tree"
  const NewStatus := "new"
  const ModifiedStatus := "modified"

  /** An entry of the listing: its path and its git type (`blob`/`tree`). */
  datatype Item = Item(path: string, kind: string)

  /** A node of the drawn tree: its last segment, its full path, its type
      and the path of the node it hangs under. */
  datatype FlatNode = FlatNode(name: string, path: string, kind: string, parent: Option<string>)

  /** `path.split('/')`. */
  function Segments(path: string): (parts: seq<string>)
    ensures |parts| >= 1
    ensures Join(parts, Slash) == path
  {
    JoinSplit(path, Slash);
    Split(path, Slash)
  }

  /** The listing filtered by the search box: the entries whose lower-cased
      path contains the lower-cased search text, in listing order. */
  function MatchingSearch(tree: seq<Item>, search: string): (r: seq<Item>)
    ensures |r| <= |tree|
    ensures forall it :: it in r <==> it in tree && Shown(it, search)
  {
    if tree == [] then []
    else
      var rest := MatchingSearch(tree[1..], search);
      assert tree == [tree[0]] + tree[1..];
      assert forall it :: it in tree <==> it == tree[0] || it in tree[1..];
      if Shown(tree[0], search) then [tree[0]] + rest else rest
  }

  /** Whether the search box shows an item: its path contains the search
      text, ignoring case. */
  predicate Shown(it: Item, search: string) {
    Contains(ToLower(it.path), ToLower(search))
  }

  /** The filter on a list with a first item: that item when it is shown,
      then the filtered rest. */
  lemma MatchingSearchCons(x: Item, t: seq<Item>, search: string)
    ensures MatchingSearch([x] + t, search) == (if Shown(x, search) then [x] else []) + MatchingSearch(t, search)
  {
    assert ([x] + t)[0] == x && ([x] + t)[1..] == t;
  }

  /** The filter keeps order: filtering a concatenation concatenates the
      filtered parts. */
  lemma {:induction false} MatchingSearchAppend(a: seq<Item>, b: seq<Item>, search: string)
    ensures MatchingSearch(a + b, search) == MatchingSearch(a, search) + MatchingSearch(b, search)
  {
    if a == [] {
      assert a + b == b;
    } else {
      var x, t := a[0], a[1..];
      var h := if Shown(x, search) then [x] else [];
      assert MatchingSearch(a + b, search) == h + MatchingSearch(t + b, search) by {
        assert a + b == [x] + (t + b);
        MatchingSearchCons(x, t + b, search);
      }
      assert MatchingSearch(a, search) == h + MatchingSearch(t, search) by {
        assert a == [x] + t;
        MatchingSearchCons(x, t, search);
      }
      assert MatchingSearch(t + b, search) == MatchingSearch(t, search) + MatchingSearch(b, search) by {
        MatchingSearchAppend(t, b, search);
      }
      var u, v := MatchingSearch(t, search), MatchingSearch(b, search);
      assert h + (u + v) == (h + u) + v;
    }
  }

  /** The filter keeps every shown item as often as the listing holds it,
      and no other. */
  lemma {:induction false} MatchingSearchCounts(tree: seq<Item>, search: string)
    ensures forall it :: multiset(MatchingSearch(tree, search))[it] == if Shown(it, search) then multiset(tree)[it] else 0
  {
    if tree != [] {
      MatchingSearchCounts(tree[1..], search);
      MatchingSearchCons(tree[0], tree[1..], search);
      assert tree == [tree[0]] + tree[1..];
    }
  }


  // ---------------------------------------------------------------------
  // The common prefix

  /** Every path has a segment at position j, equal to the first path's. */
  predicate SharedAt(items: seq<Item>, j: nat)
    requires |items| > 0
  {
    && j < |Segments(items[0].path)|
    && forall it :: it in items ==> j < |Segments(it.path)| && Segments(it.path)[j] == Segments(items[0].path)[j]
  }

  function CommonFrom(items: seq<Item>, j: nat): (c: nat)
    requires |items| > 0 && j < |Segments(items[0].path)|
    ensures j <= c < |Segments(items[0].path)|
    ensures forall k :: j <= k < c ==> SharedAt(items, k)
    ensures c + 1 < |Segments(items[0].path)| ==> !SharedAt(items, c)
    decreases |Segments(items[0].path)| - j
  {
    if j + 1 >= |Segments(items[0].path)| || !SharedAt(items, j) then j
    else
      var c := CommonFrom(items, j + 1);
      assert forall k :: j <= k < c ==> SharedAt(items, k) by {
        forall k | j <= k < c ensures SharedAt(items, k) {
          if k > j {
            assert j + 1 <= k < c;
          }
        }
      }
      c
  }

  /** `commonPartsCount`: how many leading segments all paths share, never
      counting the first path's last segment. It is the largest such count:
      the next segment is not shared, or is the first path's last. */
  function CommonCount(items: seq<Item>): (c: nat)
    requires |items| > 0
    ensures c < |Segments(items[0].path)|
    ensures forall k :: 0 <= k < c ==> SharedAt(items, k)
    ensures c + 1 < |Segments(items[0].path)| ==> !SharedAt(items, c)
    ensures forall it :: it in items ==> c <= |Segments(it.path)|
  {
    var c := CommonFrom(items, 0);
    assert c > 0 ==> SharedAt(items, c - 1);
    c
  }

  /** The loop that counts the common segments, stopping at the first one
      some path does not share. */
  method CommonPartsCount(items: seq<Item>) returns (commonPartsCount: nat)
    requires |items| > 0
    ensures commonPartsCount == CommonCount(items)
  {
    var firstPathParts := Segments(items[0].path);
    commonPartsCount := 0;
    var i := 0;
    while i < |firstPathParts| - 1
      invariant 0 <= i < |firstPathParts|
      invariant commonPartsCount == i
      invariant CommonFrom(items, i) == CommonCount(items)
    {
      var isCommon := SharedAt(items, i);
      if isCommon {
        commonPartsCount := commonPartsCount + 1;
      } else {
        break;
      }
      i := i + 1;
    }
  }

  // ---------------------------------------------------------------------
  // The nodes

  /** The node for the first k segments of a path whose first c segments
      are skipped: named by its last segment, a leaf of the entry's type
      when it is the whole path and a `tree` otherwise, under the node of
      the first k - 1 segments unless it is top-level. */
  function NodeAt(parts: seq<string>, c: nat, k: nat, kind: string): FlatNode
    requires c < k <= |parts|
  {
    FlatNode(parts[k - 1], Join(parts[..k], Slash), if k == |parts| then kind else TreeKind,
             if k == c + 1 then None else Some(Join(parts[..k - 1], Slash)))
  }

  predicate IsNodeOf(n: FlatNode, parts: seq<string>, c: nat, kind: string) {
    exists k :: c < k <= |parts| && n == NodeAt(parts, c, k, kind)
  }

  function PathsOf(nodes: seq<FlatNode>): set<string> {
    set n | n in nodes :: n.path
  }

  /** The paths of the segments c + 1 .. k of a path. */
  function PrefixPaths(parts: seq<string>, c: nat, k: nat): set<string> {
    set j | c < j <= k && j <= |parts| :: Join(parts[..j], Slash)
  }

  predicate UniquePaths(nodes: seq<FlatNode>) {
    forall i, j :: 0 <= i < j < |nodes| ==> nodes[i].path != nodes[j].path
  }

  /** The nodes after visiting segments c + 1 .. k of one path: each is
      added unless a node of that path exists already. */
  function AddUpTo(nodes: seq<FlatNode>, parts: seq<string>, c: nat, kind: string, k: nat): seq<FlatNode>
    requires k <= c || k <= |parts|
    decreases k
  {
    if k <= c then nodes
    else
      var pre := AddUpTo(nodes, parts, c, kind, k - 1);
      var n := NodeAt(parts, c, k, kind);
      if n.path in PathsOf(pre) then pre else pre + [n]
  }

  function AddItem(nodes: seq<FlatNode>, it: Item, c: nat): seq<FlatNode> {
    AddUpTo(nodes, Segments(it.path), c, it.kind, |Segments(it.path)|)
  }

  /** The nodes `buildTree` creates for the sorted entries. */
  function Build(sorted: seq<Item>, c: nat): seq<FlatNode>
    decreases |sorted|
  {
    if sorted == [] then [] else AddItem(Build(sorted[..|sorted| - 1], c), sorted[|sorted| - 1], c)
  }

  function ByPath(localeCompare: (string, string) -> int): (Item, Item) -> int {
    (a: Item, b: Item) => localeCompare(a.path, b.path)
  }

  lemma PathsOfSnoc(nodes: seq<FlatNode>, n: FlatNode)
    ensures PathsOf(nodes + [n]) == PathsOf(nodes) + {n.path}
  {
    assert forall m :: m in nodes + [n] <==> m in nodes || m == n;
  }

  /** The visit of one path only appends, and appends nodes of that path. */
  lemma {:induction false} AddUpToExtends(nodes: seq<FlatNode>, parts: seq<string>, c: nat, kind: string, k: nat)
    requires k <= c || k <= |parts|
    ensures var r := AddUpTo(nodes, parts, c, kind, k);
      && |nodes| <= |r| && r[..|nodes|] == nodes
      && forall i :: |nodes| <= i < |r| ==> IsNodeOf(r[i], parts, c, kind)
    decreases k
  {
    if k > c {
      AddUpToExtends(nodes, parts, c, kind, k - 1);
      var pre := AddUpTo(nodes, parts, c, kind, k - 1);
      var n := NodeAt(parts, c, k, kind);
      assert IsNodeOf(n, parts, c, kind);
      if n.path !in PathsOf(pre) {
        assert (pre + [n])[..|nodes|] == pre[..|nodes|];
      }
    }
  }

  /** After the visit, the nodes' paths are the earlier ones and the paths
      of segments c + 1 .. k. */
  lemma {:induction false} AddUpToPaths(nodes: seq<FlatNode>, parts: seq<string>, c: nat, kind: string, k: nat)
    requires k <= c || k <= |parts|
    ensures PathsOf(AddUpTo(nodes, parts, c, kind, k)) == PathsOf(nodes) + PrefixPaths(parts, c, k)
    decreases k
  {
    if k <= c {
      assert PrefixPaths(parts, c, k) == {};
    } else {
      AddUpToPaths(nodes, parts, c, kind, k - 1);
      var pre := AddUpTo(nodes, parts, c, kind, k - 1);
      var n := NodeAt(parts, c, k, kind);
      assert PrefixPaths(parts, c, k) == PrefixPaths(parts, c, k - 1) + {n.path};
      if n.path !in PathsOf(pre) {
        PathsOfSnoc(pre, n);
      }
    }
  }

  /** The visit never adds a second node with the same path. */
  lemma {:induction false} AddUpToUnique(nodes: seq<FlatNode>, parts: seq<string>, c: nat, kind: string, k: nat)
    requires k <= c || k <= |parts|
    requires UniquePaths(nodes)
    ensures UniquePaths(AddUpTo(nodes, parts, c, kind, k))
    decreases k
  {
    if k > c {
      AddUpToUnique(nodes, parts, c, kind, k - 1);
      var pre := AddUpTo(nodes, parts, c, kind, k - 1);
      var n := NodeAt(parts, c, k, kind);
      if n.path !in PathsOf(pre) {
        forall i | 0 <= i < |pre| ensures pre[i].path != n.path {
          assert pre[i] in pre;
        }
      }
    }
  }

  /** A node's path, and its parent's path, are prefix paths of its
      entry's path. */
  lemma NodeInPrefixes(parts: seq<string>, c: nat, k: nat, kind: string)
    requires c < k <= |parts|
    ensures var n := NodeAt(parts, c, k, kind);
      && n.path in PrefixPaths(parts, c, |parts|)
      && (n.parent.Some? ==> n.parent.value in PrefixPaths(parts, c, |parts|))
  {
    var n := NodeAt(parts, c, k, kind);
    assert n.path == Join(parts[..k], Slash);
    if k > c + 1 {
      assert n.parent.value == Join(parts[..k - 1], Slash);
    }
  }

  /** A node with a parent is that parent's path, "/" and its name; a
      top-level node is the first segment after the common ones. */
  lemma NodeUnderParent(parts: seq<string>, c: nat, k: nat, kind: string)
    requires c < k <= |parts|
    ensures var n := NodeAt(parts, c, k, kind);
      && (n.parent.None? <==> k == c + 1)
      && (n.parent.Some? ==> n.path == n.parent.value + Slash + n.name)
  {
    if k > c + 1 {
      var init := parts[..k - 1];
      var x := parts[k - 1];
      assert parts[..k] == init + [x];
      JoinSnoc(init, x, Slash);
    }
  }

  /** A node that is not a `tree` carries its entry's whole path and type. */
  lemma NodeLeaf(parts: seq<string>, c: nat, k: nat, kind: string)
    requires c < k <= |parts|
    ensures var n := NodeAt(parts, c, k, kind);
      n.kind != TreeKind ==> n.path == Join(parts, Slash) && n.kind == kind
  {
    if k == |parts| {
      assert parts[..k] == parts;
    }
  }

  /** No two nodes share a path. */
  lemma {:induction false} BuildUnique(sorted: seq<Item>, c: nat)
    ensures UniquePaths(Build(sorted, c))
    decreases |sorted|
  {
    if sorted != [] {
      var last := sorted[|sorted| - 1];
      BuildUnique(sorted[..|sorted| - 1], c);
      AddUpToUnique(Build(sorted[..|sorted| - 1], c), Segments(last.path), c, last.kind, |Segments(last.path)|);
    }
  }

  /** Every prefix path of every entry past the common segments has a node. */
  lemma {:induction false} BuildCovers(sorted: seq<Item>, c: nat)
    ensures forall it :: it in sorted ==> PrefixPaths(Segments(it.path), c, |Segments(it.path)|) <= PathsOf(Build(sorted, c))
    decreases |sorted|
  {
    if sorted != [] {
      var init := sorted[..|sorted| - 1];
      var last := sorted[|sorted| - 1];
      BuildCovers(init, c);
      AddUpToPaths(Build(init, c), Segments(last.path), c, last.kind, |Segments(last.path)|);
      assert forall it :: it in sorted ==> it in init || it == last;
    }
  }

  /** Every node is the node of some entry's prefix. */
  lemma {:induction false} BuildFrom(sorted: seq<Item>, c: nat)
    ensures forall i :: 0 <= i < |Build(sorted, c)| ==>
      exists it :: it in sorted && IsNodeOf(Build(sorted, c)[i], Segments(it.path), c, it.kind)
    decreases |sorted|
  {
    if sorted != [] {
      var init := sorted[..|sorted| - 1];
      var last := sorted[|sorted| - 1];
      var pre := Build(init, c);
      var r := Build(sorted, c);
      BuildFrom(init, c);
      assert r == AddUpTo(pre, Segments(last.path), c, last.kind, |Segments(last.path)|);
      AddUpToExtends(pre, Segments(last.path), c, last.kind, |Segments(last.path)|);
      forall i | 0 <= i < |r| ensures exists it :: it in sorted && IsNodeOf(r[i], Segments(it.path), c, it.kind) {
        if i < |pre| {
          assert r[i] == pre[i];
          assert exists it :: it in init && IsNodeOf(pre[i], Segments(it.path), c, it.kind);
          var it :| it in init && IsNodeOf(pre[i], Segments(it.path), c, it.kind);
          assert it in sorted;
        } else {
          assert last in sorted;
        }
      }
    } else {
      assert Build(sorted, c) == [];
    }
  }

  /** The nodes `buildTree` returns for a non-empty listing. */
  function Tree(items: seq<Item>, localeCompare: (string, string) -> int): seq<FlatNode>
    requires |items| > 0
  {
    Build(Sorting.Sort(items, ByPath(localeCompare)), CommonCount(items))
  }

  lemma SortKeepsEntries(items: seq<Item>, localeCompare: (string, string) -> int)
    ensures forall it :: it in Sorting.Sort(items, ByPath(localeCompare)) <==> it in items
  {
    var sorted := Sorting.Sort(items, ByPath(localeCompare));
    assert multiset(sorted) == multiset(items);
    forall it ensures it in sorted <==> it in items {
      assert it in sorted <==> it in multiset(sorted);
    }
  }

  /** No two nodes of the drawn tree share a path, and every entry longer
      than the common prefix appears with its whole path. */
  lemma TreeCoversEntries(items: seq<Item>, localeCompare: (string, string) -> int)
    requires |items| > 0
    ensures UniquePaths(Tree(items, localeCompare))
    ensures forall it :: it in items && CommonCount(items) < |Segments(it.path)| ==>
      it.path in PathsOf(Tree(items, localeCompare))
  {
    var c := CommonCount(items);
    var sorted := Sorting.Sort(items, ByPath(localeCompare));
    SortKeepsEntries(items, localeCompare);
    BuildUnique(sorted, c);
    BuildCovers(sorted, c);
    forall it | it in items && c < |Segments(it.path)| ensures it.path in PathsOf(Build(sorted, c)) {
      var parts := Segments(it.path);
      assert parts[..|parts|] == parts;
      assert Join(parts[..|parts|], Slash) in PrefixPaths(parts, c, |parts|);
    }
  }

  /** Every parent in the drawn tree is one of its nodes, and a child's
      path is its parent's path, "/" and its name. */
  lemma TreeParents(items: seq<Item>, localeCompare: (string, string) -> int)
    requires |items| > 0
    ensures var r := Tree(items, localeCompare);
      forall i :: 0 <= i < |r| && r[i].parent.Some? ==>
        r[i].parent.value in PathsOf(r) && r[i].path == r[i].parent.value + Slash + r[i].name
  {
    var c := CommonCount(items);
    var sorted := Sorting.Sort(items, ByPath(localeCompare));
    var r := Build(sorted, c);
    BuildCovers(sorted, c);
    BuildFrom(sorted, c);
    forall i | 0 <= i < |r| && r[i].parent.Some?
      ensures r[i].parent.value in PathsOf(r) && r[i].path == r[i].parent.value + Slash + r[i].name
    {
      var it :| it in sorted && IsNodeOf(r[i], Segments(it.path), c, it.kind);
      var k :| c < k <= |Segments(it.path)| && r[i] == NodeAt(Segments(it.path), c, k, it.kind);
      NodeInPrefixes(Segments(it.path), c, k, it.kind);
      NodeUnderParent(Segments(it.path), c, k, it.kind);
    }
  }

  /** Every node of the drawn tree is a prefix path of some entry past the
      common segments, and a node that is not a `tree` is an entry of the
      listing, with its path and type. */
  lemma TreeOrigins(items: seq<Item>, localeCompare: (string, string) -> int)
    requires |items| > 0
    ensures var r := Tree(items, localeCompare);
      forall i :: 0 <= i < |r| ==>
        exists it :: it in items && r[i].path in PrefixPaths(Segments(it.path), CommonCount(items), |Segments(it.path)|)
    ensures var r := Tree(items, localeCompare);
      forall i :: 0 <= i < |r| && r[i].kind != TreeKind ==>
        exists it :: it in items && it.path == r[i].path && it.kind == r[i].kind
  {
    var c := CommonCount(items);
    var sorted := Sorting.Sort(items, ByPath(localeCompare));
    var r := Build(sorted, c);
    SortKeepsEntries(items, localeCompare);
    BuildFrom(sorted, c);
    forall i | 0 <= i < |r|
      ensures exists it :: it in items && r[i].path in PrefixPaths(Segments(it.path), c, |Segments(it.path)|)
      ensures r[i].kind != TreeKind ==> exists it :: it in items && it.path == r[i].path && it.kind == r[i].kind
    {
      var it :| it in sorted && IsNodeOf(r[i], Segments(it.path), c, it.kind);
      var k :| c < k <= |Segments(it.path)| && r[i] == NodeAt(Segments(it.path), c, k, it.kind);
      NodeInPrefixes(Segments(it.path), c, k, it.kind);
      NodeLeaf(Segments(it.path), c, k, it.kind);
    }
  }

  /** One entry's visit: `relativeParts.forEach`, walking down from the top
      level and adding the node of each prefix path not yet in the map. */
  method AddItemNodes(root: seq<FlatNode>, seen: set<string>, item: Item, c: nat)
    returns (nodes: seq<FlatNode>, known: set<string>)
    requires seen == PathsOf(root)
    ensures nodes == AddItem(root, item, c) && known == PathsOf(nodes)
  {
    var parts := Segments(item.path);
    var relativeParts := if c <= |parts| then parts[c..] else [];
    nodes, known := root, seen;
    var currentParent: Option<string> := None;
    var index := 0;
    while index < |relativeParts|
      invariant 0 <= index <= |relativeParts|
      invariant index > 0 ==> c + index <= |parts|
      invariant nodes == AddUpTo(root, parts, c, item.kind, c + index)
      invariant known == PathsOf(nodes)
      invariant currentParent == if index == 0 then None else Some(Join(parts[..c + index], Slash))
    {
      var part := relativeParts[index];
      var fullPath := Join(parts[..c + index + 1], Slash);
      var isLast := index == |relativeParts| - 1;
      if fullPath !in known {
        var newNode := FlatNode(part, fullPath, if isLast then item.kind else TreeKind, currentParent);
        assert newNode == NodeAt(parts, c, c + index + 1, item.kind);
        PathsOfSnoc(nodes, newNode);
        nodes := nodes + [newNode];
        known := known + {fullPath};
      }
      currentParent := Some(fullPath);
      index := index + 1;
    }
  }

  /** `buildTree`: no nodes for an empty listing; otherwise the entries
      sorted by path and visited in that order, skipping the common
      segments. */
  method BuildTree(items: seq<Item>, localeCompare: (string, string) -> int) returns (root: seq<FlatNode>)
    ensures items == [] ==> root == []
    ensures items != [] ==> root == Tree(items, localeCompare)
  {
    if |items| == 0 {
      return [];
    }
    var commonPartsCount := CommonPartsCount(items);
    var sortedItems := Sorting.Sort(items, ByPath(localeCompare));
    root := [];
    var seen: set<string> := {};
    var j := 0;
    while j < |sortedItems|
      invariant 0 <= j <= |sortedItems|
      invariant root == Build(sortedItems[..j], commonPartsCount)
      invariant seen == PathsOf(root)
    {
      assert sortedItems[..j + 1][..j] == sortedItems[..j];
      root, seen := AddItemNodes(root, seen, sortedItems[j], commonPartsCount);
      j := j + 1;
    }
    assert sortedItems[..j] == sortedItems;
  }

  // ---------------------------------------------------------------------
  // Buttons and the open file

  /** `canPublish`: a file is selected and its draft is new or modified. */
  predicate CanPublish(selectedPath: Option<string>, status: Option<string>)
    ensures CanPublish(selectedPath, status) ==> selectedPath.Some? && selectedPath.value != "" && status.Some?
    ensures status == Some("published") || status.None? ==> !CanPublish(selectedPath, status)
    ensures selectedPath.Some? && selectedPath.value != "" && (status == Some("new") || status == Some("modified")) ==>
      CanPublish(selectedPath, status)
  {
    GitHubApi.Truthy(selectedPath) && (status == Some(NewStatus) || status == Some(ModifiedStatus))
  }

  /** The Publish button is enabled. */
  predicate PublishEnabled(selectedPath: Option<string>, status: Option<string>, isLoading: bool) {
    CanPublish(selectedPath, status) && !isLoading
  }

  /** The Save Draft button is enabled: a file is selected, nothing is
      loading, there are unsaved edits and no remote update waits to be
      merged. */
  predicate SaveEnabled(selectedPath: Option<string>, isLoading: bool, isDirty: bool, incomingUpdate: Option<string>) {
    GitHubApi.Truthy(selectedPath) && !isLoading && isDirty && !GitHubApi.Truthy(incomingUpdate)
  }

  /** While a remote update waits to be merged, Save Draft is disabled but
      Publish can be enabled; the release-notes publish handler then sends
      nothing and leaves the state as it was. */
  lemma PendingUpdateGatesButtons(v: ReleaseNotesEditor.EditorView, isLoading: bool, isDirty: bool)
    requires GitHubApi.Truthy(v.incomingUpdate) && !isLoading
    ensures !SaveEnabled(v.selectedPath, isLoading, isDirty, v.incomingUpdate)
    ensures PublishEnabled(v.selectedPath, v.status, isLoading) <==> CanPublish(v.selectedPath, v.status)
    ensures ReleaseNotesEditor.AfterStartPublish(v) == v
  {
  }

  /** `docsflowContent ?? githubContent ?? ""`: the text the editor diffs
      against. */
  function BaseContent(docsflowContent: Option<string>, githubContent: Option<string>): (b: string)
    ensures docsflowContent.Some? ==> b == docsflowContent.value
    ensures docsflowContent.None? && githubContent.Some? ==> b == githubContent.value
    ensures docsflowContent.None? && githubContent.None? ==> b == ""
  {
    if docsflowContent.Some? then docsflowContent.value else githubContent.GetOr("")
  }

  /** What `performMerge` answers for three texts. */
  function Merged(yours: string, base: string, theirs: string, diff3Merge: Diff3.Merge3): Diff3.MergeResult {
    var chunks := diff3Merge(Split(yours, "\n"), Split(base, "\n"), Split(theirs, "\n"));
    Diff3.MergeResult(!Diff3.HasConflict(chunks), Join(Diff3.Parts(chunks), "\n"))
  }

  /** The page's state for the open file: the text in the editor
      (`currentContentRef`), whether it has unsaved edits, and the
      conflict panel with its baseline and the text being resolved. A
      call of `resolveIncomingUpdate` is returned to the caller as the
      pair of its arguments. */
  class EditorSession {
    var current: string
    var isDirty: bool
    var resolveModalOpen: bool
    var conflictResolved: string
    var conflictBaseline: string

    constructor (content: string)
      ensures current == content && !isDirty
      ensures !resolveModalOpen && conflictResolved == "" && conflictBaseline == ""
    {
      current := content;
      isDirty := false;
      resolveModalOpen := false;
      conflictResolved := "";
      conflictBaseline := "";
    }

    /** The effect run when the shown content or the selected path
        changes: the editor holds the new content, with no unsaved edits. */
    method Reset(content: string)
      modifies this
      ensures current == content && !isDirty
      ensures resolveModalOpen == old(resolveModalOpen)
      ensures conflictResolved == old(conflictResolved) && conflictBaseline == old(conflictBaseline)
    {
      current := content;
      isDirty := false;
    }

    /** `markDirty`: an edit in the editor. */
    method MarkDirty(nextValue: string)
      modifies this
      ensures current == nextValue && isDirty
      ensures resolveModalOpen == old(resolveModalOpen)
      ensures conflictResolved == old(conflictResolved) && conflictBaseline == old(conflictBaseline)
    {
      current := nextValue;
      isDirty := true;
    }

    /** `handleSave`: the editor's text is sent; the edits count as saved
        only when the save succeeded. */
    method HandleSave(succeeded: bool) returns (contentToSave: string)
      modifies this
      ensures contentToSave == old(current) && current == old(current)
      ensures isDirty == (old(isDirty) && !succeeded)
      ensures resolveModalOpen == old(resolveModalOpen)
      ensures conflictResolved == old(conflictResolved) && conflictBaseline == old(conflictBaseline)
    {
      contentToSave := current;
      if succeeded {
        isDirty := false;
      }
    }

    /** `handleMergeIncoming`: nothing without a remote update. Otherwise
        the editor's text is merged with the update against the saved
        draft. A clean merge replaces the text, marks it unsaved and
        resolves the update with the merged text; a conflicting merge
        leaves the text alone and opens the conflict panel on the editor's
        text, with the merged text as baseline. */
    method MergeIncoming(incomingUpdate: Option<string>, docsflowContent: Option<string>, diff3Merge: Diff3.Merge3)
      returns (resolution: Option<(string, string)>)
      modifies this
      ensures !GitHubApi.Truthy(incomingUpdate) ==>
        resolution.None? && current == old(current) && isDirty == old(isDirty) && resolveModalOpen == old(resolveModalOpen)
        && conflictResolved == old(conflictResolved) && conflictBaseline == old(conflictBaseline)
      ensures GitHubApi.Truthy(incomingUpdate) ==>
        var m := Merged(old(current), docsflowContent.GetOr(""), incomingUpdate.value, diff3Merge);
        && (m.isClean ==>
              && current == m.mergedText && isDirty
              && resolution == Some((incomingUpdate.value, m.mergedText))
              && resolveModalOpen == old(resolveModalOpen)
              && conflictResolved == old(conflictResolved) && conflictBaseline == old(conflictBaseline))
        && (!m.isClean ==>
              && current == old(current) && isDirty == old(isDirty)
              && resolution.None?
              && resolveModalOpen && conflictResolved == old(current) && conflictBaseline == m.mergedText)
    {
      if !GitHubApi.Truthy(incomingUpdate) {
        return None;
      }
      var base := docsflowContent.GetOr("");
      var merge := Diff3.PerformMerge(current, base, incomingUpdate.value, diff3Merge);
      if merge.isClean {
        current := merge.mergedText;
        isDirty := true;
        resolution := Some((incomingUpdate.value, merge.mergedText));
      } else {
        conflictBaseline := merge.mergedText;
        conflictResolved := current;
        resolveModalOpen := true;
        resolution := None;
      }
    }

    /** The conflict panel's editor changes the text being resolved. */
    method SetConflictResolved(text: string)
      modifies this
      ensures conflictResolved == text
      ensures current == old(current) && isDirty == old(isDirty) && resolveModalOpen == old(resolveModalOpen)
      ensures conflictBaseline == old(conflictBaseline)
    {
      conflictResolved := text;
    }

    /** The conflict panel is opened or closed from outside (its Cancel
        button, or the sheet's own close). */
    method SetResolveModalOpen(open: bool)
      modifies this
      ensures resolveModalOpen == open
      ensures current == old(current) && isDirty == old(isDirty)
      ensures conflictResolved == old(conflictResolved) && conflictBaseline == old(conflictBaseline)
    {
      resolveModalOpen := open;
    }

    /** `handleFinishResolve`: with a resolver and a remote update, the
        resolved text replaces the editor's, is marked unsaved and resolves
        the update; the panel closes in every case. */
    method FinishResolve(incomingUpdate: Option<string>, hasResolver: bool)
      returns (resolution: Option<(string, string)>)
      modifies this
      ensures !resolveModalOpen
      ensures hasResolver && GitHubApi.Truthy(incomingUpdate) ==>
        current == old(conflictResolved) && isDirty && resolution == Some((incomingUpdate.value, old(conflictResolved)))
      ensures !(hasResolver && GitHubApi.Truthy(incomingUpdate)) ==>
        current == old(current) && isDirty == old(isDirty) && resolution.None?
      ensures conflictResolved == old(conflictResolved) && conflictBaseline == old(conflictBaseline)
    {
      resolution := None;
      if hasResolver && GitHubApi.Truthy(incomingUpdate) {
        current := conflictResolved;
        isDirty := true;
        resolution := Some((incomingUpdate.value, conflictResolved));
      }
      resolveModalOpen := false;
    }
  }
}
