/** Reconciliation of the `PublishBranch` records with the repository's
    branches: records whose branch is gone are marked stale, live ones are
    refreshed from the branch's tree and open pull request, and every
    "docsflow" branch nobody tracks gets a record. */
module BranchSync {
  import opened Wrappers
  import opened Text
  import opened Remote
  import opened PublishStore
  import Config
  import Publish

  const Prefix := "docsflow"
  const PrefixDash := "docsflow-"
  const TechBranch := "docsflow-publish-"
  const Marker := "-publish-"

  /** The name with a leading "docsflow-" removed. */
  function Rest(name: string): (r: string)
    ensures StartsWith(name, PrefixDash) ==> name == PrefixDash + r
  {
    if StartsWith(name, PrefixDash) then name[9..] else name
  }

  /** `inferEntityFromBranch`: the entity a publish branch was cut for. */
  function InferEntityFromBranch(name: string): (r: Option<string>)
    ensures !StartsWith(name, Prefix) ==> r.None?
    ensures StartsWith(name, TechBranch) ==> r == Some("tech-stack")
    ensures r.Some? ==> r.value != ""
  {
    if !StartsWith(name, Prefix) then None
    else if StartsWith(name, TechBranch) then Some("tech-stack")
    else
      var idx := IndexOf(Rest(name), Marker);
      if idx > 0 then Some(Rest(name)[..idx]) else None
  }

  /** Any other name yields the text before its first "-publish-", when
      that text is not empty, and nothing otherwise. */
  lemma InferOther(name: string)
    requires StartsWith(name, "docsflow") && !StartsWith(name, "docsflow-publish-")
    ensures var r := InferEntityFromBranch(name);
      && (r.Some? <==> (exists j :: 0 < j && OccursAt(Rest(name), "-publish-", j)) && !OccursAt(Rest(name), "-publish-", 0))
      && (r.Some? ==> && OccursAt(Rest(name), "-publish-", |r.value|)
                      && Rest(name)[..|r.value|] == r.value
                      && forall j :: 0 <= j < |r.value| ==> !OccursAt(Rest(name), "-publish-", j))
  {
    var idx := IndexOf(Rest(name), "-publish-");
    if exists j :: 0 < j && OccursAt(Rest(name), "-publish-", j) {
      var j :| 0 < j && OccursAt(Rest(name), "-publish-", j);
      assert j <= |Rest(name)|;
    }
  }

  /** A name "docsflow-" + tail whose tail starts with e followed by the
      first "-publish-", and not with "publish-", reads back as e. */
  lemma InferTail(e: string, tail: string)
    requires e != "" && |e| <= |tail| && tail[..|e|] == e
    requires IndexOf(tail, Marker) == |e|
    requires !StartsWith(tail, "publish-")
    ensures InferEntityFromBranch(PrefixDash + tail) == Some(e)
  {
    var name := PrefixDash + tail;
    assert name[..|PrefixDash|] == PrefixDash;
    assert name[..|Prefix|] == PrefixDash[..|Prefix|] == Prefix;
    assert name[|PrefixDash|..] == tail;
    TechBranchTail(tail);
  }

  /** A name reads as a tech-stack branch only if its tail after
      "docsflow-" starts with "publish-". */
  lemma TechBranchTail(tail: string)
    ensures StartsWith(PrefixDash + tail, TechBranch) ==> StartsWith(tail, "publish-")
  {
    var name := PrefixDash + tail;
    if StartsWith(name, TechBranch) {
      assert tail[..8] == name[9..17] == TechBranch[9..17];
    }
  }

  /** The entity of a branch the publish engine names is read back from the
      name, when the entity neither contains "-publish-" nor makes the
      name look like a tech-stack branch. */
  lemma InferRoundTrip(e: string, t: nat)
    requires e != ""
    requires IndexOf(e + Marker, Marker) == |e|
    requires !StartsWith(e + Marker, "publish-")
    ensures InferEntityFromBranch(Publish.NewBranchName(e, t)) == Some(e)
  {
    var tail := e + Marker + NatToString(t);
    NameSplits(e, t);
    TailFacts(e, NatToString(t));
    InferTail(e, tail);
  }

  lemma NameSplits(e: string, t: nat)
    ensures Publish.NewBranchName(e, t) == PrefixDash + (e + Marker + NatToString(t))
  {
    assert Publish.NewBranchName(e, t) == PrefixDash + e + Marker + NatToString(t);
    Regroup(PrefixDash, e, Marker, NatToString(t));
  }

  lemma TailFacts(e: string, n: string)
    requires IndexOf(e + Marker, Marker) == |e|
    requires !StartsWith(e + Marker, "publish-")
    ensures var tail := e + Marker + n;
      |e| <= |tail| && tail[..|e|] == e && IndexOf(tail, Marker) == |e| && !StartsWith(tail, "publish-")
  {
    var head := e + Marker;
    var tail := head + n;
    IndexOfAppend(head, n, Marker);
    assert tail[..|e|] == head[..|e|] == e;
    assert tail[..8] == head[..8];
  }

  lemma Regroup(a: string, b: string, c: string, d: string)
    ensures a + b + c + d == a + (b + c + d)
  {
  }

  /** The exception the round trip needs: the entity "publish" gives a name
      that reads as a tech-stack branch. */
  lemma PublishEntityReadsAsTechStack(t: nat)
    ensures InferEntityFromBranch(Publish.NewBranchName("publish", t)) == Some("tech-stack")
  {
    var name := Publish.NewBranchName("publish", t);
    assert name[..17] == "docsflow-publish-";
  }

  /** `entityPathMap`: where an entity's files live. */
  function PathPrefix(entity: string): Option<string> {
    if entity == "release-notes" then Some(Config.ReleaseNotesPath)
    else if entity == "tech-stack" then Some(Config.TechStackPath)
    else None
  }

  /** A record's entity: the stored one, else the inferred one, else
      "unknown". */
  function EntityFor(stored: string, branch: string): (e: string)
    ensures e != ""
    ensures stored != "" ==> e == stored
    ensures stored == "" && InferEntityFromBranch(branch).None? ==> e == "unknown"
  {
    if stored != "" then stored else InferEntityFromBranch(branch).GetOr("unknown")
  }

  /** The tree entries recorded as published files: blobs with a path,
      under the entity's prefix when it has one. */
  predicate Kept(e: TreeEntry, prefix: Option<string>) {
    e.kind == Blob && e.path != "" && (prefix.Some? ==> StartsWith(e.path, prefix.value))
  }

  function BranchFiles(tree: Tree, prefix: Option<string>, now: int): (r: seq<FileRecord>)
    ensures |r| <= |tree|
  {
    if tree == [] then []
    else
      var r := BranchFiles(tree[..|tree| - 1], prefix, now);
      var e := tree[|tree| - 1];
      if Kept(e, prefix) then r + [FileRecord(e.path, e.sha, Some(now))] else r
  }

  /** The files recorded are exactly the kept entries of the tree, each
      stamped with the run's time. */
  lemma {:induction false} BranchFilesMembers(tree: Tree, prefix: Option<string>, now: int)
    ensures forall f :: f in BranchFiles(tree, prefix, now) <==> exists e :: e in tree && Kept(e, prefix) && f == FileRecord(e.path, e.sha, Some(now))
  {
    if tree != [] {
      var init := tree[..|tree| - 1];
      BranchFilesMembers(init, prefix, now);
      assert forall x :: x in tree <==> x in init || x == tree[|tree| - 1];
    }
  }

  /** The first open pull request, if any. */
  function PrOf(open: seq<Pull>): (r: Option<PrInfo>)
    ensures r.Some? <==> open != []
    ensures r.Some? ==> r.value.url == open[0].url && r.value.number == open[0].number
  {
    if open == [] then None else Some(PrInfo(open[0].url, open[0].number, open[0].state))
  }

  /** What the repository answers: its branch list, and each branch's
      recursive tree and open pull requests into the base branch. */
  datatype RemoteView = RemoteView(
    branches: seq<string>,
    treeOf: string -> Result<Tree, string>,
    pullsOf: string -> Result<seq<Pull>, string>)

  predicate Reachable(view: RemoteView, b: string) {
    view.treeOf(b).Ok? && view.pullsOf(b).Ok?
  }

  predicate Tracked(r: BranchRecord) {
    StartsWith(r.branch, "docsflow")
  }

  /** The names of the "docsflow" branches. */
  function Live(view: RemoteView): (s: set<string>)
    ensures forall b :: b in s <==> b in view.branches && StartsWith(b, "docsflow")
  {
    set b | b in view.branches && StartsWith(b, "docsflow")
  }

  /** The branches records track. */
  function TrackedBranches(rs: seq<BranchRecord>): (s: set<string>)
    ensures forall b :: b in s <==> exists r :: r in rs && Tracked(r) && r.branch == b
  {
    set r | r in rs && Tracked(r) :: r.branch
  }

  /** The "docsflow" branches no record tracks, in list order. */
  function Untracked(names: seq<string>, tracked: set<string>): (u: seq<string>)
    ensures forall b :: b in u <==> b in names && StartsWith(b, "docsflow") && b !in tracked
  {
    if names == [] then []
    else
      var u := Untracked(names[..|names| - 1], tracked);
      var b := names[|names| - 1];
      assert forall x :: x in names <==> x in names[..|names| - 1] || x == b;
      if StartsWith(b, "docsflow") && b !in tracked then u + [b] else u
  }

  /** A record refreshed from its branch. */
  function Refreshed(r: BranchRecord, entity: string, view: RemoteView, now: int): (s: BranchRecord)
    requires Reachable(view, r.branch)
    ensures s.id == r.id && s.branch == r.branch && s.entity == entity && s.status == "open"
    ensures s.files == BranchFiles(view.treeOf(r.branch).value, PathPrefix(entity), now)
    ensures s.pr == PrOf(view.pullsOf(r.branch).value) && s.lastUsedAt == Some(now) && s.updatedAt == now
  {
    r.(entity := entity, base := Config.Branch, files := BranchFiles(view.treeOf(r.branch).value, PathPrefix(entity), now),
       pr := PrOf(view.pullsOf(r.branch).value), status := "open", lastUsedAt := Some(now), updatedAt := now)
  }

  /** What the first loop makes of a record: untracked ones are left alone,
      tracked ones whose branch is gone are marked stale, the others are
      refreshed. */
  function Synced(r: BranchRecord, live: set<string>, view: RemoteView, now: int): (s: BranchRecord)
    requires Tracked(r) && r.branch in live ==> Reachable(view, r.branch)
    ensures !Tracked(r) ==> s == r
    ensures Tracked(r) && r.branch !in live ==> StaleOrSame(r, s) && s.status == "stale"
    ensures Tracked(r) && r.branch in live ==> s == Refreshed(r, EntityFor(r.entity, r.branch), view, now)
    ensures s.id == r.id && s.branch == r.branch
  {
    if !Tracked(r) then r
    else if r.branch !in live then MarkStale(r).(updatedAt := now)
    else Refreshed(r, EntityFor(r.entity, r.branch), view, now)
  }

  /** The record `create` inserts for an untracked branch. */
  function NewBare(name: string, entity: string, id: nat, now: int): (s: BranchRecord)
    ensures s.id == id && s.branch == name && s.entity == entity && s.status == "open" && s.files == [] && s.pr.None?
  {
    BranchRecord(id, entity, name, Config.Branch, [], None, "open", Some(now), now)
  }

  /** The store's create stamps the id and the time onto the record. */
  lemma StampedBare(name: string, entity: string, id: nat, now: int)
    ensures NewBare(name, entity, 0, now).(id := id, updatedAt := now) == NewBare(name, entity, id, now)
  {
  }

  /** That record after the third loop's refresh. */
  function NewRecord(name: string, entity: string, id: nat, view: RemoteView, now: int): (s: BranchRecord)
    requires Reachable(view, name)
    ensures s.id == id && s.branch == name && s.entity == entity && s.status == "open"
  {
    Refreshed(NewBare(name, entity, id, now), entity, view, now)
  }

  /** es lists the entities inferred for the names of u. Each equation is
      only used where the inference of that name is already at hand. */
  predicate EntitiesOf(u: seq<string>, es: seq<string>) {
    |es| == |u| && forall m {:trigger EntityFor("", u[m])} :: 0 <= m < |u| ==> es[m] == EntityFor("", u[m])
  }

  /** Every branch the run fetches answers: those of live tracked records
      and the untracked ones. */
  predicate AllReachable(rs: seq<BranchRecord>, view: RemoteView) {
    && (forall i :: 0 <= i < |rs| && Tracked(rs[i]) && rs[i].branch in Live(view) ==> Reachable(view, rs[i].branch))
    && var u := Untracked(view.branches, TrackedBranches(rs));
       forall j :: 0 <= j < |u| ==> Reachable(view, u[j])
  }

  predicate DistinctNames(names: seq<string>) {
    forall i, j :: 0 <= i < j < |names| ==> names[i] != names[j]
  }

  /** The first loop. */
  method MarkAndRefresh(store: BranchStore, view: RemoteView, live: set<string>, now: int) returns (r: Result<(), string>)
    requires store.Valid()
    modifies store`records
    ensures store.Valid()
    ensures r.Err? <==> exists i :: 0 <= i < |old(store.records)| && Tracked(old(store.records)[i])
                                     && old(store.records)[i].branch in live && !Reachable(view, old(store.records)[i].branch)
    ensures r.Ok? ==> |store.records| == |old(store.records)|
    ensures r.Ok? ==> forall j :: 0 <= j < |old(store.records)| ==> store.records[j] == Synced(old(store.records)[j], live, view, now)
  {
    ghost var r0 := store.records;
    for i := 0 to |store.records|
      invariant store.Valid()
      invariant |store.records| == |r0|
      invariant forall j :: 0 <= j < i ==> Tracked(r0[j]) && r0[j].branch in live ==> Reachable(view, r0[j].branch)
      invariant forall j :: 0 <= j < i ==> store.records[j] == Synced(r0[j], live, view, now)
      invariant forall j :: i <= j < |r0| ==> store.records[j] == r0[j]
    {
      var record := store.records[i];
      if Tracked(record) {
        if record.branch !in live {
          store.SetStale(record.id, now);
        } else {
          var entity := EntityFor(record.entity, record.branch);
          var tree := view.treeOf(record.branch);
          if tree.Err? {
            return Err(tree.error);
          }
          var open := view.pullsOf(record.branch);
          if open.Err? {
            return Err(open.error);
          }
          var files := BranchFiles(tree.value, PathPrefix(entity), now);
          var pr := PrOf(open.value);
          store.Update(record.id, (x: BranchRecord) => x.(entity := entity, base := Config.Branch, files := files, pr := pr,
                                                          status := "open", lastUsedAt := Some(now)), now);
        }
      }
      assert forall j :: 0 <= j < |r0| && j != i ==> r0[j].id != r0[i].id;
    }
    r := Ok(());
  }

  /** The second loop: one new record per untracked branch, under
      consecutive ids. */
  method CreateAll(store: BranchStore, u: seq<string>, now: int, ghost es: seq<string>, ghost r1: seq<BranchRecord>, ghost id0: nat)
    requires store.Valid() && EntitiesOf(u, es)
    requires store.records == r1 && store.nextId == id0
    modifies store
    ensures store.Valid()
    ensures store.nextId == id0 + |u|
    ensures |store.records| == |r1| + |u|
    ensures forall m :: 0 <= m < |r1| ==> store.records[m] == r1[m]
    ensures forall m :: 0 <= m < |u| ==> store.records[|r1| + m] == NewBare(u[m], es[m], id0 + m, now)
  {
    for j := 0 to |u|
      invariant store.Valid()
      invariant store.nextId == id0 + j
      invariant CreatedBefore(store.records, r1, u, es, id0, now, j)
    {
      ghost var before := store.records;
      var entity := EntityFor("", u[j]);
      assert entity == es[j];
      var id := store.Create(NewBare(u[j], entity, 0, now), now);
      StampedBare(u[j], es[j], id0 + j, now);
      CreateStep(before, r1, u, es, id0, now, j);
    }
  }

  /** The second loop's records before the j-th name: the old records,
      then one created record per name before j. */
  predicate CreatedBefore(rs: seq<BranchRecord>, r1: seq<BranchRecord>, u: seq<string>, es: seq<string>, id0: nat, now: int, j: nat) {
    && j <= |u| == |es| && |rs| == |r1| + j
    && (forall m :: 0 <= m < |r1| ==> rs[m] == r1[m])
    && (forall m :: 0 <= m < j ==> rs[|r1| + m] == NewBare(u[m], es[m], id0 + m, now))
  }

  /** The second loop's invariant is kept by one create. */
  lemma CreateStep(pre: seq<BranchRecord>, r1: seq<BranchRecord>, u: seq<string>, es: seq<string>, id0: nat, now: int, j: nat)
    requires j < |u| && CreatedBefore(pre, r1, u, es, id0, now, j)
    ensures CreatedBefore(pre + [NewBare(u[j], es[j], id0 + j, now)], r1, u, es, id0, now, j + 1)
  {
    var post := pre + [NewBare(u[j], es[j], id0 + j, now)];
    forall m | 0 <= m < |r1| ensures post[m] == r1[m] {
      assert post[m] == pre[m];
    }
    forall m | 0 <= m < j ensures post[|r1| + m] == NewBare(u[m], es[m], id0 + m, now) {
      assert post[|r1| + m] == pre[|r1| + m];
    }
  }

  /** The third loop: each untracked branch's new record is refreshed
      through an upsert on its branch name. */
  method RefreshAll(store: BranchStore, u: seq<string>, view: RemoteView, now: int, ghost es: seq<string>, ghost r1: seq<BranchRecord>, ghost id0: nat)
    returns (r: Result<(), string>)
    requires store.Valid() && DistinctNames(u) && EntitiesOf(u, es)
    requires |store.records| == |r1| + |u|
    requires forall m :: 0 <= m < |r1| ==> store.records[m] == r1[m]
    requires forall m :: 0 <= m < |u| ==> store.records[|r1| + m] == NewBare(u[m], es[m], id0 + m, now)
    requires forall m :: 0 <= m < |r1| ==> r1[m].branch !in u
    modifies store
    ensures store.Valid()
    ensures r.Err? <==> exists j :: 0 <= j < |u| && !Reachable(view, u[j])
    ensures r.Ok? ==> |store.records| == |r1| + |u| && forall m :: 0 <= m < |r1| ==> store.records[m] == r1[m]
    ensures r.Ok? ==> forall j :: 0 <= j < |u| ==> Reachable(view, u[j]) && store.records[|r1| + j] == NewRecord(u[j], es[j], id0 + j, view, now)
  {
    for j := 0 to |u|
      invariant store.Valid()
      invariant RefreshedBefore(store.records, r1, u, es, id0, view, now, j)
    {
      EarlierBranches(store.records, r1, u, es, id0, view, now, j);
      ghost var pre := store.records;
      var one := RefreshOne(store, u[j], view, now, es[j], |r1| + j, id0 + j);
      if one.Err? {
        return one;
      }
      RefreshStep(pre, store.records, r1, u, es, id0, view, now, j);
    }
    r := Ok(());
  }

  /** The third loop's records before the j-th name: the old records, the
      names before j refreshed, the rest still as created. */
  predicate RefreshedBefore(rs: seq<BranchRecord>, r1: seq<BranchRecord>, u: seq<string>, es: seq<string>,
                            id0: nat, view: RemoteView, now: int, j: nat)
  {
    && j <= |u| == |es| && |rs| == |r1| + |u|
    && (forall m :: 0 <= m < |r1| ==> rs[m] == r1[m])
    && (forall m :: 0 <= m < |u| ==> rs[|r1| + m].branch == u[m])
    && (forall m :: 0 <= m < j ==> Reachable(view, u[m]) && rs[|r1| + m] == NewRecord(u[m], es[m], id0 + m, view, now))
    && (forall m :: j <= m < |u| ==> rs[|r1| + m] == NewBare(u[m], es[m], id0 + m, now))
  }

  /** The third loop's invariant is kept by one step. */
  lemma RefreshStep(pre: seq<BranchRecord>, post: seq<BranchRecord>, r1: seq<BranchRecord>, u: seq<string>, es: seq<string>,
                    id0: nat, view: RemoteView, now: int, j: nat)
    requires j < |u| && RefreshedBefore(pre, r1, u, es, id0, view, now, j) && Reachable(view, u[j])
    requires |post| == |pre| && post[|r1| + j] == NewRecord(u[j], es[j], id0 + j, view, now)
    requires forall m :: 0 <= m < |post| && m != |r1| + j ==> post[m] == pre[m]
    ensures RefreshedBefore(post, r1, u, es, id0, view, now, j + 1)
  {
    forall m | 0 <= m < j ensures post[|r1| + m] == NewRecord(u[m], es[m], id0 + m, view, now) {
      assert post[|r1| + m] == pre[|r1| + m];
    }
    forall m | 0 <= m < |u| ensures post[|r1| + m].branch == u[m] {
      if m != j {
        assert post[|r1| + m] == pre[|r1| + m];
      }
    }
  }

  /** Before the j-th untracked branch, no record is on that branch. */
  lemma EarlierBranches(rs: seq<BranchRecord>, r1: seq<BranchRecord>, u: seq<string>, es: seq<string>,
                         id0: nat, view: RemoteView, now: int, j: nat)
    requires DistinctNames(u) && j < |u| && RefreshedBefore(rs, r1, u, es, id0, view, now, j)
    requires forall m :: 0 <= m < |r1| ==> r1[m].branch !in u
    ensures forall m :: 0 <= m < |r1| + j ==> rs[m].branch != u[j]
  {
    forall m | 0 <= m < |r1| + j ensures rs[m].branch != u[j] {
      if m >= |r1| {
        assert rs[|r1| + (m - |r1|)].branch == u[m - |r1|];
      } else {
        assert rs[m] == r1[m];
      }
    }
  }

  /** One step of the third loop: fetch the branch's tree and pull requests
      and upsert its record. */
  method RefreshOne(store: BranchStore, name: string, view: RemoteView, now: int, ghost entity: string, ghost k: nat, ghost id: nat)
    returns (r: Result<(), string>)
    requires store.Valid() && k < |store.records| && entity == EntityFor("", name)
    requires store.records[k] == NewBare(name, entity, id, now)
    requires forall m :: 0 <= m < k ==> store.records[m].branch != name
    modifies store
    ensures store.Valid()
    ensures r.Err? <==> !Reachable(view, name)
    ensures r.Ok? ==> |store.records| == |old(store.records)|
    ensures r.Ok? ==> store.records[k] == NewRecord(name, entity, id, view, now)
    ensures r.Ok? ==> forall m :: 0 <= m < |store.records| && m != k ==> store.records[m] == old(store.records)[m]
  {
    var inferred := EntityFor("", name);
    var tree := view.treeOf(name);
    if tree.Err? {
      return Err(tree.error);
    }
    var open := view.pullsOf(name);
    if open.Err? {
      return Err(open.error);
    }
    var files := BranchFiles(tree.value, PathPrefix(inferred), now);
    var pr := PrOf(open.value);
    ghost var pre := store.records;
    assert FirstOnBranch(pre, name) == k;
    var f := (x: BranchRecord) => x.(entity := inferred, base := Config.Branch, files := files, pr := pr,
                                     status := "open", lastUsedAt := Some(now));
    store.UpsertByBranch(name, f, now);
    r := Ok(());
  }

  /** `syncPublishBranches`. */
  method SyncPublishBranches(store: BranchStore, view: RemoteView, now: int) returns (r: Result<(), string>)
    requires store.Valid() && DistinctNames(view.branches)
    modifies store
    ensures store.Valid()
    ensures r.Ok? <==> AllReachable(old(store.records), view)
    ensures r.Ok? ==> SyncedRun(old(store.records), old(store.nextId), view, now, store.records)
  {
    ghost var r0 := store.records;
    var live := Live(view);
    var u := Untracked(view.branches, TrackedBranches(store.records));
    UntrackedDistinct(view.branches, TrackedBranches(r0));
    var first := MarkAndRefresh(store, view, live, now);
    if first.Err? {
      TrackedUnreachable(r0, view);
      return first;
    }
    SyncedIntro(r0, store.records, view, now);
    r := FinishSync(store, view, now, u, r0, old(store.nextId));
  }

  /** What the first loop leaves when it succeeds: every live tracked
      branch answered, and each record is its synced form. */
  predicate AllSynced(r0: seq<BranchRecord>, r1: seq<BranchRecord>, view: RemoteView, now: int) {
    && (forall j :: 0 <= j < |r0| && Tracked(r0[j]) && r0[j].branch in Live(view) ==> Reachable(view, r0[j].branch))
    && |r1| == |r0| && forall j :: 0 <= j < |r0| ==> r1[j] == Synced(r0[j], Live(view), view, now)
  }

  lemma SyncedIntro(r0: seq<BranchRecord>, r1: seq<BranchRecord>, view: RemoteView, now: int)
    requires forall j :: 0 <= j < |r0| && Tracked(r0[j]) && r0[j].branch in Live(view) ==> Reachable(view, r0[j].branch)
    requires |r1| == |r0| && forall j :: 0 <= j < |r0| ==> r1[j] == Synced(r0[j], Live(view), view, now)
    ensures AllSynced(r0, r1, view, now)
  {
  }

  /** The records after the second and third loops: the old ones, then one
      refreshed record per untracked branch, with fresh ids from id0. */
  predicate Appended(r1: seq<BranchRecord>, r2: seq<BranchRecord>, u: seq<string>, id0: nat, view: RemoteView, now: int) {
    && |r2| == |r1| + |u| && (forall m :: 0 <= m < |r1| ==> r2[m] == r1[m])
    && forall j :: 0 <= j < |u| ==>
         Reachable(view, u[j]) && r2[|r1| + j] == NewRecord(u[j], EntityFor("", u[j]), id0 + j, view, now)
  }

  /** Everything `syncPublishBranches` does after the first loop succeeded. */
  method FinishSync(store: BranchStore, view: RemoteView, now: int, u: seq<string>, ghost r0: seq<BranchRecord>, ghost id0: nat)
    returns (r: Result<(), string>)
    requires store.Valid() && DistinctNames(u) && u == Untracked(view.branches, TrackedBranches(r0))
    requires AllSynced(r0, store.records, view, now) && store.nextId == id0
    modifies store
    ensures store.Valid()
    ensures r.Ok? <==> AllReachable(r0, view)
    ensures r.Ok? ==> SyncedRun(r0, id0, view, now, store.records)
  {
    ghost var r1 := store.records;
    RecordedNotUntracked(r0, r1, view.branches);
    r := AddUntracked(store, u, view, now, r1, id0);
    if r.Ok? {
      SyncOutcome(r0, r1, store.records, u, view, now, id0);
    } else {
      UntrackedUnreachable(r0, view);
    }
  }

  /** The records after a successful run: each old one synced, then one
      refreshed record per untracked "docsflow" branch, with fresh ids. */
  predicate SyncedRun(r0: seq<BranchRecord>, id0: nat, view: RemoteView, now: int, records: seq<BranchRecord>)
    requires AllReachable(r0, view)
  {
    SyncedWith(r0, Untracked(view.branches, TrackedBranches(r0)), id0, view, now, records)
  }

  /** The records of a successful run that appended the names u: each old
      record synced in place, then a new refreshed record per name. */
  predicate SyncedWith(r0: seq<BranchRecord>, u: seq<string>, id0: nat, view: RemoteView, now: int, records: seq<BranchRecord>)
    requires forall i :: 0 <= i < |r0| && Tracked(r0[i]) && r0[i].branch in Live(view) ==> Reachable(view, r0[i].branch)
    requires forall j :: 0 <= j < |u| ==> Reachable(view, u[j])
  {
    && |records| == |r0| + |u|
    && (forall j :: 0 <= j < |r0| ==> records[j] == Synced(r0[j], Live(view), view, now))
    && (forall j :: 0 <= j < |u| ==> records[|r0| + j] == NewRecord(u[j], EntityFor("", u[j]), id0 + j, view, now))
  }

  /** A live tracked branch that does not answer fails the run. */
  lemma TrackedUnreachable(r0: seq<BranchRecord>, view: RemoteView)
    requires exists i :: 0 <= i < |r0| && Tracked(r0[i]) && r0[i].branch in Live(view) && !Reachable(view, r0[i].branch)
    ensures !AllReachable(r0, view)
  {
  }

  /** An untracked branch that does not answer fails the run. */
  lemma UntrackedUnreachable(r0: seq<BranchRecord>, view: RemoteView)
    requires var u := Untracked(view.branches, TrackedBranches(r0)); exists j :: 0 <= j < |u| && !Reachable(view, u[j])
    ensures !AllReachable(r0, view)
  {
  }

  /** No synced record is on an untracked branch. */
  lemma RecordedNotUntracked(r0: seq<BranchRecord>, r1: seq<BranchRecord>, names: seq<string>)
    requires |r1| == |r0| && forall m :: 0 <= m < |r0| ==> r1[m].branch == r0[m].branch
    ensures forall m :: 0 <= m < |r1| ==> r1[m].branch !in Untracked(names, TrackedBranches(r0))
  {
    forall m | 0 <= m < |r1| ensures r1[m].branch !in Untracked(names, TrackedBranches(r0)) {
      assert r0[m] in r0;
    }
  }

  /** The records after both halves of the run. */
  lemma SyncOutcome(r0: seq<BranchRecord>, r1: seq<BranchRecord>, r2: seq<BranchRecord>, u: seq<string>,
                    view: RemoteView, now: int, id0: nat)
    requires u == Untracked(view.branches, TrackedBranches(r0))
    requires AllSynced(r0, r1, view, now) && Appended(r1, r2, u, id0, view, now)
    ensures AllReachable(r0, view) && SyncedRun(r0, id0, view, now, r2)
  {
    SyncedFrom(r0, r1, r2, u, view, now, id0);
  }

  lemma SyncedFrom(r0: seq<BranchRecord>, r1: seq<BranchRecord>, r2: seq<BranchRecord>, u: seq<string>,
                   view: RemoteView, now: int, id0: nat)
    requires AllSynced(r0, r1, view, now) && Appended(r1, r2, u, id0, view, now)
    ensures forall j :: 0 <= j < |u| ==> Reachable(view, u[j])
    ensures SyncedWith(r0, u, id0, view, now, r2)
  {
    forall j | 0 <= j < |u|
      ensures r2[|r0| + j] == NewRecord(u[j], EntityFor("", u[j]), id0 + j, view, now)
    {
      assert |r1| + j == |r0| + j;
    }
  }

  /** The second half of `syncPublishBranches`: a record for each untracked
      branch, then its files and pull request. */
  method AddUntracked(store: BranchStore, u: seq<string>, view: RemoteView, now: int,
                      ghost r1: seq<BranchRecord>, ghost id0: nat)
    returns (r: Result<(), string>)
    requires store.Valid() && DistinctNames(u)
    requires store.records == r1 && store.nextId == id0
    requires forall m :: 0 <= m < |r1| ==> r1[m].branch !in u
    modifies store
    ensures store.Valid()
    ensures r.Err? <==> exists j :: 0 <= j < |u| && !Reachable(view, u[j])
    ensures r.Ok? ==> Appended(r1, store.records, u, id0, view, now)
  {
    ghost var es := seq(|u|, j requires 0 <= j < |u| => EntityFor("", u[j]));
    CreateAll(store, u, now, es, r1, id0);
    r := RefreshAll(store, u, view, now, es, r1, id0);
    if r.Ok? {
      NewRecordsNamed(r1, store.records, u, es, id0, view, now);
    }
  }

  /** The created records carry the entity the run names for them. */
  lemma NewRecordsNamed(r1: seq<BranchRecord>, records: seq<BranchRecord>, u: seq<string>, es: seq<string>, id0: nat, view: RemoteView, now: int)
    requires EntitiesOf(u, es)
    requires |records| == |r1| + |u| && forall m :: 0 <= m < |r1| ==> records[m] == r1[m]
    requires forall j :: 0 <= j < |u| ==> Reachable(view, u[j]) && records[|r1| + j] == NewRecord(u[j], es[j], id0 + j, view, now)
    ensures Appended(r1, records, u, id0, view, now)
  {
  }

  lemma {:induction false} UntrackedDistinct(names: seq<string>, tracked: set<string>)
    requires DistinctNames(names)
    ensures DistinctNames(Untracked(names, tracked))
  {
    if names != [] {
      var init := names[..|names| - 1];
      UntrackedDistinct(init, tracked);
      assert names[|names| - 1] !in init;
    }
  }

  /** After a successful run every "docsflow" branch has an open record. */
  lemma EveryBranchOpen(r0: seq<BranchRecord>, records: seq<BranchRecord>, view: RemoteView, now: int, id0: nat)
    requires AllReachable(r0, view) && SyncedRun(r0, id0, view, now, records)
    ensures forall b :: b in Live(view) ==> exists k :: 0 <= k < |records| && records[k].branch == b && records[k].status == "open"
  {
    var u := Untracked(view.branches, TrackedBranches(r0));
    forall b | b in Live(view) ensures exists k :: 0 <= k < |records| && records[k].branch == b && records[k].status == "open" {
      if b in TrackedBranches(r0) {
        var x :| x in r0 && Tracked(x) && x.branch == b;
        var i :| 0 <= i < |r0| && r0[i] == x;
        assert records[i].status == "open";
      } else {
        var j :| 0 <= j < |u| && u[j] == b;
        assert records[|r0| + j].branch == b;
      }
    }
  }
}
