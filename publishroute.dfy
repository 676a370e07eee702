/** The older tech-stack publish route: every call cuts a fresh branch,
    sorts the pending drafts into "conflicting" files, whose blob sha on
    the base branch differs from the record's stored `last_commit_id`, and
    the rest, commits the two groups one after the other, opens a pull
    request and then marks the drafts published. The stored value is a
    commit id (this route and the sync scripts both store one), so a blob
    sha equals it only by accident: in practice every file that exists on
    the base branch is "conflicting", and only new files (a 404) and
    directories go to the first commit. */
module PublishRoute {
  import opened Wrappers
  import opened Text
  import opened Json
  import opened Utf8
  import opened GitBlob
  import opened Remote
  import opened TechStore
  import Publish
  import Config

  /** Where a tech-stack record's file lives in the repository. */
  function TechPath(id: string): string {
    Config.TechStackPath + "/" + id
  }

  lemma TechPathInjective(a: string, b: string)
    ensures TechPath(a) == TechPath(b) ==> a == b
  {
    var n := |Config.TechStackPath + "/"|;
    assert a == TechPath(a)[n..];
    assert b == TechPath(b)[n..];
  }

  /** `if (docId)`: a non-empty id narrows the query. */
  predicate Narrowed(docId: Option<string>) {
    docId.Some? && docId.value != ""
  }

  /** The drafts the route publishes: status other than "published",
      restricted to the given id when there is one; in store order. */
  function Pending(ds: seq<TechDoc>, docId: Option<string>): (r: seq<TechDoc>)
    ensures forall d :: d in r <==> d in ds && d.status != "published" && (Narrowed(docId) ==> d.id == docId.value)
    ensures |r| <= |ds|
  {
    if ds == [] then []
    else
      var r := Pending(ds[..|ds| - 1], docId);
      var d := ds[|ds| - 1];
      assert forall x :: x in ds <==> x in ds[..|ds| - 1] || x == d;
      if d.status != "published" && (Narrowed(docId) ==> d.id == docId.value) then r + [d] else r
  }

  /** A subsequence of records with unique ids has unique ids. */
  lemma {:induction false} PendingUnique(ds: seq<TechDoc>, docId: Option<string>)
    requires UniqueIds(ds)
    ensures UniqueIds(Pending(ds, docId))
  {
    if ds != [] {
      var init := ds[..|ds| - 1];
      PendingUnique(init, docId);
      forall x | x in Pending(init, docId) ensures x.id != ds[|ds| - 1].id {
        var i :| 0 <= i < |init| && init[i] == x;
        assert ds[i] == x;
      }
    }
  }

  /** The route's test for a conflict: the remote entry is a file whose
      blob sha differs from the record's `last_commit_id`. A 404 or a
      directory is not a conflict. The two sides of the comparison are a
      blob sha and a commit id, so the test does not tell whether the file
      changed upstream. */
  predicate Conflicting(c: Content, d: TechDoc) {
    c.File? && d.lastCommitId != Some(c.sha)
  }

  /** The documents of one side of the partition, in order. */
  function Group(main: Option<Tree>, ds: seq<TechDoc>, conflicting: bool): (r: seq<TechDoc>)
    ensures |r| <= |ds|
  {
    if ds == [] then []
    else
      var r := Group(main, ds[..|ds| - 1], conflicting);
      var d := ds[|ds| - 1];
      if Conflicting(ContentAt(main, TechPath(d.id)), d) == conflicting then r + [d] else r
  }

  /** A group holds exactly the documents on its side of the lookup. */
  lemma {:induction false} GroupMembers(main: Option<Tree>, ds: seq<TechDoc>, conflicting: bool)
    ensures forall d :: d in Group(main, ds, conflicting) <==>
      d in ds && Conflicting(ContentAt(main, TechPath(d.id)), d) == conflicting
  {
    if ds != [] {
      GroupMembers(main, ds[..|ds| - 1], conflicting);
      assert forall x :: x in ds <==> x in ds[..|ds| - 1] || x == ds[|ds| - 1];
    }
  }

  /** The loop's step: document i joins its side and the other side stays. */
  lemma GroupStep(main: Option<Tree>, ds: seq<TechDoc>, i: int)
    requires 0 <= i < |ds|
    ensures var c := Conflicting(ContentAt(main, TechPath(ds[i].id)), ds[i]);
      && Group(main, ds[..i + 1], c) == Group(main, ds[..i], c) + [ds[i]]
      && Group(main, ds[..i + 1], !c) == Group(main, ds[..i], !c)
  {
    assert ds[..i + 1][..i] == ds[..i];
  }

  /** Each document lands in exactly one group. */
  lemma {:induction false} GroupsPartition(main: Option<Tree>, ds: seq<TechDoc>)
    ensures multiset(Group(main, ds, false)) + multiset(Group(main, ds, true)) == multiset(ds)
  {
    if ds != [] {
      GroupsPartition(main, ds[..|ds| - 1]);
      assert ds == ds[..|ds| - 1] + [ds[|ds| - 1]];
    }
  }

  lemma {:induction false} GroupUnique(main: Option<Tree>, ds: seq<TechDoc>, conflicting: bool)
    requires UniqueIds(ds)
    ensures UniqueIds(Group(main, ds, conflicting))
  {
    if ds != [] {
      var init := ds[..|ds| - 1];
      GroupUnique(main, init, conflicting);
      GroupMembers(main, init, conflicting);
      forall x | x in Group(main, init, conflicting) ensures x.id != ds[|ds| - 1].id {
        var i :| 0 <= i < |init| && init[i] == x;
        assert ds[i] == x;
      }
    }
  }

  /** The lookups of the partition loop, one per document on the base
      branch, in order. */
  function Lookups(docs: seq<TechDoc>): (r: seq<Call>)
    ensures |r| == |docs|
  {
    seq(|docs|, i requires 0 <= i < |docs| => Call.GetContent(Publish.BaseBranch, TechPath(docs[i].id)))
  }

  lemma LookupsStep(docs: seq<TechDoc>, i: nat)
    requires i < |docs|
    ensures Lookups(docs[..i + 1]) == Lookups(docs[..i]) + [Call.GetContent(Publish.BaseBranch, TechPath(docs[i].id))]
  {
  }

  /** The partition loop: one lookup on the base branch per document; any
      error other than a 404 aborts. */
  method Partition(gh: GitHub, docs: seq<TechDoc>) returns (r: Result<(seq<TechDoc>, seq<TechDoc>), string>)
    modifies gh`log
    ensures r.Err? <==> exists i :: 0 <= i < |docs| && gh.fails(Call.GetContent(Publish.BaseBranch, TechPath(docs[i].id)))
    ensures r.Ok? ==> r.value == (Group(gh.RefTree(Publish.BaseBranch), docs, false), Group(gh.RefTree(Publish.BaseBranch), docs, true))
    ensures r.Ok? ==> gh.log == old(gh.log) + Lookups(docs)
  {
    ghost var main := gh.RefTree(Publish.BaseBranch);
    var nonConflicting: seq<TechDoc> := [];
    var conflicting: seq<TechDoc> := [];
    for i := 0 to |docs|
      invariant gh.RefTree(Publish.BaseBranch) == main
      invariant nonConflicting == Group(main, docs[..i], false)
      invariant conflicting == Group(main, docs[..i], true)
      invariant forall j :: 0 <= j < i ==> !gh.fails(Call.GetContent(Publish.BaseBranch, TechPath(docs[j].id)))
      invariant gh.log == old(gh.log) + Lookups(docs[..i])
    {
      var sides := Classify(gh, docs, i, main, nonConflicting, conflicting);
      if sides.Err? {
        return Err(sides.error);
      }
      LookupsStep(docs, i);
      AppendAssoc(old(gh.log), Lookups(docs[..i]), [Call.GetContent(Publish.BaseBranch, TechPath(docs[i].id))]);
      nonConflicting, conflicting := sides.value.0, sides.value.1;
    }
    assert docs[..|docs|] == docs;
    r := Ok((nonConflicting, conflicting));
  }

  /** One turn of the partition loop: look document i up on the base
      branch and append it to its side. */
  method Classify(gh: GitHub, docs: seq<TechDoc>, i: int, ghost main: Option<Tree>,
                  nonConflicting: seq<TechDoc>, conflicting: seq<TechDoc>)
    returns (r: Result<(seq<TechDoc>, seq<TechDoc>), string>)
    requires 0 <= i < |docs| && main == gh.RefTree(Publish.BaseBranch)
    requires nonConflicting == Group(main, docs[..i], false) && conflicting == Group(main, docs[..i], true)
    modifies gh`log
    ensures r.Err? <==> gh.fails(Call.GetContent(Publish.BaseBranch, TechPath(docs[i].id)))
    ensures gh.log == old(gh.log) + [Call.GetContent(Publish.BaseBranch, TechPath(docs[i].id))]
    ensures r.Ok? ==> r.value == (Group(main, docs[..i + 1], false), Group(main, docs[..i + 1], true))
  {
    var doc := docs[i];
    var remote := gh.GetContent(Publish.BaseBranch, TechPath(doc.id));
    if remote.Err? {
      return Err(remote.error);
    }
    GroupStep(main, docs, i);
    if Conflicting(remote.value, doc) {
      r := Ok((nonConflicting, conflicting + [doc]));
    } else {
      r := Ok((nonConflicting + [doc], conflicting));
    }
  }

  /** The inline-content tree items of a group: each draft pretty-printed
      at its file's path. */
  function TechItems(group: seq<TechDoc>, stringify: Json -> string): (r: seq<TreeItem>)
    ensures |r| == |group|
  {
    seq(|group|, i requires 0 <= i < |group| => ItemContent(TechPath(group[i].id), stringify(group[i].draft)))
  }

  /** The tree a group's commit has: the parent's tree with the group's
      drafts put in, or the parent's tree itself for an empty group. */
  ghost predicate Extends(before: Tree, after: Tree, group: seq<TechDoc>, stringify: Json -> string, sha1: seq<Byte> -> string) {
    after == GroupTree(before, group, stringify, sha1)
  }

  function GroupTree(before: Tree, group: seq<TechDoc>, stringify: Json -> string, sha1: seq<Byte> -> string): Tree {
    if group == [] then before else Overlay(before, TechItems(group, stringify), sha1)
  }

  /** The commit a group leaves at the branch's tip: a new commit whose
      parent is `parent`, or `parent` itself for an empty group. */
  function GroupTip(gh: GitHub, parent: string, before: Tree, group: seq<TechDoc>, message: string,
                    stringify: Json -> string): string {
    if group == [] then parent
    else gh.commitId(message, gh.treeId(GroupTree(before, group, stringify, gh.sha1)), parent)
  }

  /** The calls `createBulkCommit` makes for a group on top of `parent`
      (whose tree is `before`): none for an empty group. */
  function GroupCalls(gh: GitHub, branch: string, parent: string, before: Tree, group: seq<TechDoc>,
                      message: string, stringify: Json -> string): seq<Call> {
    if group == [] then []
    else [Call.CreateTree(parent, TechItems(group, stringify)),
          Call.CreateCommit(message, gh.treeId(GroupTree(before, group, stringify, gh.sha1)), parent, BotAuthor),
          Call.UpdateRef(branch, GroupTip(gh, parent, before, group, message, stringify))]
  }

  /** The tip after both commits: the conflicting group's commit sits on
      top of the non-conflicting group's one, which sits on the base tip. */
  function BothTip(gh: GitHub, base: string, t0: Tree, nonConflicting: seq<TechDoc>, conflicting: seq<TechDoc>,
                   message1: string, message2: string, stringify: Json -> string): string {
    var tip1 := GroupTip(gh, base, t0, nonConflicting, message1, stringify);
    GroupTip(gh, tip1, GroupTree(t0, nonConflicting, stringify, gh.sha1), conflicting, message2, stringify)
  }

  /** The calls of both commits, the second one's parent being the first. */
  function BothCalls(gh: GitHub, branch: string, base: string, t0: Tree, nonConflicting: seq<TechDoc>,
                     conflicting: seq<TechDoc>, message1: string, message2: string, stringify: Json -> string): seq<Call> {
    var tip1 := GroupTip(gh, base, t0, nonConflicting, message1, stringify);
    GroupCalls(gh, branch, base, t0, nonConflicting, message1, stringify)
      + GroupCalls(gh, branch, tip1, GroupTree(t0, nonConflicting, stringify, gh.sha1), conflicting, message2, stringify)
  }

  /** `createBulkCommit` when the group is not empty; an empty group makes
      no commit and leaves the tip where it was. */
  method CommitGroup(gh: GitHub, branch: string, parent: string, group: seq<TechDoc>, message: string, stringify: Json -> string)
    returns (r: Result<string, string>)
    requires branch in gh.refs && gh.refs[branch] == parent && parent in gh.commits
    modifies gh`log, gh`trees, gh`commits, gh`refs
    ensures group == [] ==> r == Ok(parent) && gh.log == old(gh.log) && gh.commits == old(gh.commits)
    ensures r.Ok? ==>
      && r.value == GroupTip(gh, parent, old(gh.commits[parent]), group, message, stringify)
      && gh.log == old(gh.log) + GroupCalls(gh, branch, parent, old(gh.commits[parent]), group, message, stringify)
    ensures r.Ok? ==>
      && gh.refs == old(gh.refs)[branch := r.value]
      && r.value in gh.commits
      && Extends(old(gh.commits[parent]), gh.commits[r.value], group, stringify, gh.sha1)
    ensures group != [] && r.Ok? ==>
      var t := Overlay(old(gh.commits[parent]), TechItems(group, stringify), gh.sha1);
      && r.value == gh.commitId(message, gh.treeId(t), parent)
      && gh.log == old(gh.log) + [Call.CreateTree(parent, TechItems(group, stringify)),
                                  Call.CreateCommit(message, gh.treeId(t), parent, BotAuthor),
                                  Call.UpdateRef(branch, r.value)]
  {
    if group == [] {
      return Ok(parent);
    }
    r := Publish.CommitItems(gh, branch, parent, TechItems(group, stringify), message, BotAuthor);
  }

  const BotAuthor := Author("DocsFlow Bot", "docsflow@wavemaker.com")

  /** The pull request's title: one version when a single document was
      asked for and found, otherwise the date. */
  const SingleTitle := "docs(tech-stack): update tech stack for "
  const MultipleTitle := "docs(tech-stack): update multiple tech stack versions ["

  function PrTitle(docId: Option<string>, pending: seq<TechDoc>, dateText: string): (r: string)
    ensures |r| >= |SingleTitle|
    ensures (r[..|SingleTitle|] == SingleTitle) <==> Narrowed(docId) && |pending| == 1
    ensures Narrowed(docId) && |pending| == 1 ==> r[|SingleTitle|..] == pending[0].version
    ensures !(Narrowed(docId) && |pending| == 1) ==>
      |r| > |MultipleTitle| && r[..|MultipleTitle|] == MultipleTitle && r[|MultipleTitle|..] == dateText + "]"
  {
    assert SingleTitle[25] != MultipleTitle[25];
    if Narrowed(docId) && |pending| == 1 then SingleTitle + pending[0].version
    else MultipleTitle + dateText + "]"
  }

  const PrIntro := "This Pull Request " + "was automatically " + "generated by DocsFlow."
  const PrVersionsHeading := "### Updated Versions:"
  const PrNote := "**Note:** Conflicts " + "were resolved by " + "giving priority to " + "DocsFlow content."

  /** One "- <version>" line per published draft, in order. */
  function VersionLines(pending: seq<TechDoc>): (r: seq<string>)
    ensures |r| == |pending| && forall i :: 0 <= i < |pending| ==> r[i] == "- " + pending[i].version
  {
    seq(|pending|, i requires 0 <= i < |pending| => "- " + pending[i].version)
  }

  /** The pull request body: the generated-by line, the heading, the
      versions' lines joined by "\n", and the note on conflicts. */
  function PrBody(pending: seq<TechDoc>): (r: string)
    ensures |r| >= |PrIntro| && r[..|PrIntro|] == PrIntro
  {
    PrIntro + "\n\n" + PrVersionsHeading + "\n" + Join(VersionLines(pending), "\n") + "\n\n" + PrNote
  }

  /** The body's lines, for drafts whose versions hold no line break. */
  function BodyLines(pending: seq<TechDoc>): seq<string> {
    [PrIntro, "", PrVersionsHeading] + VersionLines(pending) + ["", PrNote]
  }

  /** Joining a split list is joining its halves around the separator. */
  lemma {:induction false} JoinAppend(a: seq<string>, b: seq<string>, sep: string)
    requires |a| >= 1 && |b| >= 1
    ensures Join(a + b, sep) == Join(a, sep) + sep + Join(b, sep)
  {
    if |a| == 1 {
      assert (a + b)[1..] == b;
    } else {
      assert (a + b)[1..] == a[1..] + b;
      JoinAppend(a[1..], b, sep);
    }
  }

  /** The fixed lines of the body hold no line break. */
  lemma NoLineBreaks()
    ensures '\n' !in PrIntro && '\n' !in PrVersionsHeading && '\n' !in PrNote
  {
  }

  /** The first three lines joined. */
  lemma JoinHead(intro: string, heading: string)
    ensures Join([intro, "", heading], "\n") == intro + "\n\n" + heading
  {
    var head, rest := [intro, "", heading], ["", heading];
    assert head[1..] == rest && rest[1..] == [heading];
    assert Join(rest, "\n") == "" + "\n" + heading;
    assert "\n\n" == "\n" + "\n";
  }

  /** The last two lines joined. */
  lemma JoinTail(note: string)
    ensures Join(["", note], "\n") == "\n" + note
  {
    assert ["", note][1..] == [note];
  }

  /** The shape of the body, for any fixed lines: joining the lines gives
      the text the route writes. */
  lemma JoinFramed(intro: string, heading: string, vs: seq<string>, note: string)
    requires |vs| >= 1
    ensures Join([intro, "", heading] + vs + ["", note], "\n")
         == intro + "\n\n" + heading + "\n" + Join(vs, "\n") + "\n\n" + note
  {
    var head, tail := [intro, "", heading], ["", note];
    JoinAppend(head + vs, tail, "\n");
    JoinAppend(head, vs, "\n");
    JoinHead(intro, heading);
    JoinTail(note);
    BlankLineBefore(Join(head, "\n"), Join(vs, "\n"), note);
  }

  /** Joining the last line after a blank one puts "\n\n" before it. */
  lemma BlankLineBefore(h: string, v: string, n: string)
    ensures (h + "\n" + v) + "\n" + ("\n" + n) == h + "\n" + v + "\n\n" + n
  {
    assert "\n\n" == "\n" + "\n";
  }

  /** The body is its lines joined by "\n". */
  lemma BodyJoin(pending: seq<TechDoc>)
    requires |pending| >= 1
    ensures PrBody(pending) == Join(BodyLines(pending), "\n")
  {
    JoinFramed(PrIntro, PrVersionsHeading, VersionLines(pending), PrNote);
  }

  /** No line of the body holds a line break when no version does. */
  lemma BodyLinesUnbroken(pending: seq<TechDoc>)
    requires forall d :: d in pending ==> '\n' !in d.version
    ensures forall k :: 0 <= k < |BodyLines(pending)| ==> '\n' !in BodyLines(pending)[k]
  {
    NoLineBreaks();
    forall k | 3 <= k < 3 + |pending|
      ensures '\n' !in BodyLines(pending)[k]
    {
      assert BodyLines(pending)[k] == "- " + pending[k - 3].version;
      assert pending[k - 3] in pending;
    }
  }

  /** Read line by line, the body of a publish of at least one draft is
      the generated-by line, a blank line, the heading, one "- <version>"
      line per draft in order, a blank line and the note; so every
      published version is listed on a line of its own. */
  lemma BodyListsVersions(pending: seq<TechDoc>)
    requires |pending| >= 1
    requires forall d :: d in pending ==> '\n' !in d.version
    ensures Split(PrBody(pending), "\n") == BodyLines(pending)
    ensures forall d :: d in pending ==> "- " + d.version in Split(PrBody(pending), "\n")
  {
    BodyJoin(pending);
    BodyLinesUnbroken(pending);
    SplitJoin(BodyLines(pending), '\n');
    forall d | d in pending
      ensures "- " + d.version in BodyLines(pending)
    {
      var i :| 0 <= i < |pending| && pending[i] == d;
      assert BodyLines(pending)[3 + i] == "- " + d.version;
    }
  }

  const NonConflictingHeader := "docs(tech-stack): update tech stack definitions (non-conflicting)\n\nPublished via DocsFlow by "
  const ConflictingHeader := "docs(tech-stack): resolve conflicts and update definitions\n\nPriority given to DocsFlow content over GitHub changes.\nPublished via DocsFlow by "

  function NonConflictingMessage(userEmail: string): string {
    NonConflictingHeader + userEmail
  }

  function ConflictingMessage(userEmail: string): string {
    ConflictingHeader + userEmail
  }

  /** The record of a published draft: the draft becomes the data, the
      final commit its commit id. */
  function MarkPublished(d: TechDoc, tip: string, now: int): (p: TechDoc)
    ensures p.id == d.id && p.data == d.draft && p.draft == d.draft && p.status == "published"
    ensures p.lastCommitId == Some(tip) && p.lastUpdatedBy == "docsflow" && p.version == d.version
  {
    d.(data := d.draft, lastCommitId := Some(tip), lastUpdate := Some(now), lastUpdatedBy := "docsflow", status := "published")
  }

  /** The store after the update loop: exactly the records with the given
      ids are marked published. */
  function PublishAll(ds: seq<TechDoc>, ids: set<string>, tip: string, now: int): (r: seq<TechDoc>)
    ensures |r| == |ds|
    ensures forall i :: 0 <= i < |ds| && ds[i].id !in ids ==> r[i] == ds[i]
    ensures forall i :: 0 <= i < |ds| && ds[i].id in ids ==>
      r[i].id == ds[i].id && r[i].data == ds[i].draft && r[i].status == "published" && r[i].lastCommitId == Some(tip)
  {
    seq(|ds|, i requires 0 <= i < |ds| => if ds[i].id in ids then MarkPublished(ds[i], tip, now) else ds[i])
  }

  /** The update `findOneAndUpdate` applies for one published draft. */
  function Publisher(d: TechDoc, tip: string, now: int): TechDoc -> TechDoc {
    (x: TechDoc) => x.(data := d.draft, lastCommitId := Some(tip), lastUpdate := Some(now),
            lastUpdatedBy := "docsflow", status := "published")
  }

  /** One more update extends the published set by that draft's id. */
  lemma PublishAllStep(before: seq<TechDoc>, ids: set<string>, d: TechDoc, tip: string, now: int)
    requires UniqueIds(before) && d in before
    ensures UpdateOne(PublishAll(before, ids, tip, now), d.id, Publisher(d, tip, now))
         == PublishAll(before, ids + {d.id}, tip, now)
  {
    forall i | 0 <= i < |before| && before[i].id == d.id ensures before[i] == d {
      var j :| 0 <= j < |before| && before[j] == d;
      assert before[j].id == before[i].id;
    }
  }

  /** The update loop, one `findOneAndUpdate` per published draft. */
  method MarkAllPublished(store: Store, published: seq<TechDoc>, tip: string, now: int)
    requires store.Valid()
    requires forall d :: d in published ==> d in store.docs
    modifies store
    ensures store.Valid()
    ensures store.docs == PublishAll(old(store.docs), Ids(published), tip, now)
  {
    ghost var before := store.docs;
    for k := 0 to |published|
      invariant store.Valid()
      invariant forall d :: d in published ==> d in before
      invariant store.docs == PublishAll(before, Ids(published[..k]), tip, now)
    {
      var d := published[k];
      store.Update(d.id, Publisher(d, tip, now));
      PublishAllStep(before, Ids(published[..k]), d, tip, now);
      assert Ids(published[..k + 1]) == Ids(published[..k]) + {d.id} by {
        assert published[..k + 1] == published[..k] + [d];
      }
    }
    assert published[..|published|] == published;
  }

  datatype Body = Message(text: string) | Created(branch: string, prUrl: string, message: string) | Failed(error: string)

  datatype Response = Response(status: nat, body: Body)

  const NoToken := "GITHUB_TOKEN not configured in environment"

  /** Every draft's text is in the branch's tree at its path. */
  ghost predicate DraftsOn(gh: GitHub, branch: string, drafts: seq<TechDoc>, stringify: Json -> string)
    reads gh`refs, gh`commits
  {
    forall d :: d in drafts ==>
      gh.Lookup(branch, TechPath(d.id)) == File(ComputeBlobSha(stringify(d.draft), gh.sha1))
  }

  const NothingPending := "No pending changes to publish"
  const UnknownUser := "unknown-user"
  const CreatedPrefix := "Successfully created PR with "

  /** The session's e-mail, or "unknown-user" without one. */
  function UserEmail(email: Option<string>): (r: string)
    ensures r != ""
    ensures email.Some? && email.value != "" ==> r == email.value
  {
    if email.Some? && email.value != "" then email.value else UnknownUser
  }

  /** `POST /api/github/publish`. */
  method PublishTechStack(gh: GitHub, store: Store, token: Option<string>, docId: Option<string>,
                          email: Option<string>, clock: nat, now: int, dateText: string, stringify: Json -> string)
    returns (resp: Response)
    requires store.Valid()
    modifies gh, store
    ensures store.Valid()
    ensures token.None? || token == Some("") ==>
      resp == Response(500, Failed(NoToken)) && gh.log == old(gh.log) && store.docs == old(store.docs)
    ensures token.Some? && token != Some("") && Pending(old(store.docs), docId) == [] ==>
      resp == Response(200, Message(NothingPending)) && gh.log == old(gh.log) && store.docs == old(store.docs)
    ensures resp.status != 200 ==> resp.status == 500 && resp.body.Failed? && store.docs == old(store.docs)
    ensures resp.body.Created? ==>
      var pending := Pending(old(store.docs), docId);
      var branch := "docsflow-publish-" + NatToString(clock);
      && resp.status == 200 && resp.body.branch == branch
      && branch !in old(gh.refs) && branch in gh.refs
      && DraftsOn(gh, branch, pending, stringify)
      && (exists p :: p in gh.pulls && p.head == branch && p.url == resp.body.prUrl && p.state == "open")
      && store.docs == PublishAll(old(store.docs), Ids(pending), gh.refs[branch], now)
    ensures resp.body.Created? ==>
      var pending := Pending(old(store.docs), docId);
      && Publish.BaseBranch in old(gh.refs) && old(gh.refs)[Publish.BaseBranch] in old(gh.commits)
      && var base := old(gh.refs)[Publish.BaseBranch];
      && resp.body.branch in gh.refs
      && gh.refs[resp.body.branch] == RouteTip(gh, base, old(gh.commits)[base], pending, UserEmail(email), stringify)
      && gh.log == old(gh.log) + RouteCalls(gh, base, old(gh.commits)[base], pending, resp.body.branch,
                                            UserEmail(email), docId, dateText, stringify)
  {
    if token.None? || token == Some("") {
      return Response(500, Failed(NoToken));
    }
    var userEmail := UserEmail(email);
    var pending := Pending(store.docs, docId);
    if pending == [] {
      return Response(200, Message(NothingPending));
    }
    PendingUnique(store.docs, docId);
    var pushed := PushPending(gh, pending, clock, userEmail, docId, dateText, stringify);
    if pushed.Err? {
      return Response(500, Failed(pushed.error));
    }
    var (branch, tip, pr) := pushed.value;
    assert pr in gh.pulls && pr.head == branch && pr.state == "open";
    MarkAllPublished(store, pending, tip, now);
    resp := Response(200, Created(branch, pr.url, CreatedPrefix + NatToString(|pending|) + " versions."));
  }

  /** The final tip of the route's branch, given the base tip and that
      commit's tree. */
  function RouteTip(gh: GitHub, base: string, t0: Tree, pending: seq<TechDoc>, userEmail: string,
                    stringify: Json -> string): string {
    BothTip(gh, base, t0, Group(Some(t0), pending, false), Group(Some(t0), pending, true),
            NonConflictingMessage(userEmail), ConflictingMessage(userEmail), stringify)
  }

  /** Everything the route asks of GitHub on its way to a pull request,
      given the base tip and that commit's tree: the base lookup, the new
      branch at the base tip, one lookup per draft, the two commits and
      the pull request. */
  function RouteCalls(gh: GitHub, base: string, t0: Tree, pending: seq<TechDoc>, branch: string, userEmail: string,
                      docId: Option<string>, dateText: string, stringify: Json -> string): seq<Call> {
    [Call.GetBranch(Publish.BaseBranch), Call.CreateRef(branch, base)]
      + PushCalls(gh, base, t0, pending, branch, userEmail, docId, dateText, stringify)
  }

  /** The calls made once the branch exists: the lookups and the commits,
      then the pull request, which comes last. */
  function PushCalls(gh: GitHub, base: string, t0: Tree, pending: seq<TechDoc>, branch: string, userEmail: string,
                     docId: Option<string>, dateText: string, stringify: Json -> string): (r: seq<Call>)
    ensures |r| > 0 && r[|r| - 1] == Call.CreatePull(branch, Publish.BaseBranch, PrTitle(docId, pending, dateText), PrBody(pending))
  {
    RouteCommitCalls(gh, base, t0, pending, branch, userEmail, stringify)
      + [Call.CreatePull(branch, Publish.BaseBranch, PrTitle(docId, pending, dateText), PrBody(pending))]
  }

  /** The lookups of the partition, then the calls of the two commits. */
  function RouteCommitCalls(gh: GitHub, base: string, t0: Tree, pending: seq<TechDoc>, branch: string,
                            userEmail: string, stringify: Json -> string): seq<Call> {
    Lookups(pending)
      + BothCalls(gh, branch, base, t0, Group(Some(t0), pending, false), Group(Some(t0), pending, true),
                  NonConflictingMessage(userEmail), ConflictingMessage(userEmail), stringify)
  }

  /** The GitHub half of the route: a new branch off the base tip, the two
      commits, and the pull request. */
  method PushPending(gh: GitHub, pending: seq<TechDoc>, clock: nat, userEmail: string, docId: Option<string>,
                     dateText: string, stringify: Json -> string)
    returns (r: Result<(string, string, Pull), string>)
    requires UniqueIds(pending)
    modifies gh
    ensures r.Ok? ==>
      var (branch, tip, pr) := r.value;
      && branch == "docsflow-publish-" + NatToString(clock)
      && branch !in old(gh.refs) && branch in gh.refs && gh.refs[branch] == tip
      && DraftsOn(gh, branch, pending, stringify)
      && pr in gh.pulls && pr.head == branch && pr.base == Publish.BaseBranch && pr.state == "open"
      && Call.CreatePull(branch, Publish.BaseBranch, PrTitle(docId, pending, dateText), PrBody(pending)) in gh.log
    ensures r.Ok? ==>
      && Publish.BaseBranch in old(gh.refs) && old(gh.refs)[Publish.BaseBranch] in old(gh.commits)
      && var base := old(gh.refs)[Publish.BaseBranch];
      && r.value.1 == RouteTip(gh, base, old(gh.commits)[base], pending, userEmail, stringify)
      && gh.log == old(gh.log) + RouteCalls(gh, base, old(gh.commits)[base], pending, r.value.0, userEmail,
                                            docId, dateText, stringify)
  {
    var started := StartBranch(gh, clock);
    if started.Err? {
      return Err(started.error);
    }
    var (branch, baseSha) := started.value;
    ghost var t0 := gh.commits[baseSha];
    var pushed := PushGroups(gh, branch, baseSha, pending, userEmail, docId, dateText, stringify);
    if pushed.Err? {
      return Err(pushed.error);
    }
    r := Ok((branch, pushed.value.0, pushed.value.1));
    ghost var calls := PushCalls(gh, baseSha, t0, pending, branch, userEmail, docId, dateText, stringify);
    ghost var start := [Call.GetBranch(Publish.BaseBranch), Call.CreateRef(branch, baseSha)];
    AppendTwice(old(gh.log), start, calls);
  }

  /** Appending two pieces is appending their concatenation, and the last
      element is the second piece's. */
  lemma AppendTwice(log: seq<Call>, start: seq<Call>, calls: seq<Call>)
    requires |calls| > 0
    ensures log + start + calls == log + (start + calls)
    ensures (log + start + calls)[|log| + |start| + |calls| - 1] == calls[|calls| - 1]
  {
  }

  /** `getBranch` on the base, then `createRef` of the new branch at its
      tip. */
  method StartBranch(gh: GitHub, clock: nat) returns (r: Result<(string, string), string>)
    modifies gh`log, gh`refs
    ensures gh.commits == old(gh.commits)
    ensures r.Ok? ==>
      var (branch, base) := r.value;
      && branch == "docsflow-publish-" + NatToString(clock)
      && Publish.BaseBranch in old(gh.refs) && base == old(gh.refs)[Publish.BaseBranch] && base in gh.commits
      && branch !in old(gh.refs) && gh.refs == old(gh.refs)[branch := base]
      && gh.log == old(gh.log) + [Call.GetBranch(Publish.BaseBranch), Call.CreateRef(branch, base)]
  {
    var main := gh.GetBranch(Publish.BaseBranch);
    if main.Err? || main.value.None? {
      return Err("getBranch failed");
    }
    var baseSha := main.value.value;
    var branch := "docsflow-publish-" + NatToString(clock);
    var created := gh.CreateRef(branch, baseSha);
    if created.Err? {
      return Err(created.error);
    }
    r := Ok((branch, baseSha));
  }

  /** The route after the branch exists at the base tip: the partition,
      the two commits and the pull request. */
  method PushGroups(gh: GitHub, branch: string, base: string, pending: seq<TechDoc>, userEmail: string,
                    docId: Option<string>, dateText: string, stringify: Json -> string)
    returns (r: Result<(string, Pull), string>)
    requires UniqueIds(pending)
    requires branch != Publish.BaseBranch && base in gh.commits
    requires branch in gh.refs && gh.refs[branch] == base
    requires Publish.BaseBranch in gh.refs && gh.refs[Publish.BaseBranch] == base
    modifies gh`log, gh`trees, gh`commits, gh`refs, gh`pulls
    ensures r.Ok? ==>
      var (tip, pr) := r.value;
      var t0 := old(gh.commits[base]);
      && gh.refs == old(gh.refs)[branch := tip]
      && DraftsOn(gh, branch, pending, stringify)
      && pr in gh.pulls && pr.head == branch && pr.base == Publish.BaseBranch && pr.state == "open"
      && tip == RouteTip(gh, base, t0, pending, userEmail, stringify)
      && gh.log == old(gh.log) + PushCalls(gh, base, t0, pending, branch, userEmail, docId, dateText, stringify)
  {
    ghost var t0 := gh.commits[base];
    var tip := CommitPending(gh, branch, base, pending, userEmail, stringify);
    if tip.Err? {
      return Err(tip.error);
    }
    var pr := OpenPull(gh, branch, docId, pending, dateText);
    if pr.Err? {
      return Err(pr.error);
    }
    r := Ok((tip.value, pr.value));
    AppendAssoc(old(gh.log), RouteCommitCalls(gh, base, t0, pending, branch, userEmail, stringify),
                [Call.CreatePull(branch, Publish.BaseBranch, PrTitle(docId, pending, dateText), PrBody(pending))]);
  }

  /** The partition and the two commits on the branch at the base tip. */
  method CommitPending(gh: GitHub, branch: string, base: string, pending: seq<TechDoc>, userEmail: string,
                       stringify: Json -> string)
    returns (r: Result<string, string>)
    requires UniqueIds(pending)
    requires branch != Publish.BaseBranch && base in gh.commits
    requires branch in gh.refs && gh.refs[branch] == base
    requires Publish.BaseBranch in gh.refs && gh.refs[Publish.BaseBranch] == base
    modifies gh`log, gh`trees, gh`commits, gh`refs
    ensures r.Ok? ==>
      var t0 := old(gh.commits[base]);
      && gh.refs == old(gh.refs)[branch := r.value]
      && DraftsOn(gh, branch, pending, stringify)
      && r.value == RouteTip(gh, base, t0, pending, userEmail, stringify)
      && gh.log == old(gh.log) + RouteCommitCalls(gh, base, t0, pending, branch, userEmail, stringify)
  {
    ghost var t0 := gh.commits[base];
    assert gh.RefTree(Publish.BaseBranch) == Some(t0);
    var groups := Partition(gh, pending);
    if groups.Err? {
      return Err(groups.error);
    }
    var (nonConflicting, conflicting) := groups.value;
    GroupsDisjoint(Some(t0), pending);
    ghost var log1 := gh.log;
    r := CommitAsUser(gh, branch, base, pending, nonConflicting, conflicting, userEmail, stringify);
    if r.Ok? {
      AppendAssoc(old(gh.log), Lookups(pending), gh.log[|log1|..]);
    }
  }

  /** Two groups with unique ids, disjoint by id, that cover the pending
      drafts. */
  predicate GroupsOf(pending: seq<TechDoc>, nonConflicting: seq<TechDoc>, conflicting: seq<TechDoc>) {
    && UniqueIds(nonConflicting) && UniqueIds(conflicting)
    && (forall d :: d in pending ==> d in nonConflicting || d in conflicting)
    && (forall x, y :: x in nonConflicting && y in conflicting ==> x.id != y.id)
  }

  /** The two commits with the route's messages, signed off by the user. */
  method CommitAsUser(gh: GitHub, branch: string, base: string, pending: seq<TechDoc>,
                      nonConflicting: seq<TechDoc>, conflicting: seq<TechDoc>, userEmail: string, stringify: Json -> string)
    returns (r: Result<string, string>)
    requires GroupsOf(pending, nonConflicting, conflicting)
    requires branch in gh.refs && gh.refs[branch] == base && base in gh.commits
    modifies gh`log, gh`trees, gh`commits, gh`refs
    ensures r.Ok? ==> gh.refs == old(gh.refs)[branch := r.value] && DraftsOn(gh, branch, pending, stringify)
    ensures r.Ok? ==>
      && r.value == BothTip(gh, base, old(gh.commits[base]), nonConflicting, conflicting,
                            NonConflictingMessage(userEmail), ConflictingMessage(userEmail), stringify)
      && gh.log == old(gh.log) + BothCalls(gh, branch, base, old(gh.commits[base]), nonConflicting, conflicting,
                                           NonConflictingMessage(userEmail), ConflictingMessage(userEmail), stringify)
  {
    r := CommitBoth(gh, branch, base, pending, nonConflicting, conflicting,
                    NonConflictingMessage(userEmail), ConflictingMessage(userEmail), stringify);
  }

  /** `pulls.create` with the route's title and body. */
  method OpenPull(gh: GitHub, branch: string, docId: Option<string>, pending: seq<TechDoc>, dateText: string)
    returns (r: Result<Pull, string>)
    modifies gh`log, gh`pulls
    ensures r.Ok? ==> r.value in gh.pulls && r.value.head == branch && r.value.base == Publish.BaseBranch && r.value.state == "open"
    ensures gh.log == old(gh.log) + [Call.CreatePull(branch, Publish.BaseBranch, PrTitle(docId, pending, dateText), PrBody(pending))]
  {
    r := gh.CreatePull(branch, Publish.BaseBranch, PrTitle(docId, pending, dateText), PrBody(pending));
  }

  /** An overlay whose items all miss path p leaves p's entry alone. */
  lemma {:induction false} OverlayKeeps(base: Tree, items: seq<TreeItem>, sha1: seq<Byte> -> string, p: string)
    requires forall j :: 0 <= j < |items| ==> items[j].path != p
    ensures var t := Overlay(base, items, sha1);
      && FindEntry(t, p) == FindEntry(base, p)
      && (FindEntry(base, p) >= 0 ==> t[FindEntry(base, p)] == base[FindEntry(base, p)])
  {
    if items != [] {
      var init := items[..|items| - 1];
      OverlayKeeps(base, init, sha1, p);
      var t0 := Overlay(base, init, sha1);
      var e := ItemBlob(items[|items| - 1], sha1);
      var i0 := FindEntry(t0, e.path);
      var t := Overlay(base, items, sha1);
      if i0 >= 0 {
        assert t == t0[i0 := e];
        FindEntryUpdate(t0, i0, e, p);
      } else {
        assert t == t0 + [e];
        assert t[..|t| - 1] == t0;
      }
    }
  }

  /** The tree holds the draft's blob at its path. */
  ghost predicate Holds(t: Tree, d: TechDoc, stringify: Json -> string, sha1: seq<Byte> -> string) {
    var i := FindEntry(t, TechPath(d.id));
    i >= 0 && t[i] == TreeEntry(TechPath(d.id), Blob, ComputeBlobSha(stringify(d.draft), sha1))
  }

  /** Committing a group puts each of its drafts in the tree. */
  lemma GroupHolds(base: Tree, group: seq<TechDoc>, stringify: Json -> string, sha1: seq<Byte> -> string, d: TechDoc)
    requires UniqueIds(group) && d in group
    ensures Holds(Overlay(base, TechItems(group, stringify), sha1), d, stringify, sha1)
  {
    var k :| 0 <= k < |group| && group[k] == d;
    var items := TechItems(group, stringify);
    forall j | k < j < |items| ensures items[j].path != items[k].path {
      TechPathInjective(group[j].id, group[k].id);
    }
    OverlayLookup(base, items, sha1, k);
  }

  /** Committing a group keeps the drafts of other ids in the tree. */
  lemma OtherHolds(base: Tree, group: seq<TechDoc>, stringify: Json -> string, sha1: seq<Byte> -> string, d: TechDoc)
    requires Holds(base, d, stringify, sha1)
    requires forall x :: x in group ==> x.id != d.id
    ensures Holds(Overlay(base, TechItems(group, stringify), sha1), d, stringify, sha1)
  {
    var items := TechItems(group, stringify);
    forall j | 0 <= j < |items| ensures items[j].path != TechPath(d.id) {
      assert group[j] in group;
      TechPathInjective(group[j].id, d.id);
    }
    OverlayKeeps(base, items, sha1, TechPath(d.id));
  }

  /** The non-conflicting and the conflicting group, committed one after
      the other, leave every pending draft in the final tree. */
  lemma BothHold(t0: Tree, t1: Tree, tf: Tree, pending: seq<TechDoc>, nonConflicting: seq<TechDoc>,
                 conflicting: seq<TechDoc>, stringify: Json -> string, sha1: seq<Byte> -> string)
    requires UniqueIds(nonConflicting) && UniqueIds(conflicting)
    requires forall d :: d in pending ==> d in nonConflicting || d in conflicting
    requires forall x, y :: x in nonConflicting && y in conflicting ==> x.id != y.id
    requires Extends(t0, t1, nonConflicting, stringify, sha1) && Extends(t1, tf, conflicting, stringify, sha1)
    ensures forall d :: d in pending ==> Holds(tf, d, stringify, sha1)
  {
    forall d | d in pending ensures Holds(tf, d, stringify, sha1) {
      if d in conflicting {
        GroupHolds(t1, conflicting, stringify, sha1, d);
      } else {
        GroupHolds(t0, nonConflicting, stringify, sha1, d);
        if conflicting != [] {
          OtherHolds(t1, conflicting, stringify, sha1, d);
        }
      }
    }
  }

  /** The two groups of a partition of records with unique ids cover it and
      share no id. */
  lemma GroupsDisjoint(main: Option<Tree>, pending: seq<TechDoc>)
    requires UniqueIds(pending)
    ensures UniqueIds(Group(main, pending, false)) && UniqueIds(Group(main, pending, true))
    ensures forall d :: d in pending ==> d in Group(main, pending, false) || d in Group(main, pending, true)
    ensures forall x, y :: x in Group(main, pending, false) && y in Group(main, pending, true) ==> x.id != y.id
  {
    GroupUnique(main, pending, false);
    GroupUnique(main, pending, true);
    GroupMembers(main, pending, false);
    GroupMembers(main, pending, true);
    forall x, y | x in Group(main, pending, false) && y in Group(main, pending, true) ensures x.id != y.id {
      var i :| 0 <= i < |pending| && pending[i] == x;
      var j :| 0 <= j < |pending| && pending[j] == y;
      assert i != j;
    }
  }

  /** Drafts held by the tree at a branch's tip are what lookups on it see. */
  lemma HoldsOn(gh: GitHub, branch: string, drafts: seq<TechDoc>, stringify: Json -> string)
    requires branch in gh.refs && gh.refs[branch] in gh.commits
    requires forall d :: d in drafts ==> Holds(gh.commits[gh.refs[branch]], d, stringify, gh.sha1)
    ensures DraftsOn(gh, branch, drafts, stringify)
  {
  }

  /** The two commits: the non-conflicting group on the base tip, then the
      conflicting group on top; every draft ends up on the branch. */
  method CommitBoth(gh: GitHub, branch: string, base: string, pending: seq<TechDoc>,
                    nonConflicting: seq<TechDoc>, conflicting: seq<TechDoc>, message1: string, message2: string,
                    stringify: Json -> string)
    returns (r: Result<string, string>)
    requires GroupsOf(pending, nonConflicting, conflicting)
    requires branch in gh.refs && gh.refs[branch] == base && base in gh.commits
    modifies gh`log, gh`trees, gh`commits, gh`refs
    ensures r.Ok? ==> gh.refs == old(gh.refs)[branch := r.value] && DraftsOn(gh, branch, pending, stringify)
    ensures r.Ok? ==>
      && r.value == BothTip(gh, base, old(gh.commits[base]), nonConflicting, conflicting, message1, message2, stringify)
      && gh.log == old(gh.log) + BothCalls(gh, branch, base, old(gh.commits[base]), nonConflicting, conflicting,
                                           message1, message2, stringify)
  {
    ghost var refs0 := gh.refs;
    ghost var t0 := gh.commits[base];
    var tip1 := CommitGroup(gh, branch, base, nonConflicting, message1, stringify);
    if tip1.Err? {
      return Err(tip1.error);
    }
    ghost var t1 := gh.commits[tip1.value];
    ghost var calls1 := gh.log[|old(gh.log)|..];
    var tip2 := CommitGroup(gh, branch, tip1.value, conflicting, message2, stringify);
    if tip2.Err? {
      return Err(tip2.error);
    }
    r := tip2;
    AppendAssoc(old(gh.log), calls1, GroupCalls(gh, branch, tip1.value, t1, conflicting, message2, stringify));
    MoveTwice(refs0, branch, tip1.value, tip2.value);
    BothHold(t0, t1, gh.commits[tip2.value], pending, nonConflicting, conflicting, stringify, gh.sha1);
    HoldsOn(gh, branch, pending, stringify);
  }
}
