/** The release-notes server actions: the tree and content of the
    release-notes directory, and the save of an edited note, whose history
    entry records a short preview of the text before and after. */
module ReleaseNoteActions {
  import opened Wrappers
  import opened Json
  import opened Text
  import Config
  import TreeSync
  import GitHubApi
  import DocActions

  const PreviewLength := 100
  const Ellipsis := "..."
  const NoText := "none"

  /** `a === b` with `a` possibly `undefined`: primitives compare by
      value; an array or object is never identical to a freshly built
      value. */
  predicate StrictEquals(a: Option<Json>, b: Json) {
    a.Some? && a.value == b && !b.IsObject()
  }

  /** The first hundred characters of a string followed by "...", and
      "none" for anything that is not a string. */
  function Preview(v: Option<Json>): (p: string)
    ensures v.Some? && v.value.Str? ==>
      && |p| <= PreviewLength + |Ellipsis|
      && EndsWith(p, Ellipsis)
      && StartsWith(v.value.s, p[..|p| - |Ellipsis|])
      && (|v.value.s| <= PreviewLength ==> p == v.value.s + Ellipsis)
    ensures !(v.Some? && v.value.Str?) ==> p == NoText
  {
    if v.Some? && v.value.Str? then
      var s := v.value.s;
      var head := if |s| <= PreviewLength then s else s[..PreviewLength];
      assert (head + Ellipsis)[..|head|] == head;
      head + Ellipsis
    else NoText
  }

  /** `computeSimpleDiff`: no change (`null`) exactly when the new value is
      identical to the old one; otherwise a `content` object whose `from`
      and `to` are previews of the two values. */
  function ComputeSimpleDiff(previous: Option<Json>, next: Json): (d: Json)
    ensures d == Null <==> StrictEquals(previous, next)
    ensures d != Null ==>
      && Get(d, "content").Some?
      && Get(Get(d, "content").value, "from") == Some(Str(Preview(previous)))
      && Get(Get(d, "content").value, "to") == Some(Str(Preview(Some(next))))
  {
    if StrictEquals(previous, next) then Null
    else
      var content := Obj([("from", Str(Preview(previous))), ("to", Str(Preview(Some(next))))]);
      assert Keys(content) == ["from", "to"];
      Obj([("content", content)])
  }

  /** Two edits of the same note whose texts share their first hundred
      characters are recorded with the same change. */
  lemma PreviewHidesTail(previous: Option<Json>, a: string, b: string)
    requires |a| >= PreviewLength && |b| >= PreviewLength && a[..PreviewLength] == b[..PreviewLength]
    requires !StrictEquals(previous, Str(a)) && !StrictEquals(previous, Str(b))
    ensures ComputeSimpleDiff(previous, Str(a)) == ComputeSimpleDiff(previous, Str(b))
  {
    assert Preview(Some(Str(a))) == a[..PreviewLength] + Ellipsis;
    assert Preview(Some(Str(b))) == b[..PreviewLength] + Ellipsis;
  }

  /** `getReleaseNotesTree`. */
  method GetReleaseNotesTree(store: TreeSync.TreeStore, git: TreeSync.Git, now: int)
    returns (r: Result<Option<TreeSync.DocTree>, TreeSync.TreeSyncError>)
    modifies store
    ensures Config.ReleaseNotesPath in old(store.trees) ==>
      r == Ok(Some(old(store.trees)[Config.ReleaseNotesPath])) && store.trees == old(store.trees)
    ensures Config.ReleaseNotesPath !in old(store.trees) ==>
      var s := TreeSync.Snapshot(git, Config.ReleaseNotesPath, now);
      && (s.Err? ==> r == Err(s.error))
      && (s.Ok? ==> r == s)
  {
    r := DocActions.FetchDocTree(store, git, Config.ReleaseNotesPath, now);
  }

  /** `syncReleaseNotes`. */
  method SyncReleaseNotes(store: TreeSync.TreeStore, git: TreeSync.Git, now: int) returns (success: bool)
    modifies store
    ensures success <==> TreeSync.Snapshot(git, Config.ReleaseNotesPath, now).Ok?
  {
    success := DocActions.SyncDocTree(store, git, Config.ReleaseNotesPath, now);
  }

  /** `getReleaseNoteContent`. */
  method GetReleaseNoteContent(store: DocActions.DocStore, api: GitHubApi.Api, path: string, parseDate: string -> int,
                               now: int) returns (r: Result<Option<DocActions.Doc>, DocActions.DocError>)
    modifies store
    ensures r == DocActions.ContentOf(old(store.docs), api, path, parseDate, now)
    ensures store.docs == DocActions.AfterContent(old(store.docs), api, path, parseDate, now)
  {
    r := DocActions.FetchDocContent(store, api, path, parseDate, now);
  }

  /** `updateReleaseNote`: the note's draft becomes the text, and the
      history entry records the simple diff against the previous draft. */
  method UpdateReleaseNote(store: DocActions.DocStore, path: string, content: string,
                           session: Option<DocActions.SessionUser>, now: int, accepted: bool)
    returns (r: DocActions.SaveOutcome)
    modifies store
    ensures r.SaveFailed? <==> !accepted
    ensures accepted ==>
      r.doc == DocActions.Saved(if path in old(store.docs) then Some(old(store.docs)[path]) else None,
                                path, Str(content), ComputeSimpleDiff, session, now)
      && r.doc.docsflowData == Str(content)
      && store.docs == old(store.docs)[path := r.doc]
    ensures !accepted ==> store.docs == old(store.docs)
  {
    r := DocActions.SaveDocContent(store, path, Str(content), ComputeSimpleDiff, session, now, accepted);
  }

  /** Saving a note with the text it already has records no change. */
  lemma ResaveRecordsNothing(existing: Option<DocActions.Doc>, path: string, content: string,
                             session: Option<DocActions.SessionUser>, now: int, later: int)
    ensures var first := DocActions.Saved(existing, path, Str(content), ComputeSimpleDiff, session, now);
      var second := DocActions.Saved(Some(first), path, Str(content), ComputeSimpleDiff, session, later);
      second.history[|second.history| - 1].changes == Null
  {
    var first := DocActions.Saved(existing, path, Str(content), ComputeSimpleDiff, session, now);
    assert DocActions.PreviousDraft(Some(first)) == Some(Str(content));
  }
}
