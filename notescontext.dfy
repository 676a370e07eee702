/** The release-notes editor state (the provider behind the release-notes
    page). Its state changes only in the handlers below; every server reply
    a handler awaits is a parameter, so each handler is one atomic step.
    Each handler is specified by a transition function on `EditorView`, the
    state as a value, and the properties of the editor are proved about
    those functions. */
module ReleaseNotesEditor {
  import opened Wrappers
  import GitHubApi
  import TreeSync
  import DocActions

  /** A note as the client reads it: `null` and `undefined` are `None`. */
  datatype NoteView = NoteView(
    docsflowData: Option<string>,
    githubData: Option<string>,
    status: Option<string>,
    lastUpdatedBy: Option<string>,
    lastUpdate: Option<int>,
    history: seq<DocActions.HistoryEntry>)

  /** Who made the pending remote change, and when. */
  datatype UpdateMeta = UpdateMeta(lastUpdatedBy: Option<string>, lastUpdate: Option<int>)

  /** What the tree request answered: a snapshot (perhaps without a
      tree), or a failure. */
  datatype TreeReply = TreeLoaded(tree: Option<seq<TreeSync.TreeItem>>) | TreeFailed

  /** The whole editor state as a value. */
  datatype EditorView = EditorView(
    tree: seq<TreeSync.TreeItem>,
    selectedPath: Option<string>,
    selectedContent: string,
    githubContent: Option<string>,
    docsflowContent: Option<string>,
    status: Option<string>,
    lastUpdatedBy: Option<string>,
    lastUpdatedAt: Option<int>,
    history: seq<DocActions.HistoryEntry>,
    isLoading: bool,
    isLoadingContent: bool,
    isPublishing: bool,
    error: Option<string>,
    incomingUpdate: Option<string>,
    incomingMeta: Option<UpdateMeta>)

  const TreeError := "Failed to load release notes tree"
  const ModifiedStatus := "modified"

  /** `a ?? b`. */
  function Coalesce<T>(a: Option<T>, b: Option<T>): Option<T> {
    if a.Some? then a else b
  }

  /** `isDirty`: there is typed content, a saved draft, and they differ. */
  predicate IsDirty(v: EditorView) {
    v.selectedContent != "" && v.docsflowContent.Some? && v.selectedContent != v.docsflowContent.value
  }

  /** `fetchContent`: the pending update is dropped; a loaded note shows
      its draft, else its GitHub text, else nothing. */
  function Load(v: EditorView, doc: Option<NoteView>): (w: EditorView)
    ensures w.incomingUpdate.None? && !w.isLoadingContent
    ensures doc.None? ==> w == v.(incomingUpdate := None, isLoadingContent := false)
    ensures doc.Some? ==>
      && w.docsflowContent == doc.value.docsflowData
      && w.githubContent == doc.value.githubData
      && w.selectedContent == (if doc.value.docsflowData.Some? then doc.value.docsflowData.value
                               else if doc.value.githubData.Some? then doc.value.githubData.value else "")
      && !IsDirty(w)
    ensures w.selectedPath == v.selectedPath && w.isPublishing == v.isPublishing && w.tree == v.tree
  {
    var cleared := v.(incomingUpdate := None, isLoadingContent := false);
    if doc.None? then cleared else Show(cleared, doc.value)
  }

  /** The fields a loaded note sets. */
  function Show(v: EditorView, d: NoteView): EditorView {
    v.(docsflowContent := d.docsflowData, githubContent := d.githubData, status := d.status,
       lastUpdatedBy := d.lastUpdatedBy, lastUpdatedAt := d.lastUpdate, selectedContent := Shown(d),
       history := d.history)
  }

  /** The text a loaded note shows: its draft, else its GitHub text, else
      nothing. */
  function Shown(d: NoteView): string {
    if d.docsflowData.Some? then d.docsflowData.value else if d.githubData.Some? then d.githubData.value else ""
  }

  /** `setSelectedPath`: a new path is selected and loaded; the selected
      one again changes nothing. */
  function Select(v: EditorView, path: string, doc: Option<NoteView>): (w: EditorView)
    ensures v.selectedPath == Some(path) ==> w == v
    ensures v.selectedPath != Some(path) ==> w.selectedPath == Some(path) && w == Load(v.(selectedPath := Some(path)), doc)
  {
    if v.selectedPath == Some(path) then v else Load(v.(selectedPath := Some(path)), doc)
  }

  /** The text `save` sends, or nothing when it refuses: no path is
      selected, or a remote update is waiting to be merged. */
  function SaveRequest(v: EditorView, contentOverride: Option<string>): (r: Option<string>)
    ensures r.Some? <==> GitHubApi.Truthy(v.selectedPath) && v.incomingUpdate.None?
    ensures r.Some? ==> r.value == if contentOverride.Some? then contentOverride.value else v.selectedContent
  {
    if !GitHubApi.Truthy(v.selectedPath) || v.incomingUpdate.Some? then None
    else Some(Coalesce(contentOverride, Some(v.selectedContent)).value)
  }

  /** `save`: with the server's reply (`None` when the save failed), the
      new state and whether the save succeeded. A refused or failed save
      changes nothing. */
  function AfterSave(v: EditorView, contentOverride: Option<string>, reply: Option<NoteView>): (r: (EditorView, bool))
    ensures r.1 <==> SaveRequest(v, contentOverride).Some? && reply.Some?
    ensures !r.1 ==> r.0 == v
    ensures r.1 ==>
      var sent := SaveRequest(v, contentOverride).value;
      && r.0.selectedContent == sent
      && r.0.status == Some(if reply.value.status.Some? then reply.value.status.value else ModifiedStatus)
      && (reply.value.docsflowData.None? || reply.value.docsflowData == Some(sent) ==> !IsDirty(r.0))
      && r.0.selectedPath == v.selectedPath && r.0.incomingUpdate == v.incomingUpdate
  {
    var request := SaveRequest(v, contentOverride);
    if request.None? || reply.None? then (v, false)
    else
      var sent := request.value;
      var d := reply.value;
      (Adopt(v, d, sent), true)
  }

  /** The fields a successful save sets from the server's reply. */
  function Adopt(v: EditorView, d: NoteView, sent: string): EditorView {
    v.(history := d.history, docsflowContent := Coalesce(d.docsflowData, Some(sent)),
       status := Coalesce(d.status, Some(ModifiedStatus)), lastUpdatedBy := d.lastUpdatedBy,
       lastUpdatedAt := d.lastUpdate, selectedContent := sent)
  }

  /** Whether `publish` sends its request: a path is selected, no remote
      update is pending and no publish is in flight. */
  predicate PublishAllowed(v: EditorView) {
    GitHubApi.Truthy(v.selectedPath) && v.incomingUpdate.None? && !v.isPublishing
  }

  /** The start of `publish`: it is marked in flight when allowed. */
  function AfterStartPublish(v: EditorView): (w: EditorView)
    ensures PublishAllowed(v) ==> w == v.(isPublishing := true)
    ensures !PublishAllowed(v) ==> w == v
  {
    if PublishAllowed(v) then v.(isPublishing := true) else v
  }

  /** The end of `publish`: the note is reloaded after a successful
      request, and the in-flight mark is cleared on every outcome. */
  function AfterFinishPublish(v: EditorView, succeeded: bool, reload: Option<NoteView>): (w: EditorView)
    ensures !w.isPublishing
    ensures succeeded ==> w == Load(v, reload).(isPublishing := false)
    ensures !succeeded ==> w == v.(isPublishing := false)
  {
    (if succeeded then Load(v, reload) else v).(isPublishing := false)
  }

  /** `resolveIncomingUpdate`: the merged draft becomes the base and the
      editor content; the pending update and its metadata are cleared. */
  function Resolve(v: EditorView, newDocsflowData: string, newSelectedContent: string): (w: EditorView)
    ensures w.docsflowContent == Some(newDocsflowData) && w.selectedContent == newSelectedContent
    ensures w.incomingUpdate.None? && w.incomingMeta.None?
    ensures v.incomingMeta.Some? && v.incomingMeta.value.lastUpdatedBy.Some? ==> w.lastUpdatedBy == v.incomingMeta.value.lastUpdatedBy
    ensures v.incomingMeta.None? ==> w.lastUpdatedBy == v.lastUpdatedBy && w.lastUpdatedAt == v.lastUpdatedAt
    ensures w.selectedPath == v.selectedPath && w.isPublishing == v.isPublishing
  {
    v.(docsflowContent := Some(newDocsflowData), lastUpdatedBy := MetaEditor(v), lastUpdatedAt := MetaTime(v),
       selectedContent := newSelectedContent, incomingUpdate := None, incomingMeta := None)
  }

  /** `incomingUpdateMeta?.last_updated_by ?? lastUpdatedBy`. */
  function MetaEditor(v: EditorView): Option<string> {
    if v.incomingMeta.Some? then Coalesce(v.incomingMeta.value.lastUpdatedBy, v.lastUpdatedBy) else v.lastUpdatedBy
  }

  /** `incomingUpdateMeta?.last_update_timestamp ?? lastUpdatedAt`. */
  function MetaTime(v: EditorView): Option<int> {
    if v.incomingMeta.Some? then Coalesce(v.incomingMeta.value.lastUpdate, v.lastUpdatedAt) else v.lastUpdatedAt
  }

  /** `null` read as the empty text. */
  function TextOrEmpty(o: Option<string>): string {
    if o.Some? then o.value else ""
  }

  /** The live-update rule: a change to the selected note whose draft
      differs from the base draft (`null` read as "") becomes the pending
      update; an unchanged draft, another note or a failed read is
      ignored. */
  function RemoteChange(v: EditorView, path: string, doc: Option<NoteView>): (w: EditorView)
    ensures w == v || (w.incomingUpdate.Some? && w.incomingMeta.Some?)
    ensures w != v <==>
      && v.selectedPath == Some(path) && path != "" && doc.Some?
      && TextOrEmpty(doc.value.docsflowData) != TextOrEmpty(v.docsflowContent)
      && (v.incomingUpdate != Some(TextOrEmpty(doc.value.docsflowData))
          || v.incomingMeta != Some(UpdateMeta(doc.value.lastUpdatedBy, doc.value.lastUpdate)))
    ensures w != v ==>
      w == v.(incomingUpdate := Some(TextOrEmpty(doc.value.docsflowData)),
              incomingMeta := Some(UpdateMeta(doc.value.lastUpdatedBy, doc.value.lastUpdate)))
  {
    if v.selectedPath != Some(path) || path == "" || doc.None? then v
    else
      var remote := TextOrEmpty(doc.value.docsflowData);
      if remote == TextOrEmpty(v.docsflowContent) then v
      else v.(incomingUpdate := Some(remote), incomingMeta := Some(UpdateMeta(doc.value.lastUpdatedBy, doc.value.lastUpdate)))
  }

  /** `fetchTree`: a tree replaces the shown one, a failure sets the
      error, and loading ends either way. */
  function LoadTree(v: EditorView, reply: TreeReply): (w: EditorView)
    ensures !w.isLoading
    ensures reply.TreeLoaded? && reply.tree.Some? ==> w.tree == reply.tree.value
    ensures reply.TreeFailed? ==> w.tree == v.tree && w.error == Some(TreeError)
    ensures w.selectedContent == v.selectedContent && w.incomingUpdate == v.incomingUpdate
  {
    match reply
    case TreeLoaded(t) => v.(tree := if t.Some? then t.value else v.tree, isLoading := false)
    case TreeFailed => v.(error := Some(TreeError), isLoading := false)
  }

  /** A pending remote update blocks saving and publishing until it is
      resolved, after which both are allowed again for a selected note. */
  lemma PendingUpdateGatesSave(v: EditorView, path: string, doc: NoteView, merged: string, content: string,
                               contentOverride: Option<string>, reply: Option<NoteView>)
    requires RemoteChange(v, path, Some(doc)) != v
    ensures var pending := RemoteChange(v, path, Some(doc));
      && SaveRequest(pending, contentOverride).None?
      && AfterSave(pending, contentOverride, reply) == (pending, false)
      && AfterStartPublish(pending) == pending
      && var resolved := Resolve(pending, merged, content);
      && SaveRequest(resolved, contentOverride).Some?
      && (!v.isPublishing ==> PublishAllowed(resolved))
  {
    var pending := RemoteChange(v, path, Some(doc));
    assert pending.selectedPath == Some(path) && path != "";
  }

  /** A save echoed back by the live stream is not reported as a remote
      update: after a save whose reply carries the saved text, the change
      notification of that same record is ignored. */
  lemma SaveEchoIgnored(v: EditorView, contentOverride: Option<string>, reply: NoteView, echo: NoteView)
    requires AfterSave(v, contentOverride, Some(reply)).1
    requires reply.docsflowData.None? || reply.docsflowData == Some(SaveRequest(v, contentOverride).value)
    requires echo.docsflowData == Some(SaveRequest(v, contentOverride).value)
    ensures var saved := AfterSave(v, contentOverride, Some(reply)).0;
      RemoteChange(saved, v.selectedPath.value, Some(echo)) == saved
  {
    var saved := AfterSave(v, contentOverride, Some(reply)).0;
    assert saved.docsflowContent == Some(SaveRequest(v, contentOverride).value);
  }

  /** A publish started while another is in flight sends nothing. */
  lemma PublishOnceInFlight(v: EditorView)
    requires PublishAllowed(v)
    ensures var started := AfterStartPublish(v);
      started.isPublishing && !PublishAllowed(started) && AfterStartPublish(started) == started
  {
  }

  /** The provider. */
  class ReleaseNotesState {
    var tree: seq<TreeSync.TreeItem>
    var selectedPath: Option<string>
    var selectedContent: string
    var githubContent: Option<string>
    var docsflowContent: Option<string>
    var status: Option<string>
    var lastUpdatedBy: Option<string>
    var lastUpdatedAt: Option<int>
    var history: seq<DocActions.HistoryEntry>
    var isLoading: bool
    var isLoadingContent: bool
    var isPublishing: bool
    var error: Option<string>
    var incomingUpdate: Option<string>
    var incomingMeta: Option<UpdateMeta>

    /** The state as a value. */
    function View(): EditorView
      reads this
    {
      EditorView(tree, selectedPath, selectedContent, githubContent, docsflowContent, status, lastUpdatedBy,
                 lastUpdatedAt, history, isLoading, isLoadingContent, isPublishing, error, incomingUpdate, incomingMeta)
    }

    /** The initial state: nothing selected, the tree loading. */
    constructor ()
      ensures View() == EditorView([], None, "", None, None, None, None, None, [], true, false, false, None, None, None)
    {
      tree, selectedPath, selectedContent, githubContent, docsflowContent := [], None, "", None, None;
      status, lastUpdatedBy, lastUpdatedAt, history := None, None, None, [];
      isLoading, isLoadingContent, isPublishing, error := true, false, false, None;
      incomingUpdate, incomingMeta := None, None;
    }

    /** `fetchContent`, with the note the server returned. The loading
        flag it raises while the request is out is lowered again in the
        same step. */
    method FetchContent(doc: Option<NoteView>)
      modifies this
      ensures View() == Load(old(View()), doc)
    {
      incomingUpdate, isLoadingContent := None, false;
      if doc.Some? {
        ShowNote(doc.value);
      }
    }

    /** The fields a loaded note sets. */
    method ShowNote(d: NoteView)
      modifies this
      ensures View() == Show(old(View()), d)
    {
      ghost var v := View();
      docsflowContent := d.docsflowData;
      githubContent := d.githubData;
      status := d.status;
      lastUpdatedBy := d.lastUpdatedBy;
      lastUpdatedAt := d.lastUpdate;
      selectedContent := Shown(d);
      history := d.history;
      assert View() == Show(v, d);
    }

    /** `setSelectedPath`, with the note the load returns. */
    method SetSelectedPath(path: string, doc: Option<NoteView>)
      modifies this
      ensures View() == Select(old(View()), path, doc)
    {
      if Some(path) != selectedPath {
        selectedPath := Some(path);
        FetchContent(doc);
      }
    }

    /** `setContent`: the editor's text. */
    method SetContent(content: string)
      modifies this
      ensures View() == old(View()).(selectedContent := content)
    {
      selectedContent := content;
    }

    /** `save`, with the server's reply (`None` when the save failed). */
    method Save(contentOverride: Option<string>, reply: Option<NoteView>) returns (saved: bool)
      modifies this
      ensures (View(), saved) == AfterSave(old(View()), contentOverride, reply)
    {
      if !GitHubApi.Truthy(selectedPath) {
        return false;
      }
      if incomingUpdate.Some? {
        return false;
      }
      var contentToSave := if contentOverride.Some? then contentOverride.value else selectedContent;
      if reply.None? {
        return false;
      }
      AdoptSaved(reply.value, contentToSave);
      saved := true;
    }

    /** The fields a successful save sets from the server's reply. */
    method AdoptSaved(d: NoteView, contentToSave: string)
      modifies this
      ensures View() == Adopt(old(View()), d, contentToSave)
    {
      history := d.history;
      docsflowContent := Coalesce(d.docsflowData, Some(contentToSave));
      status := Coalesce(d.status, Some(ModifiedStatus));
      lastUpdatedBy := d.lastUpdatedBy;
      lastUpdatedAt := d.lastUpdate;
      selectedContent := contentToSave;
    }

    /** The start of `publish`: whether the request is sent. */
    method StartPublish() returns (sent: bool)
      modifies this
      ensures sent <==> PublishAllowed(old(View()))
      ensures View() == AfterStartPublish(old(View()))
    {
      if !GitHubApi.Truthy(selectedPath) || incomingUpdate.Some? || isPublishing {
        return false;
      }
      isPublishing := true;
      sent := true;
    }

    /** The end of `publish`, with whether the request succeeded and the
      note reloaded after it. */
    method FinishPublish(succeeded: bool, reload: Option<NoteView>)
      modifies this
      ensures View() == AfterFinishPublish(old(View()), succeeded, reload)
    {
      if succeeded {
        FetchContent(reload);
      }
      isPublishing := false;
    }

    /** `resolveIncomingUpdate`. */
    method ResolveIncomingUpdate(newDocsflowData: string, newSelectedContent: string)
      modifies this
      ensures View() == Resolve(old(View()), newDocsflowData, newSelectedContent)
    {
      var v := View();
      docsflowContent := Some(newDocsflowData);
      lastUpdatedBy := MetaEditor(v);
      lastUpdatedAt := MetaTime(v);
      selectedContent := newSelectedContent;
      incomingUpdate := None;
      incomingMeta := None;
    }

    /** A change notification for `path`, with the record read back. */
    method OnRemoteChange(path: string, doc: Option<NoteView>)
      modifies this
      ensures View() == RemoteChange(old(View()), path, doc)
    {
      if selectedPath != Some(path) || path == "" || doc.None? {
        return;
      }
      var remoteDocsflowData := TextOrEmpty(doc.value.docsflowData);
      var baseDocsflowData := TextOrEmpty(docsflowContent);
      if remoteDocsflowData == baseDocsflowData {
        return;
      }
      incomingUpdate := Some(remoteDocsflowData);
      incomingMeta := Some(UpdateMeta(doc.value.lastUpdatedBy, doc.value.lastUpdate));
    }

    /** `fetchTree`, with the server's reply. */
    method FetchTree(reply: TreeReply)
      modifies this
      ensures View() == LoadTree(old(View()), reply)
    {
      isLoading := true;
      if reply.TreeFailed? {
        error := Some(TreeError);
      } else if reply.tree.Some? {
        tree := reply.tree.value;
      }
      isLoading := false;
    }
  }
}
