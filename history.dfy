/** Replaying a document's edit history of line patches, and the verdict
    on whether the replay reproduces the current draft. The date parser
    (`new Date(s).getTime()`) and node-diff3's `patch` are parameters. */
module History {
  import opened Wrappers
  import opened Text
  import opened Json
  import Sorting
  import opened Diff3

  /** A history entry's `timestamp` as stored: absent or otherwise falsy,
      a string, a `Date`, an extended-JSON `{ $date: string }` wrapper, or
      any other value. */
  datatype Stamp =
    | NoStamp
    | StampString(s: string)
    | StampDate(ms: int)
    | StampWrapped(date: string)
    | OtherStamp

  /** An element of the `history` array: `null`, or a record with its
      timestamp, its `changes` (absent or null is `None`), and its own
      `type`, `lineSeparator` and `patch` fields read as a change record,
      for arrays that hold the change records themselves. */
  datatype Entry =
    | Missing
    | Entry(timestamp: Stamp, changes: Option<LinePatch>, fields: LinePatch)

  type DateParser = string -> int
  type Patcher = (seq<string>, seq<Hunk>) -> seq<string>

  /** `String(n)` for an integer. */
  function NumberToString(n: int): (r: string)
    ensures |r| >= 1
  {
    if n < 0 then "-" + NatToString(-n) else NatToString(n)
  }

  /** `String(v)` for a value other than null or undefined. */
  function ToJsString(j: Json): string
    decreases Size(j)
  {
    match j
    case Null => "null"
    case Bool(b) => if b then "true" else "false"
    case Num(n) => NumberToString(n)
    case Str(s) => s
    case Arr(items) =>
      Join(seq(|items|, i requires 0 <= i < |items| =>
        var c := Child(j, i); if c == Null then "" else ToJsString(c)), ",")
    case Obj(_) => "[object Object]"
  }

  /** `coerceText(value)`: strings as they are, null and undefined as "",
      anything else through `String`. */
  function CoerceText(v: Json): (r: string)
    ensures v.Str? ==> r == v.s
    ensures v == Null ==> r == ""
  {
    match v
    case Str(s) => s
    case Null => ""
    case _ => ToJsString(v)
  }

  /** `normalizeText(text)`: `String(text ?? '')` with every "\r\n"
      replaced by "\n". */
  function NormalizeText(v: Json): (r: string)
    ensures |r| <= |CoerceText(v)|
  {
    ReplaceCrlf(if v == Null then "" else ToJsString(v))
  }

  /** `normalizeText` and `coerceText` agree on how a value becomes text. */
  lemma NormalizeCoerced(v: Json)
    ensures NormalizeText(v) == ReplaceCrlf(CoerceText(v))
    ensures v == Null ==> NormalizeText(v) == ""
  {
  }

  /** Text without "\r\n" is left as it is. */
  lemma {:induction false} PlainTextUnchanged(s: string)
    requires forall i :: 0 <= i < |s| - 1 ==> !(s[i] == '\r' && s[i + 1] == '\n')
    ensures ReplaceCrlf(s) == s
    decreases |s|
  {
    if |s| > 0 {
      PlainTextUnchanged(s[1..]);
    }
  }

  /** Normalising is not idempotent: "\r\r\n" becomes "\r\n", which a
      second pass turns into "\n". */
  lemma NormalizeNotIdempotent()
    ensures ReplaceCrlf("\r\r\n") == "\r\n"
    ensures ReplaceCrlf(ReplaceCrlf("\r\r\n")) == "\n"
  {
    assert "\r\r\n"[1..] == "\r\n";
    assert "\r\n"[2..] == "";
  }

  /** `extractTimestamp(entry)`: the time of a string or `$date`-wrapped
      timestamp as the parser reads it, a `Date`'s own time, and 0 for a
      missing entry, a falsy timestamp or any other value. */
  function ExtractTimestamp(e: Entry, parseDate: DateParser): (r: int)
    ensures e.Missing? ==> r == 0
    ensures e.Entry? && (e.timestamp.NoStamp? || e.timestamp.OtherStamp? || e.timestamp == StampString("")) ==> r == 0
    ensures e.Entry? && e.timestamp.StampDate? ==> r == e.timestamp.ms
  {
    match e
    case Missing => 0
    case Entry(ts, _, _) =>
      match ts
      case NoStamp => 0
      case StampString(s) => if s == "" then 0 else parseDate(s)
      case StampWrapped(d) => parseDate(d)
      case StampDate(ms) => ms
      case OtherStamp => 0
  }

  function ByTimestamp(parseDate: DateParser): (Entry, Entry) -> int {
    (a: Entry, b: Entry) => ExtractTimestamp(a, parseDate) - ExtractTimestamp(b, parseDate)
  }

  /** `sortHistoryByTimestamp(history)`: a copy of the history sorted by
      `extractTimestamp(a) - extractTimestamp(b)`. */
  function SortHistoryByTimestamp(h: seq<Entry>, parseDate: DateParser): (r: seq<Entry>)
    ensures multiset(r) == multiset(h)
  {
    Sorting.Sort(h, ByTimestamp(parseDate))
  }

  /** The sorted history is ordered by non-decreasing timestamp. */
  lemma SortedHistoryOrdered(h: seq<Entry>, parseDate: DateParser)
    ensures var r := SortHistoryByTimestamp(h, parseDate);
      forall i, j :: 0 <= i < j < |r| ==> ExtractTimestamp(r[i], parseDate) <= ExtractTimestamp(r[j], parseDate)
  {
    var cmp := ByTimestamp(parseDate);
    Sorting.KeyOrderIsTotalPreorder(h, cmp, (e: Entry) => ExtractTimestamp(e, parseDate));
    Sorting.SortSorted(h, cmp);
  }

  /** Entries with equal timestamps keep their relative order. */
  lemma SortedHistoryStable(h: seq<Entry>, parseDate: DateParser, t: int)
    ensures Sorting.WithKey(SortHistoryByTimestamp(h, parseDate), e => ExtractTimestamp(e, parseDate), t)
         == Sorting.WithKey(h, e => ExtractTimestamp(e, parseDate), t)
  {
    Sorting.SortStable(h, ByTimestamp(parseDate), e => ExtractTimestamp(e, parseDate), t);
  }

  /** A history recorded in timestamp order replays in that order. */
  lemma OrderedHistoryKept(h: seq<Entry>, parseDate: DateParser)
    requires forall i, j :: 0 <= i < j < |h| ==> ExtractTimestamp(h[i], parseDate) <= ExtractTimestamp(h[j], parseDate)
    ensures SortHistoryByTimestamp(h, parseDate) == h
  {
    Sorting.SortKeepsSorted(h, ByTimestamp(parseDate));
  }

  /** `entry?.changes || entry`: the change record an entry carries. */
  function ChangesOf(e: Entry): (r: Option<LinePatch>)
    ensures r.None? <==> e.Missing?
    ensures e.Entry? && e.changes.Some? ==> r == e.changes
  {
    match e
    case Missing => None
    case Entry(_, Some(c), _) => Some(c)
    case Entry(_, None, own) => Some(own)
  }

  /** Whether replay applies the entry: its change record has type
      "diffPatch". */
  predicate Applies(e: Entry) {
    ChangesOf(e).Some? && ChangesOf(e).value.kind == "diffPatch"
  }

  /** `changes.lineSeparator || '\n'`. */
  function Separator(c: LinePatch): (r: string)
    ensures |r| > 0
    ensures c.lineSeparator != "" ==> r == c.lineSeparator
  {
    if c.lineSeparator == "" then "\n" else c.lineSeparator
  }

  /** The text after one entry: unchanged when the entry is skipped,
      otherwise split on the separator, patched, and joined again. */
  function Step(current: string, e: Entry, patch: Patcher): string {
    if !Applies(e) then current
    else
      var c := ChangesOf(e).value;
      Join(patch(Split(current, Separator(c)), c.patch), Separator(c))
  }

  /** The text after replaying the entries in order; a history with no
      "diffPatch" record gives the original back. */
  function Replay(original: string, h: seq<Entry>, patch: Patcher): (r: string)
    ensures (forall i :: 0 <= i < |h| ==> !Applies(h[i])) ==> r == original
  {
    if h == [] then original else Step(Replay(original, h[..|h| - 1], patch), h[|h| - 1], patch)
  }

  /** `applyHistory(original, history)`. */
  method ApplyHistory(original: string, historyEntries: seq<Entry>, patch: Patcher) returns (current: string)
    ensures current == Replay(original, historyEntries, patch)
  {
    current := original;
    for i := 0 to |historyEntries|
      invariant current == Replay(original, historyEntries[..i], patch)
    {
      assert historyEntries[..i + 1][..i] == historyEntries[..i];
      var entry := historyEntries[i];
      var changes := ChangesOf(entry);
      if changes.None? || changes.value.kind != "diffPatch" {
        continue;
      }
      var separator := if changes.value.lineSeparator != "" then changes.value.lineSeparator else "\n";
      var currentLines := Split(current, separator);
      var nextLines := patch(currentLines, changes.value.patch);
      current := Join(nextLines, separator);
    }
    assert historyEntries[..|historyEntries|] == historyEntries;
  }

  lemma ReplayLast(x: string, h: seq<Entry>, patch: Patcher)
    requires h != []
    ensures Replay(x, h, patch) == Step(Replay(x, h[..|h| - 1], patch), h[|h| - 1], patch)
  {
  }

  /** Replaying nothing gives the original back. */
  lemma ReplayEmpty(x: string, patch: Patcher)
    ensures Replay(x, [], patch) == x
  {
  }

  /** An entry without a "diffPatch" change record leaves the text as it
      is; one with such a record splits on its separator, patches and
      re-joins with the same separator. */
  lemma ReplayAppend(x: string, h: seq<Entry>, e: Entry, patch: Patcher)
    ensures !Applies(e) ==> Replay(x, h + [e], patch) == Replay(x, h, patch)
    ensures Applies(e) ==>
      var c := ChangesOf(e).value;
      Replay(x, h + [e], patch) == Join(patch(Split(Replay(x, h, patch), Separator(c)), c.patch), Separator(c))
  {
    assert (h + [e])[..|h|] == h;
  }

  /** The record `createLinePatch` builds is never skipped, whatever the
      entry's own fields are. */
  lemma CreatedPatchApplies(oldText: string, newText: string, diffPatch: DiffPatch, ts: Stamp, own: LinePatch)
    requires CreateLinePatch(oldText, newText, diffPatch).Some?
    ensures Applies(Entry(ts, CreateLinePatch(oldText, newText, diffPatch), own))
  {
  }

  /** What node-diff3 promises of a patch: applying the patch computed
      from the lines of a to the lines of b, to the lines of a, gives the
      lines of b; and an empty patch means no line differs. */
  predicate PatchRoundTrips(a: string, b: string, diffPatch: DiffPatch, patch: Patcher) {
    var la, lb := Split(a, "\n"), Split(b, "\n");
    && patch(la, diffPatch(la, lb)) == lb
    && (diffPatch(la, lb) == [] ==> la == lb)
  }

  /** The entry a save from a to b appends: the line patch between them,
      or no changes at all when there is none. */
  function SaveEntry(a: string, b: string, ts: Stamp, diffPatch: DiffPatch): (e: Entry)
    ensures e.Entry? && e.timestamp == ts
  {
    Entry(ts, CreateLinePatch(a, b, diffPatch), LinePatch("", "", []))
  }

  /** Replaying the entry saved for an edit from a to b turns a into b. */
  lemma SaveEntryReplays(a: string, b: string, ts: Stamp, diffPatch: DiffPatch, patch: Patcher)
    requires PatchRoundTrips(a, b, diffPatch, patch)
    ensures Step(a, SaveEntry(a, b, ts, diffPatch), patch) == b
  {
    var la, lb := Split(a, "\n"), Split(b, "\n");
    JoinSplit(a, "\n");
    JoinSplit(b, "\n");
    if diffPatch(la, lb) == [] {
      assert a == b;
    }
  }

  /** A history of saves through the texts t[0], …, t[n] replays from
      t[0] to t[n]. */
  lemma {:induction false} SavedHistoryReplays(t: seq<string>, stamps: seq<Stamp>, diffPatch: DiffPatch, patch: Patcher)
    requires |t| == |stamps| + 1
    requires forall i :: 0 <= i < |stamps| ==> PatchRoundTrips(t[i], t[i + 1], diffPatch, patch)
    ensures Replay(t[0], Saves(t, stamps, diffPatch), patch) == t[|t| - 1]
    decreases |stamps|
  {
    if stamps != [] {
      var n := |stamps| - 1;
      var h := Saves(t, stamps, diffPatch);
      var t', stamps' := t[..n + 1], stamps[..n];
      SavedHistoryReplays(t', stamps', diffPatch, patch);
      var h' := Saves(t', stamps', diffPatch);
      assert h' == h[..n];
      var before := Replay(t[0], h[..n], patch);
      assert before == t[n];
      ReplayLast(t[0], h, patch);
      SaveEntryReplays(t[n], t[n + 1], stamps[n], diffPatch, patch);
    }
  }

  /** The entries of the saves through t, one per step. */
  function Saves(t: seq<string>, stamps: seq<Stamp>, diffPatch: DiffPatch): (h: seq<Entry>)
    requires |t| == |stamps| + 1
    ensures |h| == |stamps|
    ensures forall i :: 0 <= i < |h| ==> h[i] == SaveEntry(t[i], t[i + 1], stamps[i], diffPatch)
  {
    seq(|stamps|, i requires 0 <= i < |stamps| => SaveEntry(t[i], t[i + 1], stamps[i], diffPatch))
  }

  /** The stored document the check reads: its GitHub text, its draft and
      its `history`, which is `None` when it is not an array. */
  datatype StoredDoc = StoredDoc(githubData: Json, docsflowData: Json, history: Option<seq<Entry>>)

  datatype Baseline = GithubData | EmptyString | NoBaseline

  datatype Verdict = Verdict(isMatch: bool, baseline: Baseline, expected: string, reconstructed: string)

  /** The normalised texts and the sorted history the verdict works on. */
  function GithubText(doc: StoredDoc): string { NormalizeText(Str(CoerceText(doc.githubData))) }
  function FinalText(doc: StoredDoc): string { NormalizeText(Str(CoerceText(doc.docsflowData))) }
  function SortedHistory(doc: StoredDoc, parseDate: DateParser): seq<Entry> {
    SortHistoryByTimestamp(doc.history.GetOr([]), parseDate)
  }

  /** The replay check: a match iff replaying the sorted history from the
      GitHub text or from "" yields the draft; the GitHub baseline is
      preferred when both do. */
  function CheckDoc(doc: StoredDoc, parseDate: DateParser, patch: Patcher): (v: Verdict)
    ensures var h := SortedHistory(doc, parseDate);
      var fromGithub := Replay(GithubText(doc), h, patch);
      var fromEmpty := Replay("", h, patch);
      && (v.isMatch <==> fromGithub == FinalText(doc) || fromEmpty == FinalText(doc))
      && (v.baseline == GithubData <==> fromGithub == FinalText(doc))
      && (v.baseline == EmptyString <==> fromGithub != FinalText(doc) && fromEmpty == FinalText(doc))
      && (v.isMatch <==> v.baseline != NoBaseline)
      && (!v.isMatch ==> v.reconstructed == fromEmpty)
  {
    var originalGithub := NormalizeText(Str(CoerceText(doc.githubData)));
    var finalData := NormalizeText(Str(CoerceText(doc.docsflowData)));
    var history := SortHistoryByTimestamp(if doc.history.Some? then doc.history.value else [], parseDate);
    var reconstructedFromGithub := Replay(originalGithub, history, patch);
    var reconstructedFromEmpty := Replay("", history, patch);
    var isMatchGithub := reconstructedFromGithub == finalData;
    var isMatchEmpty := reconstructedFromEmpty == finalData;
    var reconstructed := if isMatchGithub then reconstructedFromGithub else reconstructedFromEmpty;
    var isMatch := isMatchGithub || isMatchEmpty;
    Verdict(isMatch, if !isMatch then NoBaseline else if isMatchGithub then GithubData else EmptyString, finalData, reconstructed)
  }

  /** A document whose draft was reached by saves, recorded in timestamp
      order, from its GitHub text passes the check against the GitHub
      baseline. */
  lemma SavedDocMatches(doc: StoredDoc, t: seq<string>, stamps: seq<Stamp>, parseDate: DateParser, diffPatch: DiffPatch, patch: Patcher)
    requires |t| == |stamps| + 1
    requires t[0] == GithubText(doc) && t[|t| - 1] == FinalText(doc)
    requires doc.history == Some(Saves(t, stamps, diffPatch))
    requires forall i :: 0 <= i < |stamps| ==> PatchRoundTrips(t[i], t[i + 1], diffPatch, patch)
    requires forall i, j :: 0 <= i < j < |stamps| ==>
      ExtractTimestamp(SaveEntry(t[i], t[i + 1], stamps[i], diffPatch), parseDate)
        <= ExtractTimestamp(SaveEntry(t[j], t[j + 1], stamps[j], diffPatch), parseDate)
    ensures CheckDoc(doc, parseDate, patch).isMatch
    ensures CheckDoc(doc, parseDate, patch).baseline == GithubData
  {
    var h := Saves(t, stamps, diffPatch);
    forall i, j | 0 <= i < j < |h|
      ensures ExtractTimestamp(h[i], parseDate) <= ExtractTimestamp(h[j], parseDate)
    {
      assert h[i] == SaveEntry(t[i], t[i + 1], stamps[i], diffPatch);
      assert h[j] == SaveEntry(t[j], t[j + 1], stamps[j], diffPatch);
    }
    OrderedHistoryKept(h, parseDate);
    assert SortedHistory(doc, parseDate) == h;
    SavedHistoryReplays(t, stamps, diffPatch, patch);
  }
}
