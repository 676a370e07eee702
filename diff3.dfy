/** Three-way merge of line-based text and line patches. The merge engine
    (`diff3Merge`) and the patch engine (`diffPatch`, `patch`) belong to
    the node-diff3 library; they are parameters of this model. */
module Diff3 {
  import opened Wrappers
  import opened Text

  /** One region of a three-way merge: lines all sides agree on (or that
      only one side changed), or a conflict between yours (`a`), the base
      (`o`) and theirs (`b`). */
  datatype Chunk = Ok(lines: seq<string>) | Conflict(a: seq<string>, o: seq<string>, b: seq<string>)

  datatype MergeResult = MergeResult(isClean: bool, mergedText: string)

  /** A region of one buffer, as node-diff3's `diffPatch` reports it. */
  datatype Span = Span(offset: nat, length: nat, chunk: seq<string>)
  datatype Hunk = Hunk(buffer1: Span, buffer2: Span)

  /** `{type: 'diffPatch', lineSeparator, patch}`. The `type` and
      `lineSeparator` of a stored record are free text; "" stands for an
      absent field. */
  datatype LinePatch = LinePatch(kind: string, lineSeparator: string, patch: seq<Hunk>)

  type Merge3 = (seq<string>, seq<string>, seq<string>) -> seq<Chunk>
  type DiffPatch = (seq<string>, seq<string>) -> seq<Hunk>

  /** The text a chunk contributes, if any: an agreed region its lines
      joined by "\n", a conflict its `theirs` lines, and nothing when those
      are empty. */
  function ChunkPart(c: Chunk): seq<string> {
    match c
    case Ok(lines) => [Join(lines, "\n")]
    case Conflict(_, _, b) => if |b| > 0 then [Join(b, "\n")] else []
  }

  /** The parts of the merged text, in chunk order. */
  function Parts(chunks: seq<Chunk>): (r: seq<string>)
    ensures |r| <= |chunks|
  {
    if chunks == [] then [] else Parts(chunks[..|chunks| - 1]) + ChunkPart(chunks[|chunks| - 1])
  }

  predicate HasConflict(chunks: seq<Chunk>) {
    exists i :: 0 <= i < |chunks| && chunks[i].Conflict?
  }

  /** The `forEach` over the chunks: the clean flag drops at the first
      conflict, and each chunk's part is pushed in turn. */
  method FoldChunks(chunks: seq<Chunk>) returns (res: MergeResult)
    ensures res.isClean <==> !HasConflict(chunks)
    ensures res.mergedText == Join(Parts(chunks), "\n")
  {
    var isClean := true;
    var mergedTextParts: seq<string> := [];
    var i := 0;
    while i < |chunks|
      invariant 0 <= i <= |chunks|
      invariant isClean <==> !HasConflict(chunks[..i])
      invariant mergedTextParts == Parts(chunks[..i])
    {
      var chunk := chunks[i];
      assert chunks[..i + 1][..i] == chunks[..i];
      if chunk.Ok? {
        mergedTextParts := mergedTextParts + [Join(chunk.lines, "\n")];
      } else {
        isClean := false;
        if |chunk.b| > 0 {
          mergedTextParts := mergedTextParts + [Join(chunk.b, "\n")];
        }
      }
      assert forall j :: 0 <= j < i ==> chunks[..i + 1][j] == chunks[..i][j];
      i := i + 1;
    }
    assert chunks[..i] == chunks;
    res := MergeResult(isClean, Join(mergedTextParts, "\n"));
  }

  /** `performMerge(yours, base, theirs)`: the three texts are split into
      lines, merged, and the chunks folded. */
  method PerformMerge(yours: string, base: string, theirs: string, diff3Merge: Merge3) returns (res: MergeResult)
    ensures var chunks := diff3Merge(Split(yours, "\n"), Split(base, "\n"), Split(theirs, "\n"));
      && (res.isClean <==> !HasConflict(chunks))
      && res.mergedText == Join(Parts(chunks), "\n")
  {
    var diffResult := diff3Merge(Split(yours, "\n"), Split(base, "\n"), Split(theirs, "\n"));
    res := FoldChunks(diffResult);
  }

  /** No chunks: a clean merge of empty text. */
  lemma NoChunksCleanEmpty()
    ensures !HasConflict([]) && Join(Parts([]), "\n") == ""
  {
  }

  /** Two chunks that differ at most in the yours and base sides of a
      conflict. */
  predicate SameTheirs(c: Chunk, d: Chunk) {
    match c
    case Ok(lines) => d == Chunk.Ok(lines)
    case Conflict(_, _, b) => d.Conflict? && d.b == b
  }

  /** The yours and base lines of a conflict never reach the merged text:
      chunk lists that agree on everything else give the same parts. */
  lemma {:induction false} ConflictSidesIgnored(cs: seq<Chunk>, ds: seq<Chunk>)
    requires |cs| == |ds|
    requires forall i :: 0 <= i < |cs| ==> SameTheirs(cs[i], ds[i])
    ensures Parts(cs) == Parts(ds)
    ensures HasConflict(cs) <==> HasConflict(ds)
  {
    if cs != [] {
      ConflictSidesIgnored(cs[..|cs| - 1], ds[..|ds| - 1]);
      var n := |cs| - 1;
      assert ChunkPart(cs[n]) == ChunkPart(ds[n]);
      if HasConflict(cs) {
        var i :| 0 <= i < |cs| && cs[i].Conflict?;
        assert ds[i].Conflict?;
      }
      if HasConflict(ds) {
        var i :| 0 <= i < |ds| && ds[i].Conflict?;
        assert cs[i].Conflict?;
      }
    }
  }

  /** A conflict whose theirs side is empty adds no part at all (not even
      an empty line), but still makes the merge unclean. */
  lemma EmptyTheirsAddsNothing(cs: seq<Chunk>, a: seq<string>, o: seq<string>)
    ensures Parts(cs + [Conflict(a, o, [])]) == Parts(cs)
    ensures HasConflict(cs + [Conflict(a, o, [])])
  {
    var ds := cs + [Conflict(a, o, [])];
    assert ds[..|ds| - 1] == cs;
    assert ds[|cs|].Conflict?;
  }

  /** `createLinePatch(oldText, newText)`: null for an unchanged text or an
      empty patch, otherwise a "diffPatch" record over "\n"-separated lines
      holding the patch. */
  function CreateLinePatch(oldText: string, newText: string, diffPatch: DiffPatch): (r: Option<LinePatch>)
    ensures r.None? <==> oldText == newText || diffPatch(Split(oldText, "\n"), Split(newText, "\n")) == []
    ensures r.Some? ==> r.value == LinePatch("diffPatch", "\n", diffPatch(Split(oldText, "\n"), Split(newText, "\n")))
  {
    if oldText == newText then None
    else
      var p := diffPatch(Split(oldText, "\n"), Split(newText, "\n"));
      if |p| == 0 then None else Some(LinePatch("diffPatch", "\n", p))
  }
}
