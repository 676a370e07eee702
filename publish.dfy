/** The publish engine: content hashing, the reuse decision for an open
    publish branch, the merge of published-file records, and the pipeline
    that commits a batch of documents to a branch and opens a pull
    request. */
module Publish {
  import opened Wrappers
  import opened Text
  import opened Json
  import opened Utf8
  import opened GitBlob
  import opened Remote
  import opened PublishStore
  import Sorting
  import Config

  /** `toContentString(value)`: "" for null or undefined, strings as they
      are, anything else pretty-printed by `stringify`. */
  function ToContentString(v: Json, stringify: Json -> string): (r: string)
    ensures v == Null ==> r == ""
    ensures v.Str? ==> r == v.s
    ensures v != Null && !v.Str? ==> r == stringify(v)
  {
    match v
    case Null => ""
    case Str(s) => s
    case _ => stringify(v)
  }

  // ---------------------------------------------------------------------
  // mergeFileRecords

  function Paths(rs: seq<FileRecord>): (ps: seq<string>)
    ensures |ps| == |rs|
    ensures forall i :: 0 <= i < |rs| ==> ps[i] == rs[i].path
  {
    seq(|rs|, i requires 0 <= i < |rs| => rs[i].path)
  }

  /** The distinct elements of ps in order of first occurrence: the key
      order of a `Map` that the keys are set in, one after another. */
  function FirstOccurrences(ps: seq<string>): (r: seq<string>)
    ensures forall p :: p in r <==> p in ps
    ensures Distinct(r)
  {
    if ps == [] then []
    else
      var r := FirstOccurrences(ps[..|ps| - 1]);
      var p := ps[|ps| - 1];
      assert forall q :: q in ps <==> q in ps[..|ps| - 1] || q == p;
      if p in r then r else r + [p]
  }

  /** The last record with the given path: the value a `Map` keeps. */
  function LastRecord(rs: seq<FileRecord>, p: string): (r: Option<FileRecord>)
    ensures r.Some? <==> p in Paths(rs)
    ensures r.Some? ==> r.value.path == p && r.value in rs
  {
    if rs == [] then None
    else if rs[|rs| - 1].path == p then Some(rs[|rs| - 1])
    else
      var r := LastRecord(rs[..|rs| - 1], p);
      assert p in Paths(rs) <==> p in Paths(rs[..|rs| - 1]) by {
        assert forall i :: 0 <= i < |rs| - 1 ==> Paths(rs)[i] == Paths(rs[..|rs| - 1])[i];
      }
      r
  }

  /** The records of `mergeFileRecords(existing, updates)`: one per path,
      in first-occurrence order, each the last record given for it. */
  function MergedFiles(existing: seq<FileRecord>, updates: seq<FileRecord>): (r: seq<FileRecord>)
    ensures Paths(r) == FirstOccurrences(Paths(existing + updates))
  {
    var all := existing + updates;
    var order := FirstOccurrences(Paths(all));
    seq(|order|, i requires 0 <= i < |order| => LastRecord(all, order[i]).value)
  }

  /** The map's state after setting the records in rs one by one. */
  ghost predicate Tracks(order: seq<string>, m: map<string, FileRecord>, rs: seq<FileRecord>) {
    && order == FirstOccurrences(Paths(rs))
    && (forall p :: p in m <==> p in Paths(rs))
    && (forall p :: p in m ==> LastRecord(rs, p) == Some(m[p]))
  }

  lemma TracksStep(order: seq<string>, m: map<string, FileRecord>, rs: seq<FileRecord>, f: FileRecord)
    requires Tracks(order, m, rs)
    ensures Tracks(if f.path in m then order else order + [f.path], m[f.path := f], rs + [f])
  {
    PathsSnoc(rs, f);
    FirstOccurrencesSnoc(Paths(rs), f.path);
    forall p | p in m[f.path := f] ensures LastRecord(rs + [f], p) == Some(m[f.path := f][p]) {
      LastRecordSnoc(rs, f, p);
    }
  }

  lemma PathsSnoc(rs: seq<FileRecord>, f: FileRecord)
    ensures Paths(rs + [f]) == Paths(rs) + [f.path]
  {
  }

  lemma FirstOccurrencesSnoc(ps: seq<string>, p: string)
    ensures FirstOccurrences(ps + [p]) == if p in ps then FirstOccurrences(ps) else FirstOccurrences(ps) + [p]
  {
    assert (ps + [p])[..|ps|] == ps;
  }

  lemma LastRecordSnoc(rs: seq<FileRecord>, f: FileRecord, p: string)
    ensures LastRecord(rs + [f], p) == if p == f.path then Some(f) else LastRecord(rs, p)
  {
    assert (rs + [f])[..|rs|] == rs;
  }

  lemma AppendNext<T>(done: seq<T>, rs: seq<T>, i: nat)
    requires i < |rs|
    ensures done + rs[..i + 1] == (done + rs[..i]) + [rs[i]]
  {
    assert rs[..i + 1] == rs[..i] + [rs[i]];
  }

  /** Sets each record of rs in the map, in order. */
  method SetEach(order0: seq<string>, m0: map<string, FileRecord>, done: seq<FileRecord>, rs: seq<FileRecord>)
    returns (order: seq<string>, m: map<string, FileRecord>)
    requires Tracks(order0, m0, done)
    ensures Tracks(order, m, done + rs)
  {
    order, m := order0, m0;
    ghost var seen := done;
    for i := 0 to |rs|
      invariant seen == done + rs[..i]
      invariant Tracks(order, m, seen)
    {
      var next := rs[i];
      TracksStep(order, m, seen, next);
      if next.path !in m {
        order := order + [next.path];
      }
      m := m[next.path := next];
      AppendNext(done, rs, i);
      seen := seen + [next];
    }
    assert rs[..|rs|] == rs;
  }

  /** `mergeFileRecords(existing, updates)`. */
  method MergeFileRecords(existing: seq<FileRecord>, updates: seq<FileRecord>) returns (r: seq<FileRecord>)
    ensures r == MergedFiles(existing, updates)
  {
    var order, m := SetEach([], map[], [], existing);
    assert [] + existing == existing;
    order, m := SetEach(order, m, existing, updates);
    r := seq(|order|, i requires 0 <= i < |order| => m[order[i]]);
  }

  /** Each path occurs once, and the merged records are the existing and
      updated ones: a path in `updates` carries its (last) update, any
      other path its (last) existing record. */
  lemma MergedFilesRecords(existing: seq<FileRecord>, updates: seq<FileRecord>, p: string)
    ensures Distinct(Paths(MergedFiles(existing, updates)))
    ensures p in Paths(MergedFiles(existing, updates)) <==> p in Paths(existing) || p in Paths(updates)
    ensures forall i :: 0 <= i < |MergedFiles(existing, updates)| && MergedFiles(existing, updates)[i].path == p ==>
      MergedFiles(existing, updates)[i] == if p in Paths(updates) then LastRecord(updates, p).value else LastRecord(existing, p).value
  {
    LastRecordAppend(existing, updates, p);
    assert Paths(existing + updates) == Paths(existing) + Paths(updates);
  }

  lemma {:induction false} LastRecordAppend(a: seq<FileRecord>, b: seq<FileRecord>, p: string)
    ensures LastRecord(a + b, p) == if p in Paths(b) then LastRecord(b, p) else LastRecord(a, p)
    decreases |b|
  {
    if b == [] {
      assert a + b == a;
    } else {
      var b' := b[..|b| - 1];
      assert (a + b)[..|a + b| - 1] == a + b';
      assert (a + b)[|a + b| - 1] == b[|b| - 1];
      LastRecordAppend(a, b', p);
      assert p in Paths(b) <==> p in Paths(b') || b[|b| - 1].path == p by {
        assert Paths(b) == Paths(b') + [b[|b| - 1].path];
      }
    }
  }

  /** Existing paths keep their first-occurrence order at the front; new
      paths follow in the order the updates first give them. */
  lemma {:induction false} FirstOccurrencesAppend(ps: seq<string>, qs: seq<string>)
    ensures FirstOccurrences(ps + qs) == FirstOccurrences(ps) + FirstOccurrences(Fresh(qs, ps))
    decreases |qs|
  {
    if qs == [] {
      assert ps + qs == ps;
    } else {
      var qs' := qs[..|qs| - 1];
      var q := qs[|qs| - 1];
      assert (ps + qs)[..|ps + qs| - 1] == ps + qs';
      assert (ps + qs)[|ps + qs| - 1] == q;
      FirstOccurrencesAppend(ps, qs');
      var front, later := FirstOccurrences(ps), FirstOccurrences(Fresh(qs', ps));
      assert FirstOccurrences(ps + qs') == front + later;
      if q !in ps {
        var f := Fresh(qs, ps);
        assert f == Fresh(qs', ps) + [q];
        assert f[..|f| - 1] == Fresh(qs', ps) && f[|f| - 1] == q;
        if q !in later {
          assert front + (later + [q]) == front + later + [q];
        }
      }
    }
  }

  /** The elements of qs that do not occur in ps, in order. */
  function Fresh(qs: seq<string>, ps: seq<string>): (r: seq<string>)
    ensures forall q :: q in r <==> q in qs && q !in ps
  {
    if qs == [] then []
    else
      var r := Fresh(qs[..|qs| - 1], ps);
      var q := qs[|qs| - 1];
      assert forall x :: x in qs <==> x in qs[..|qs| - 1] || x == q;
      if q in ps then r else r + [q]
  }

  /** The order the merged records come in. */
  lemma MergedFilesOrder(existing: seq<FileRecord>, updates: seq<FileRecord>)
    ensures Paths(MergedFiles(existing, updates))
         == FirstOccurrences(Paths(existing)) + FirstOccurrences(Fresh(Paths(updates), Paths(existing)))
  {
    assert Paths(existing + updates) == Paths(existing) + Paths(updates);
    FirstOccurrencesAppend(Paths(existing), Paths(updates));
  }

  // ---------------------------------------------------------------------
  // The adapter and the reuse check

  /** The user a publish is made on behalf of. */
  datatype User = User(name: Option<string>, email: Option<string>)

  /** What an entity plugs into the publish engine: where a document goes,
      what it holds, the texts of the commit and the pull request, and the
      outcome of its `updateAfterPublish` hook (`Some(e)` when it throws e).
      `stringify` is `JSON.stringify(value, null, 2)`. */
  datatype Adapter<!D> = Adapter(
    entity: string,
    docPath: D -> string,
    docContent: D -> Json,
    commitMessage: (seq<D>, User) -> string,
    prTitle: seq<D> -> string,
    prBody: seq<D> -> string,
    stringify: Json -> string,
    updateAfterPublish: AfterPublish<D> -> Option<string>)

  /** The base branch every publish branch is cut from and merged into. */
  const BaseBranch := Config.Branch

  /** The text a document is published as. */
  function DocText<D>(a: Adapter<D>, d: D): string {
    ToContentString(a.docContent(d), a.stringify)
  }

  /** `getBranchFileSha`'s answer for what `getContent` found: the sha of a
      file, nothing for a directory, a missing path or an empty sha. */
  function BranchFileSha(c: Content): (r: Option<string>)
    ensures r.Some? <==> c.File? && c.sha != ""
    ensures r.Some? ==> r.value == c.sha
  {
    if c.File? && c.sha != "" then Some(c.sha) else None
  }

  /** `getBranchFileSha`: a 404 is "no file"; any other failure is thrown. */
  method GetBranchFileSha(gh: GitHub, branch: string, path: string) returns (r: Result<Option<string>, string>)
    modifies gh`log
    ensures gh.log == old(gh.log) + [Call.GetContent(branch, path)]
    ensures r.Err? <==> gh.fails(Call.GetContent(branch, path))
    ensures r.Ok? ==> r.value == BranchFileSha(gh.Lookup(branch, path))
  {
    var c := gh.GetContent(branch, path);
    if c.Err? {
      return Err(c.error);
    }
    r := Ok(BranchFileSha(c.value));
  }

  /** `files.find(f => f.path === path)`: the first record for the path. */
  function FindFile(files: seq<FileRecord>, path: string): (r: Option<FileRecord>)
    ensures r.Some? <==> path in Paths(files)
    ensures r.Some? ==> r.value.path == path && r.value in files
  {
    if files == [] then None
    else if files[0].path == path then Some(files[0])
    else
      assert path in Paths(files) <==> path in Paths(files[1..]) by {
        assert Paths(files) == [files[0].path] + Paths(files[1..]);
      }
      FindFile(files[1..], path)
  }

  /** One document leaves the branch reusable: a file recorded as
      published must still be on the branch with the recorded sha; a file
      never published there must be absent or already hold this content. */
  predicate DocPasses(recorded: Option<FileRecord>, branchSha: Option<string>, contentSha: string) {
    if recorded.Some? then branchSha == Some(recorded.value.blobSha)
    else branchSha.None? || branchSha == Some(contentSha)
  }

  /** The document at path passes against the branch as it is. */
  predicate PassesOn<D>(gh: GitHub, branch: string, files: seq<FileRecord>, a: Adapter<D>, d: D)
    reads gh`refs, gh`commits
  {
    DocPasses(FindFile(files, a.docPath(d)), BranchFileSha(gh.Lookup(branch, a.docPath(d))),
              ComputeBlobSha(DocText(a, d), gh.sha1))
  }

  /** What `canReuseBranch` answers: documents are checked in order; the
      first failed lookup is thrown, the first failing document says no. */
  function ReuseVerdict<D>(gh: GitHub, branch: string, files: seq<FileRecord>, docs: seq<D>, a: Adapter<D>): Result<bool, string>
    reads gh`refs, gh`commits
    decreases |docs|
  {
    if docs == [] then Ok(true)
    else if gh.fails(Call.GetContent(branch, a.docPath(docs[0]))) then Err("getContent failed")
    else if !PassesOn(gh, branch, files, a, docs[0]) then Ok(false)
    else ReuseVerdict(gh, branch, files, docs[1..], a)
  }

  /** The branch is reusable exactly when every lookup succeeds and every
      document passes. */
  lemma {:induction false} ReuseVerdictAllPass<D>(gh: GitHub, branch: string, files: seq<FileRecord>, docs: seq<D>, a: Adapter<D>)
    ensures ReuseVerdict(gh, branch, files, docs, a) == Ok(true) <==>
      forall i :: 0 <= i < |docs| ==>
        !gh.fails(Call.GetContent(branch, a.docPath(docs[i]))) && PassesOn(gh, branch, files, a, docs[i])
    decreases |docs|
  {
    if docs != [] {
      var tail := docs[1..];
      ReuseVerdictAllPass(gh, branch, files, tail, a);
      if ReuseVerdict(gh, branch, files, docs, a) == Ok(true) {
        forall i | 1 <= i < |docs|
          ensures !gh.fails(Call.GetContent(branch, a.docPath(docs[i]))) && PassesOn(gh, branch, files, a, docs[i])
        {
          assert docs[i] == tail[i - 1];
        }
      } else if !gh.fails(Call.GetContent(branch, a.docPath(docs[0]))) && PassesOn(gh, branch, files, a, docs[0]) {
        var j :| 0 <= j < |tail| && !(!gh.fails(Call.GetContent(branch, a.docPath(tail[j]))) && PassesOn(gh, branch, files, a, tail[j]));
        assert docs[j + 1] == tail[j];
      }
    }
  }

  /** The lookups `canReuseBranch` makes: one `getContent` per document,
      up to the first failed lookup or failing document. */
  function ReuseCalls<D>(gh: GitHub, branch: string, files: seq<FileRecord>, docs: seq<D>, a: Adapter<D>): (r: seq<Call>)
    reads gh`refs, gh`commits
    ensures |r| <= |docs|
    ensures forall c :: c in r ==> c.GetContent? && c.ref == branch
    ensures ReuseVerdict(gh, branch, files, docs, a) == Ok(true) ==> |r| == |docs|
    decreases |docs|
  {
    if docs == [] then []
    else
      var call := Call.GetContent(branch, a.docPath(docs[0]));
      if gh.fails(call) || !PassesOn(gh, branch, files, a, docs[0]) then [call]
      else [call] + ReuseCalls(gh, branch, files, docs[1..], a)
  }

  /** The verdict and the lookups of the whole check are the ones still
      to come from document i on, after the lookups done. */
  predicate ReuseFrom<D>(gh: GitHub, branch: string, files: seq<FileRecord>, docs: seq<D>, a: Adapter<D>, i: nat, done: seq<Call>)
    reads gh`refs, gh`commits
  {
    && i <= |docs|
    && ReuseVerdict(gh, branch, files, docs, a) == ReuseVerdict(gh, branch, files, docs[i..], a)
    && ReuseCalls(gh, branch, files, docs, a) == done + ReuseCalls(gh, branch, files, docs[i..], a)
  }

  /** One more document checked: the check stops with the body's verdict,
      or goes on from the next document. */
  lemma ReuseAdvance<D>(gh: GitHub, branch: string, files: seq<FileRecord>, docs: seq<D>, a: Adapter<D>, i: nat, done: seq<Call>,
                        stop: Option<Result<bool, string>>)
    requires i < |docs| && ReuseFrom(gh, branch, files, docs, a, i, done)
    requires var call := Call.GetContent(branch, a.docPath(docs[i]));
      stop == if gh.fails(call) then Some(Err("getContent failed"))
              else if !PassesOn(gh, branch, files, a, docs[i]) then Some(Ok(false)) else None
    ensures var done' := done + [Call.GetContent(branch, a.docPath(docs[i]))];
      && (stop.Some? ==> ReuseVerdict(gh, branch, files, docs, a) == stop.value && ReuseCalls(gh, branch, files, docs, a) == done')
      && (stop.None? ==> ReuseFrom(gh, branch, files, docs, a, i + 1, done'))
  {
    assert docs[i..][1..] == docs[i + 1..];
  }

  /** All documents checked: the check passes with the lookups done. */
  lemma ReuseEnd<D>(gh: GitHub, branch: string, files: seq<FileRecord>, docs: seq<D>, a: Adapter<D>, done: seq<Call>)
    requires ReuseFrom(gh, branch, files, docs, a, |docs|, done)
    ensures ReuseVerdict(gh, branch, files, docs, a) == Ok(true) && ReuseCalls(gh, branch, files, docs, a) == done
  {
    assert docs[|docs|..] == [];
    assert done + [] == done;
  }

  /** `canReuseBranch`. */
  method CanReuseBranch<D>(gh: GitHub, branch: string, files: seq<FileRecord>, docs: seq<D>, a: Adapter<D>)
    returns (r: Result<bool, string>)
    modifies gh`log
    ensures r == ReuseVerdict(gh, branch, files, docs, a)
    ensures gh.log == old(gh.log) + ReuseCalls(gh, branch, files, docs, a)
  {
    ghost var done: seq<Call> := [];
    assert docs[0..] == docs;
    var stop: Option<Result<bool, string>> := None;
    var i := 0;
    while i < |docs| && stop.None?
      invariant i <= |docs|
      invariant stop.None? ==> ReuseFrom(gh, branch, files, docs, a, i, done)
      invariant stop.Some? ==> ReuseVerdict(gh, branch, files, docs, a) == stop.value && ReuseCalls(gh, branch, files, docs, a) == done
      invariant gh.log == old(gh.log) + done
      decreases |docs| - i
    {
      ghost var before := done;
      stop, done := ReuseNext(gh, branch, files, docs, a, i, done);
      AppendAssoc(old(gh.log), before, [Call.GetContent(branch, a.docPath(docs[i]))]);
      i := i + 1;
    }
    if stop.Some? {
      r := stop.value;
    } else {
      ReuseEnd(gh, branch, files, docs, a, done);
      r := Ok(true);
    }
  }

  /** The loop body at document i, with the lookups done so far. */
  method ReuseNext<D>(gh: GitHub, branch: string, files: seq<FileRecord>, docs: seq<D>, a: Adapter<D>, i: nat, ghost done: seq<Call>)
    returns (stop: Option<Result<bool, string>>, ghost done': seq<Call>)
    requires i < |docs| && ReuseFrom(gh, branch, files, docs, a, i, done)
    modifies gh`log
    ensures done' == done + [Call.GetContent(branch, a.docPath(docs[i]))]
    ensures gh.log == old(gh.log) + [Call.GetContent(branch, a.docPath(docs[i]))]
    ensures stop.Some? ==> ReuseVerdict(gh, branch, files, docs, a) == stop.value && ReuseCalls(gh, branch, files, docs, a) == done'
    ensures stop.None? ==> ReuseFrom(gh, branch, files, docs, a, i + 1, done')
  {
    stop := ReuseStep(gh, branch, files, docs[i], a);
    ReuseAdvance(gh, branch, files, docs, a, i, done, stop);
    done' := done + [Call.GetContent(branch, a.docPath(docs[i]))];
  }

  /** The loop body for one document: the lookup, then the verdict it
      stops with, or none to go on. */
  method ReuseStep<D>(gh: GitHub, branch: string, files: seq<FileRecord>, d: D, a: Adapter<D>)
    returns (stop: Option<Result<bool, string>>)
    modifies gh`log
    ensures gh.log == old(gh.log) + [Call.GetContent(branch, a.docPath(d))]
    ensures stop == if gh.fails(Call.GetContent(branch, a.docPath(d))) then Some(Err("getContent failed"))
                    else if !PassesOn(gh, branch, files, a, d) then Some(Ok(false)) else None
  {
    var path := a.docPath(d);
    var contentSha := ComputeBlobSha(DocText(a, d), gh.sha1);
    var recorded := FindFile(files, path);
    var branchSha := GetBranchFileSha(gh, branch, path);
    if branchSha.Err? {
      return Some(Err("getContent failed"));
    }
    stop := if DocPasses(recorded, branchSha.value, contentSha) then None else Some(Ok(false));
  }

  // ---------------------------------------------------------------------
  // Choosing a branch

  /** Newest `updatedAt` first (`sort({ updatedAt: -1 })`). */
  function NewestFirst(x: BranchRecord, y: BranchRecord): int {
    y.updatedAt - x.updatedAt
  }

  /** `find({ entity, status: "open", base })`. */
  function OpenRecords(rs: seq<BranchRecord>, entity: string): (r: seq<BranchRecord>)
    ensures forall x :: x in r <==> x in rs && x.entity == entity && x.status == "open" && x.base == BaseBranch
  {
    if rs == [] then []
    else
      var r := OpenRecords(rs[..|rs| - 1], entity);
      var x := rs[|rs| - 1];
      assert forall y :: y in rs <==> y in rs[..|rs| - 1] || y == x;
      if x.entity == entity && x.status == "open" && x.base == BaseBranch then r + [x] else r
  }

  /** The records the selection loop walks through. */
  function Candidates(rs: seq<BranchRecord>, entity: string): seq<BranchRecord> {
    Sorting.Sort(OpenRecords(rs, entity), NewestFirst)
  }

  /** The candidates are exactly this entity's open records on the base
      branch, each once, newest first. */
  lemma CandidatesNewestFirst(rs: seq<BranchRecord>, entity: string)
    ensures multiset(Candidates(rs, entity)) == multiset(OpenRecords(rs, entity))
    ensures forall x :: x in Candidates(rs, entity) <==> x in rs && x.entity == entity && x.status == "open" && x.base == BaseBranch
    ensures forall i, j :: 0 <= i < j < |Candidates(rs, entity)| ==>
      Candidates(rs, entity)[i].updatedAt >= Candidates(rs, entity)[j].updatedAt
  {
    var open := OpenRecords(rs, entity);
    var key := (x: BranchRecord) => -x.updatedAt;
    Sorting.KeyOrderIsTotalPreorder(open, NewestFirst, key);
    Sorting.SortSorted(open, NewestFirst);
    forall x ensures x in Candidates(rs, entity) <==> x in open {
      assert x in Candidates(rs, entity) <==> x in multiset(Candidates(rs, entity));
    }
  }

  /** What the loop does with one candidate: `None` to go on to the next
      one, or the outcome it stops with (a thrown error or the chosen
      record). */
  function Visit<D>(gh: GitHub, c: BranchRecord, docs: seq<D>, a: Adapter<D>): Option<Result<Option<BranchRecord>, string>>
    reads gh`refs, gh`commits
  {
    if gh.fails(Call.GetBranch(c.branch)) then Some(Err("getBranch failed"))
    else if c.branch !in gh.refs then None
    else Reused(c, ReuseVerdict(gh, c.branch, c.files, docs, a))
  }

  /** What the loop does with a candidate whose branch is there, given the
      reuse check's verdict: stop on an error, choose it when reusable, go
      on otherwise. */
  function Reused(c: BranchRecord, v: Result<bool, string>): (r: Option<Result<Option<BranchRecord>, string>>)
    ensures r.None? <==> v == Ok(false)
  {
    match v
    case Err(e) => Some(Err(e))
    case Ok(reusable) => if reusable then Some(Ok(Some(c))) else None
  }

  /** The walk over the candidates, the remote as it stands: the record
      chosen (none, or a thrown error) and the ids marked stale on the way. */
  function Selection<D>(gh: GitHub, cands: seq<BranchRecord>, docs: seq<D>, a: Adapter<D>): (Result<Option<BranchRecord>, string>, seq<nat>)
    reads gh`refs, gh`commits
    decreases |cands|
  {
    if cands == [] then (Ok(None), [])
    else
      var c := cands[0];
      var v := Visit(gh, c, docs, a);
      if v.Some? then (v.value, [])
      else
        var rest := Selection(gh, cands[1..], docs, a);
        (rest.0, (if c.branch !in gh.refs then [c.id] else []) + rest.1)
  }

  /** A call that only reads GitHub. */
  predicate ReadOnly(c: Call) {
    c.GetBranch? || c.GetContent? || c.ListPulls?
  }

  /** log extends log0 by lookups only. */
  predicate LookupsAdded(log0: seq<Call>, log: seq<Call>) {
    |log0| <= |log| && log[..|log0|] == log0 && forall k :: |log0| <= k < |log| ==> ReadOnly(log[k])
  }

  /** More lookups keep the log an extension by lookups. */
  lemma LookupsAppend(log0: seq<Call>, log: seq<Call>, more: seq<Call>)
    requires LookupsAdded(log0, log)
    requires forall k :: 0 <= k < |more| ==> ReadOnly(more[k])
    ensures LookupsAdded(log0, log + more)
  {
    assert (log + more)[..|log0|] == log[..|log0|];
  }

  lemma LookupsTrans(log0: seq<Call>, log1: seq<Call>, log2: seq<Call>)
    requires LookupsAdded(log0, log1) && LookupsAdded(log1, log2)
    ensures LookupsAdded(log0, log2)
  {
    assert log2[..|log0|] == log1[..|log0|];
  }

  /** The chosen record is a candidate whose branch exists and passes the
      reuse check; every record marked stale is a candidate whose branch is
      gone. */
  lemma {:induction false} SelectionSound<D>(gh: GitHub, cands: seq<BranchRecord>, docs: seq<D>, a: Adapter<D>)
    ensures var (r, stale) := Selection(gh, cands, docs, a);
      && (r.Ok? && r.value.Some? ==>
            r.value.value in cands && r.value.value.branch in gh.refs
            && ReuseVerdict(gh, r.value.value.branch, r.value.value.files, docs, a) == Ok(true))
      && (forall id :: id in stale ==> exists c :: c in cands && c.id == id && c.branch !in gh.refs)
    decreases |cands|
  {
    if cands != [] {
      SelectionSound(gh, cands[1..], docs, a);
      assert forall c :: c in cands[1..] ==> c in cands;
    }
  }

  /** The walk from position i. */
  lemma SelectionAt<D>(gh: GitHub, cands: seq<BranchRecord>, i: nat, docs: seq<D>, a: Adapter<D>)
    requires i < |cands|
    ensures var v := Visit(gh, cands[i], docs, a);
      Selection(gh, cands[i..], docs, a) ==
        if v.Some? then (v.value, [])
        else (Selection(gh, cands[i + 1..], docs, a).0,
              (if cands[i].branch !in gh.refs then [cands[i].id] else []) + Selection(gh, cands[i + 1..], docs, a).1)
  {
    assert cands[i..][1..] == cands[i + 1..];
  }

  /** Marks each listed record stale, in order. */
  function MarkAllStale(rs: seq<BranchRecord>, ids: seq<nat>, now: int): (r: seq<BranchRecord>)
    ensures OnlyMarkedStale(rs, r)
  {
    if ids == [] then rs
    else
      var r := MarkAllStale(rs, ids[..|ids| - 1], now);
      var r' := UpdateById(r, ids[|ids| - 1], MarkStale, now);
      OnlyMarkedStaleTrans(rs, r, r');
      r'
  }

  lemma MarkAllStaleLast(rs: seq<BranchRecord>, ids: seq<nat>, id: nat, now: int)
    ensures MarkAllStale(rs, ids + [id], now) == UpdateById(MarkAllStale(rs, ids, now), id, MarkStale, now)
  {
    assert (ids + [id])[..|ids|] == ids;
  }

  /** The loop stops at position i with the walk's outcome. */
  lemma SelectionStopsAt<D>(gh: GitHub, cands: seq<BranchRecord>, i: nat, docs: seq<D>, a: Adapter<D>,
                            stale: seq<nat>, total: (Result<Option<BranchRecord>, string>, seq<nat>))
    requires i < |cands| && Visit(gh, cands[i], docs, a).Some?
    requires total.0 == Selection(gh, cands[i..], docs, a).0
    requires total.1 == stale + Selection(gh, cands[i..], docs, a).1
    ensures total == (Visit(gh, cands[i], docs, a).value, stale)
  {
    SelectionAt(gh, cands, i, docs, a);
    assert stale + [] == stale;
  }

  /** The loop goes past position i, marking the record stale if its
      branch is gone. */
  lemma SelectionGoesOn<D>(gh: GitHub, cands: seq<BranchRecord>, i: nat, docs: seq<D>, a: Adapter<D>,
                           stale: seq<nat>, total: (Result<Option<BranchRecord>, string>, seq<nat>),
                           before: seq<BranchRecord>, now: int)
    requires i < |cands| && Visit(gh, cands[i], docs, a).None?
    requires total.0 == Selection(gh, cands[i..], docs, a).0
    requires total.1 == stale + Selection(gh, cands[i..], docs, a).1
    ensures var stale' := if cands[i].branch !in gh.refs then stale + [cands[i].id] else stale;
      && total.0 == Selection(gh, cands[i + 1..], docs, a).0
      && total.1 == stale' + Selection(gh, cands[i + 1..], docs, a).1
      && MarkAllStale(before, stale', now)
         == if cands[i].branch !in gh.refs then UpdateById(MarkAllStale(before, stale, now), cands[i].id, MarkStale, now)
            else MarkAllStale(before, stale, now)
  {
    SelectionAt(gh, cands, i, docs, a);
    var rest := Selection(gh, cands[i + 1..], docs, a).1;
    if cands[i].branch !in gh.refs {
      MarkAllStaleLast(before, stale, cands[i].id, now);
      assert stale + ([cands[i].id] + rest) == (stale + [cands[i].id]) + rest;
    } else {
      assert [] + rest == rest;
    }
  }

  /** One pass of the selection loop: looks the branch up, marks it
      stale if it is gone, and otherwise asks whether it can be reused. */
  method VisitCandidate<D>(gh: GitHub, store: BranchStore, c: BranchRecord, docs: seq<D>, a: Adapter<D>, now: int)
    returns (stop: Option<Result<Option<BranchRecord>, string>>)
    requires store.Valid()
    modifies gh`log, store`records
    ensures store.Valid()
    ensures stop == Visit(gh, c, docs, a)
    ensures LookupsAdded(old(gh.log), gh.log)
    ensures store.records == if stop.None? && c.branch !in gh.refs
                             then UpdateById(old(store.records), c.id, MarkStale, now) else old(store.records)
  {
    assert LookupsAdded(gh.log, gh.log) by {
      assert gh.log[..|gh.log|] == gh.log;
    }
    LookupsAppend(gh.log, gh.log, [Call.GetBranch(c.branch)]);
    var exists_ := gh.GetBranch(c.branch);
    if exists_.Err? {
      return Some(Err("getBranch failed"));
    }
    if exists_.value.None? {
      store.SetStale(c.id, now);
      return None;
    }
    ghost var log := gh.log;
    stop := ReuseCandidate(gh, c, docs, a);
    LookupsAppend(old(gh.log), log, ReuseCalls(gh, c.branch, c.files, docs, a));
  }

  /** The reuse check on a candidate whose branch is there, and what the
      loop makes of its verdict. */
  method ReuseCandidate<D>(gh: GitHub, c: BranchRecord, docs: seq<D>, a: Adapter<D>)
    returns (stop: Option<Result<Option<BranchRecord>, string>>)
    modifies gh`log
    ensures stop == Reused(c, ReuseVerdict(gh, c.branch, c.files, docs, a))
    ensures gh.log == old(gh.log) + ReuseCalls(gh, c.branch, c.files, docs, a)
  {
    var reusable := CanReuseBranch(gh, c.branch, c.files, docs, a);
    if reusable.Err? {
      return Some(Err(reusable.error));
    }
    stop := if reusable.value then Some(Ok(Some(c))) else None;
  }

  /** The body of the selection loop at position i: the outcome the walk
      stops with, or the ids marked stale so far when it goes on. */
  method SelectStep<D>(gh: GitHub, store: BranchStore, cands: seq<BranchRecord>, i: nat, docs: seq<D>, a: Adapter<D>, now: int,
                       ghost stale: seq<nat>, ghost total: (Result<Option<BranchRecord>, string>, seq<nat>),
                       ghost before: seq<BranchRecord>)
    returns (stop: Option<Result<Option<BranchRecord>, string>>, ghost stale': seq<nat>)
    requires i < |cands| && store.Valid()
    requires total.0 == Selection(gh, cands[i..], docs, a).0
    requires total.1 == stale + Selection(gh, cands[i..], docs, a).1
    requires store.records == MarkAllStale(before, stale, now)
    modifies gh`log, store`records
    ensures store.Valid()
    ensures store.records == MarkAllStale(before, stale', now)
    ensures stop == Visit(gh, cands[i], docs, a)
    ensures LookupsAdded(old(gh.log), gh.log)
    ensures stop.Some? ==> total == (stop.value, stale')
    ensures stop.None? ==>
      total.0 == Selection(gh, cands[i + 1..], docs, a).0 && total.1 == stale' + Selection(gh, cands[i + 1..], docs, a).1
  {
    var record := cands[i];
    stop := VisitCandidate(gh, store, record, docs, a, now);
    if stop.Some? {
      SelectionStopsAt(gh, cands, i, docs, a, stale, total);
      stale' := stale;
      return;
    }
    SelectionGoesOn(gh, cands, i, docs, a, stale, total, before, now);
    stale' := if record.branch !in gh.refs then stale + [record.id] else stale;
  }

  /** The selection loop: branches that are gone are marked stale; the
      first candidate that can be reused is chosen. */
  method SelectBranch<D>(gh: GitHub, store: BranchStore, docs: seq<D>, a: Adapter<D>, now: int)
    returns (r: Result<Option<BranchRecord>, string>)
    requires store.Valid()
    modifies gh`log, store`records
    ensures store.Valid()
    ensures var sel := Selection(gh, Candidates(old(store.records), a.entity), docs, a);
      r == sel.0 && store.records == MarkAllStale(old(store.records), sel.1, now)
    ensures LookupsAdded(old(gh.log), gh.log)
  {
    var cands := Candidates(store.records, a.entity);
    r := SelectFrom(gh, store, cands, docs, a, now);
  }

  /** The loop over the candidates, in the order given. */
  method SelectFrom<D>(gh: GitHub, store: BranchStore, cands: seq<BranchRecord>, docs: seq<D>, a: Adapter<D>, now: int)
    returns (r: Result<Option<BranchRecord>, string>)
    requires store.Valid()
    modifies gh`log, store`records
    ensures store.Valid()
    ensures var sel := Selection(gh, cands, docs, a);
      r == sel.0 && store.records == MarkAllStale(old(store.records), sel.1, now)
    ensures LookupsAdded(old(gh.log), gh.log)
  {
    ghost var before := store.records;
    ghost var total := Selection(gh, cands, docs, a);
    ghost var stale: seq<nat> := [];
    var i := 0;
    while i < |cands|
      invariant 0 <= i <= |cands|
      invariant store.Valid()
      invariant total == Selection(gh, cands, docs, a)
      invariant total.0 == Selection(gh, cands[i..], docs, a).0
      invariant total.1 == stale + Selection(gh, cands[i..], docs, a).1
      invariant store.records == MarkAllStale(before, stale, now)
      invariant LookupsAdded(old(gh.log), gh.log)
    {
      ghost var log := gh.log;
      var stop;
      stop, stale := SelectStep(gh, store, cands, i, docs, a, now, stale, total, before);
      LookupsTrans(old(gh.log), log, gh.log);
      if stop.Some? {
        return stop.value;
      }
      i := i + 1;
    }
    assert cands[i..] == [];
    assert stale + [] == stale;
    r := Ok(None);
  }

  // ---------------------------------------------------------------------
  // Committing the documents

  /** The name of a new publish branch, made at the given clock reading:
      `docsflow-<entity>-publish-<clock>`, the clock in decimal digits
      that read back as the clock. */
  function NewBranchName(entity: string, clock: nat): (r: string)
    ensures StartsWith(r, "docsflow-")
    ensures |r| > 18 + |entity|
    ensures r[9..9 + |entity|] == entity && r[9 + |entity|..18 + |entity|] == "-publish-"
    ensures AllDigits(r[18 + |entity|..]) && DigitsValue(r[18 + |entity|..]) == clock
  {
    var r := "docsflow-" + entity + "-publish-" + NatToString(clock);
    assert r[18 + |entity|..] == NatToString(clock);
    NatToStringValue(clock);
    r
  }

  /** The calls that pick the branch: the base branch's lookup, then the
      reused branch's lookup or the new branch's `createRef` at the base tip. */
  function PrepCalls(chosen: Option<BranchRecord>, b: string, baseTip: string): (r: seq<Call>)
    ensures |r| == 2 && r[0] == Call.GetBranch(BaseBranch)
  {
    [Call.GetBranch(BaseBranch)] + if chosen.Some? then [Call.GetBranch(chosen.value.branch)] else [Call.CreateRef(b, baseTip)]
  }

  /** Picks the branch to commit on and its tip: the reused branch's tip,
      or a new branch cut at the base branch's tip. */
  method PrepareBranch(gh: GitHub, chosen: Option<BranchRecord>, entity: string, clock: nat)
    returns (r: Result<(string, string), string>)
    modifies gh`log, gh`refs
    ensures r.Err? ==> gh.refs == old(gh.refs)
    ensures r.Ok? ==> r.value.0 in gh.refs && gh.refs[r.value.0] == r.value.1
    ensures r.Ok? && chosen.Some? ==> r.value.0 == chosen.value.branch && gh.refs == old(gh.refs)
    ensures r.Ok? && chosen.None? ==>
      && BaseBranch in old(gh.refs) && NewBranchName(entity, clock) !in old(gh.refs)
      && r.value == (NewBranchName(entity, clock), old(gh.refs)[BaseBranch])
      && gh.refs == old(gh.refs)[r.value.0 := r.value.1]
    ensures r.Ok? ==> BaseBranch in old(gh.refs) && gh.log == old(gh.log) + PrepCalls(chosen, r.value.0, old(gh.refs)[BaseBranch])
  {
    var base := gh.GetBranch(BaseBranch);
    if base.Err? || base.value.None? {
      return Err("getBranch failed");
    }
    var baseSha := base.value.value;
    if chosen.Some? {
      var tip := gh.GetBranch(chosen.value.branch);
      if tip.Err? || tip.value.None? {
        return Err("getBranch failed");
      }
      return Ok((chosen.value.branch, tip.value.value));
    }
    var name := NewBranchName(entity, clock);
    var created := gh.CreateRef(name, baseSha);
    if created.Err? {
      return Err(created.error);
    }
    r := Ok((name, baseSha));
  }

  /** The blob id of each document's text. */
  function BlobShas<D>(docs: seq<D>, a: Adapter<D>, sha1: seq<Byte> -> string): (r: seq<string>)
    ensures |r| == |docs|
  {
    seq(|docs|, i requires 0 <= i < |docs| => ComputeBlobSha(DocText(a, docs[i]), sha1))
  }

  /** The `createTree` items: each document's path with its blob. */
  function TreeItems<D>(docs: seq<D>, a: Adapter<D>, shas: seq<string>): (r: seq<TreeItem>)
    requires |shas| == |docs|
    ensures |r| == |docs|
  {
    seq(|docs|, i requires 0 <= i < |docs| => ItemSha(a.docPath(docs[i]), shas[i]))
  }

  /** The file records of this publish. */
  function FileUpdates<D>(docs: seq<D>, a: Adapter<D>, shas: seq<string>, now: int): (r: seq<FileRecord>)
    requires |shas| == |docs|
    ensures |r| == |docs|
  {
    seq(|docs|, i requires 0 <= i < |docs| => FileRecord(a.docPath(docs[i]), shas[i], Some(now)))
  }

  /** One `createBlob` per document, in order. */
  function BlobCalls<D>(docs: seq<D>, a: Adapter<D>): (r: seq<Call>)
    ensures |r| == |docs|
  {
    seq(|docs|, i requires 0 <= i < |docs| => Call.CreateBlob(DocText(a, docs[i])))
  }

  const BotName := "DocsFlow Bot"
  const BotEmail := "docsflow@wavemaker.com"

  /** The commit author: the user, or the bot for a missing or empty name
      or e-mail. */
  function CommitAuthor(user: User): (r: Author)
    ensures r.name == (if user.name.Some? && user.name.value != "" then user.name.value else BotName)
    ensures r.email == (if user.email.Some? && user.email.value != "" then user.email.value else BotEmail)
  {
    Author(if user.name.Some? && user.name.value != "" then user.name.value else BotName,
           if user.email.Some? && user.email.value != "" then user.email.value else BotEmail)
  }

  /** Uploads a blob per document and records each one's file. */
  method UploadBlobs<D>(gh: GitHub, docs: seq<D>, a: Adapter<D>, now: int)
    returns (r: Result<(seq<TreeItem>, seq<FileRecord>), string>)
    modifies gh`log
    ensures r.Ok? ==> r.value == (TreeItems(docs, a, BlobShas(docs, a, gh.sha1)), FileUpdates(docs, a, BlobShas(docs, a, gh.sha1), now))
    ensures r.Ok? ==> gh.log == old(gh.log) + BlobCalls(docs, a)
  {
    ghost var shas := BlobShas(docs, a, gh.sha1);
    var items: seq<TreeItem> := [];
    var updates: seq<FileRecord> := [];
    for i := 0 to |docs|
      invariant items == TreeItems(docs[..i], a, shas[..i])
      invariant updates == FileUpdates(docs[..i], a, shas[..i], now)
      invariant gh.log == old(gh.log) + BlobCalls(docs[..i], a)
    {
      var path := a.docPath(docs[i]);
      var blob := gh.CreateBlob(DocText(a, docs[i]));
      if blob.Err? {
        return Err(blob.error);
      }
      updates := updates + [FileRecord(path, blob.value, Some(now))];
      items := items + [ItemSha(path, blob.value)];
      UploadStep(docs, a, shas, i, now);
    }
    assert docs[..|docs|] == docs;
    assert shas[..|docs|] == shas;
    r := Ok((items, updates));
  }

  /** One more document uploaded: each of the three sequences grows by
      that document's entry. */
  lemma UploadStep<D>(docs: seq<D>, a: Adapter<D>, shas: seq<string>, i: nat, now: int)
    requires i < |docs| == |shas|
    ensures TreeItems(docs[..i + 1], a, shas[..i + 1]) == TreeItems(docs[..i], a, shas[..i]) + [ItemSha(a.docPath(docs[i]), shas[i])]
    ensures FileUpdates(docs[..i + 1], a, shas[..i + 1], now)
            == FileUpdates(docs[..i], a, shas[..i], now) + [FileRecord(a.docPath(docs[i]), shas[i], Some(now))]
    ensures BlobCalls(docs[..i + 1], a) == BlobCalls(docs[..i], a) + [Call.CreateBlob(DocText(a, docs[i]))]
  {
  }

  /** `createTree` over the tip, `createCommit` on it, `updateRef` of the
      branch: the branch moves to a commit whose tree is the tip's tree
      with the items put in. */
  method CommitItems(gh: GitHub, branch: string, parent: string, items: seq<TreeItem>, message: string, author: Author)
    returns (r: Result<string, string>)
    modifies gh`log, gh`trees, gh`commits, gh`refs
    ensures r.Err? ==> gh.refs == old(gh.refs)
    ensures r.Ok? ==>
      && old(gh.BaseTree(parent)).Some? && branch in old(gh.refs)
      && var t := Overlay(old(gh.BaseTree(parent)).value, items, gh.sha1);
      && r.value == gh.commitId(message, gh.treeId(t), parent)
      && gh.refs == old(gh.refs)[branch := r.value]
      && r.value in gh.commits && gh.commits[r.value] == t
      && gh.log == old(gh.log) + [Call.CreateTree(parent, items), Call.CreateCommit(message, gh.treeId(t), parent, author),
                                  Call.UpdateRef(branch, r.value)]
  {
    var tree := gh.CreateTree(parent, items);
    if tree.Err? {
      return Err(tree.error);
    }
    var commit := gh.CreateCommit(message, tree.value, parent, author);
    if commit.Err? {
      return Err(commit.error);
    }
    var moved := gh.UpdateRef(branch, commit.value);
    if moved.Err? {
      return Err(moved.error);
    }
    r := Ok(commit.value);
  }

  /** The calls that find or open the pull request: the listing, then a
      `pulls.create` when none is open. */
  function PullCalls(branch: string, title: string, body: string, open: seq<Pull>): (r: seq<Call>)
    ensures |r| == if open == [] then 2 else 1
    ensures r[0] == Call.ListPulls(branch, BaseBranch)
  {
    [Call.ListPulls(branch, BaseBranch)] + if open == [] then [Call.CreatePull(branch, BaseBranch, title, body)] else []
  }

  /** The pull request for the branch: the first open one, or a new one. */
  method EnsurePull(gh: GitHub, branch: string, title: string, body: string) returns (r: Result<PrInfo, string>)
    modifies gh`log, gh`pulls
    ensures r.Ok? ==> exists p :: p in gh.OpenPulls(branch, BaseBranch) && r.value == PrInfo(p.url, p.number, p.state)
    ensures r.Ok? ==>
      var open := old(gh.OpenPulls(branch, BaseBranch));
      if open != [] then r.value == PrInfo(open[0].url, open[0].number, open[0].state) && gh.pulls == old(gh.pulls)
      else
        var n := |old(gh.pulls)| + 1;
        r.value == PrInfo(gh.pullUrl(n), n, "open") && gh.pulls == old(gh.pulls) + [Pull(branch, BaseBranch, gh.pullUrl(n), n, "open")]
    ensures r.Err? ==> gh.pulls == old(gh.pulls)
    ensures r.Ok? ==> gh.log == old(gh.log) + PullCalls(branch, title, body, old(gh.OpenPulls(branch, BaseBranch)))
    ensures r.Ok? ==> (r.value, gh.pulls) == PullOutcome(gh.pullUrl, old(gh.pulls), branch)
  {
    var open := gh.ListPulls(branch, BaseBranch);
    if open.Err? {
      return Err(open.error);
    }
    if open.value != [] {
      var p := open.value[0];
      assert p in gh.OpenPulls(branch, BaseBranch);
      return Ok(PrInfo(p.url, p.number, p.state));
    }
    var pr := gh.CreatePull(branch, BaseBranch, title, body);
    if pr.Err? {
      return Err(pr.error);
    }
    var p := pr.value;
    assert p in gh.pulls;
    r := Ok(PrInfo(p.url, p.number, p.state));
  }

  // ---------------------------------------------------------------------
  // publishWithAdapter

  /** What a publish does on GitHub once a branch is chosen, worked out
      from the remote's state before it: the branch, the tip the commit
      builds on, the commit's tree and id, the pull request, the pull
      requests afterwards and every call made. */
  datatype Plan = Plan(branch: string, tip: string, tree: Tree, commit: string, pr: PrInfo, pulls: seq<Pull>, calls: seq<Call>)

  /** The plan for publishing docs on the chosen record's branch, or on a
      new branch cut at the base tip; `None` when the base branch, the
      reused branch or the tip's tree is missing. */
  function PlanFor<D>(gh: GitHub, refs: map<string, string>, commits: map<string, Tree>, trees: map<string, Tree>, pulls: seq<Pull>,
                      chosen: Option<BranchRecord>, docs: seq<D>, a: Adapter<D>, user: User, clock: nat): Option<Plan>
  {
    var b := if chosen.Some? then chosen.value.branch else NewBranchName(a.entity, clock);
    if BaseBranch !in refs || (chosen.Some? && b !in refs) then None
    else
      var tip := if chosen.Some? then refs[b] else refs[BaseBranch];
      match BaseTreeIn(commits, trees, tip)
      case None => None
      case Some(base) =>
        var items := TreeItems(docs, a, BlobShas(docs, a, gh.sha1));
        var t := Overlay(base, items, gh.sha1);
        var message := a.commitMessage(docs, user);
        var commit := gh.commitId(message, gh.treeId(t), tip);
        var (pr, pulls') := PullOutcome(gh.pullUrl, pulls, b);
        Some(Plan(b, tip, t, commit, pr, pulls',
                  PrepCalls(chosen, b, refs[BaseBranch]) + BlobCalls(docs, a)
                  + CommitCalls(b, tip, items, message, gh.treeId(t), commit, CommitAuthor(user))
                  + PullCalls(b, a.prTitle(docs), a.prBody(docs), Filtered(pulls, b, BaseBranch))))
  }

  /** The plan on a branch b that is there (or is the new branch), cut
      at tip, whose tree is known. */
  lemma PlanOf<D>(gh: GitHub, refs: map<string, string>, commits: map<string, Tree>, trees: map<string, Tree>, pulls: seq<Pull>,
                  chosen: Option<BranchRecord>, docs: seq<D>, a: Adapter<D>, user: User, clock: nat, b: string, tip: string)
    requires BaseBranch in refs
    requires b == if chosen.Some? then chosen.value.branch else NewBranchName(a.entity, clock)
    requires chosen.Some? ==> b in refs && tip == refs[b]
    requires chosen.None? ==> tip == refs[BaseBranch]
    requires BaseTreeIn(commits, trees, tip).Some?
    ensures var p := PlanFor(gh, refs, commits, trees, pulls, chosen, docs, a, user, clock);
      var items := TreeItems(docs, a, BlobShas(docs, a, gh.sha1));
      var t := Overlay(BaseTreeIn(commits, trees, tip).value, items, gh.sha1);
      var message := a.commitMessage(docs, user);
      && p.Some? && p.value.branch == b && p.value.tip == tip && p.value.tree == t
      && p.value.commit == gh.commitId(message, gh.treeId(t), tip)
      && (p.value.pr, p.value.pulls) == PullOutcome(gh.pullUrl, pulls, b)
      && p.value.calls == PrepCalls(chosen, b, refs[BaseBranch]) + BlobCalls(docs, a)
                          + CommitCalls(b, tip, items, message, gh.treeId(t), p.value.commit, CommitAuthor(user))
                          + PullCalls(b, a.prTitle(docs), a.prBody(docs), Filtered(pulls, b, BaseBranch))
  {
  }

  /** `createTree` over the tip, `createCommit` with the tip as its only
      parent, `updateRef` of the branch. */
  function CommitCalls(b: string, tip: string, items: seq<TreeItem>, message: string, tree: string, commit: string, author: Author): (r: seq<Call>)
    ensures |r| == 3 && r[1].CreateCommit? && r[1].parent == tip
    ensures forall i :: 0 <= i < |r| ==> !ReadOnly(r[i])
  {
    [Call.CreateTree(tip, items), Call.CreateCommit(message, tree, tip, author), Call.UpdateRef(b, commit)]
  }

  /** The pull request a publish ends with and the pull requests after it:
      the first open one from b into the base branch, or a new one. */
  function PullOutcome(pullUrl: nat -> string, pulls: seq<Pull>, b: string): (r: (PrInfo, seq<Pull>))
    ensures var open := Filtered(pulls, b, BaseBranch);
      open != [] ==> r == (PrInfo(open[0].url, open[0].number, open[0].state), pulls)
    ensures Filtered(pulls, b, BaseBranch) == [] ==> r.1 == pulls + [Pull(b, BaseBranch, r.0.url, r.0.number, "open")] && r.0.number == |pulls| + 1
  {
    var open := Filtered(pulls, b, BaseBranch);
    var n := |pulls| + 1;
    if open != [] then (PrInfo(open[0].url, open[0].number, open[0].state), pulls)
    else (PrInfo(pullUrl(n), n, "open"), pulls + [Pull(b, BaseBranch, pullUrl(n), n, "open")])
  }

  /** The parts of GitHub a publish reads and writes. */
  datatype GitState = GitState(refs: map<string, string>, commits: map<string, Tree>, trees: map<string, Tree>, pulls: seq<Pull>, log: seq<Call>)

  function Snap(gh: GitHub): GitState
    reads gh`refs, gh`commits, gh`trees, gh`pulls, gh`log
  {
    GitState(gh.refs, gh.commits, gh.trees, gh.pulls, gh.log)
  }

  /** GitHub went from s0 to s by carrying out plan p: the branch points at
      the new commit, whose tree is the plan's, the pull requests are the
      plan's and the log grew by the plan's calls. */
  predicate Carried(s0: GitState, p: Plan, s: GitState) {
    && s.refs == s0.refs[p.branch := p.commit]
    && p.commit in s.commits && s.commits[p.commit] == p.tree
    && s.pulls == p.pulls
    && s.log == s0.log + p.calls
  }

  /** A publish on the chosen branch carried out its plan from s0 to s and
      wrote its record: the store went from records0 to `RecordedAfter`. */
  predicate Written<D>(gh: GitHub, s0: GitState, s: GitState, records0: seq<BranchRecord>, nextId0: nat, records: seq<BranchRecord>,
                       chosen: Option<BranchRecord>, docs: seq<D>, a: Adapter<D>, user: User, now: int, clock: nat)
  {
    var p := PlanFor(gh, s0.refs, s0.commits, s0.trees, s0.pulls, chosen, docs, a, user, clock);
    && p.Some? && Carried(s0, p.value, s)
    && records == RecordedAfter(records0, nextId0, chosen, a.entity, p.value.branch, p.value.pr,
                                FileUpdates(docs, a, BlobShas(docs, a, gh.sha1), now), now)
  }

  /** The outcome of a publish on the chosen branch, from GitHub s0 and the
      store records0 to s and records: on success the plan carried out, the
      record written, `updateAfterPublish` passed and the response; on an
      error the store untouched, or everything written and the error the
      hook threw. */
  ghost predicate ChosenOutcome<D>(gh: GitHub, s0: GitState, s: GitState, records0: seq<BranchRecord>, nextId0: nat, records: seq<BranchRecord>,
                             chosen: Option<BranchRecord>, docs: seq<D>, a: Adapter<D>, user: User, now: int, clock: nat,
                             r: Result<Published<D>, string>)
  {
    var p := PlanFor(gh, s0.refs, s0.commits, s0.trees, s0.pulls, chosen, docs, a, user, clock);
    var written := Written(gh, s0, s, records0, nextId0, records, chosen, docs, a, user, now, clock);
    && (r.Ok? ==> written && a.updateAfterPublish(AfterPublish(docs, p.value.commit, now, user)).None?
                  && r.value == Response(docs, p.value.branch, p.value.commit, p.value.pr, now, user))
    && (r.Err? ==> records == records0 || (written && a.updateAfterPublish(AfterPublish(docs, p.value.commit, now, user)) == Some(r.error)))
  }

  /** No later document has the same path: this document's content is the
      one that ends up at the path. */
  predicate LastOfPath<D>(docs: seq<D>, a: Adapter<D>, i: nat)
    requires i < |docs|
  {
    forall j :: i < j < |docs| ==> a.docPath(docs[j]) != a.docPath(docs[i])
  }

  /** The committed tree holds each document's blob at its path. */
  lemma PublishedTreeHoldsDocs<D>(base: Tree, docs: seq<D>, a: Adapter<D>, sha1: seq<Byte> -> string, i: nat)
    requires i < |docs| && LastOfPath(docs, a, i)
    ensures var t := Overlay(base, TreeItems(docs, a, BlobShas(docs, a, sha1)), sha1);
      var k := FindEntry(t, a.docPath(docs[i]));
      k >= 0 && t[k] == TreeEntry(a.docPath(docs[i]), Blob, ComputeBlobSha(DocText(a, docs[i]), sha1))
  {
    OverlayLookup(base, TreeItems(docs, a, BlobShas(docs, a, sha1)), sha1, i);
  }

  /** What `updateAfterPublish` is handed. */
  datatype AfterPublish<D> = AfterPublish(docs: seq<D>, commitSha: string, publishedAt: int, user: User)

  /** The outcome of a publish that did not throw. */
  datatype Published<D> = Published(branch: Option<string>, prUrl: Option<string>, message: string, afterPublish: Option<AfterPublish<D>>)

  const NothingToPublish: string := "No pending changes to publish"

  const NoToken: string := "GITHUB_TOKEN not configured in environment"

  /** The `$set` on a reused branch's record. */
  function Republish(files: seq<FileRecord>, pr: PrInfo, now: int): (f: BranchRecord -> BranchRecord)
    ensures forall x :: f(x).id == x.id && f(x).branch == x.branch
  {
    (x: BranchRecord) => x.(files := files, pr := Some(pr), status := "open", lastUsedAt := Some(now))
  }

  /** The records after the store write of a publish on branch b: the
      reused record republished with the merged files, every other record
      as it was; or, on a new branch, one open record appended. */
  function RecordedAfter(records: seq<BranchRecord>, nextId: nat, chosen: Option<BranchRecord>, entity: string,
                         b: string, pr: PrInfo, updates: seq<FileRecord>, now: int): (r: seq<BranchRecord>)
    ensures chosen.Some? ==> |r| == |records| && forall i :: 0 <= i < |r| && records[i].id != chosen.value.id ==> r[i] == records[i]
    ensures chosen.None? ==>
      && |r| == |records| + 1 && r[..|records|] == records
      && r[|records|] == BranchRecord(nextId, entity, b, BaseBranch, updates, Some(pr), "open", Some(now), now)
  {
    if chosen.Some? then UpdateById(records, chosen.value.id, Republish(MergedFiles(chosen.value.files, updates), pr, now), now)
    else records + [BranchRecord(nextId, entity, b, BaseBranch, updates, Some(pr), "open", Some(now), now)]
  }

  /** Every document is on branch b: the file at its path is its blob. */
  ghost predicate DocsOn<D>(gh: GitHub, b: string, docs: seq<D>, a: Adapter<D>)
    reads gh`refs, gh`commits
  {
    forall i :: 0 <= i < |docs| && LastOfPath(docs, a, i) ==>
      gh.Lookup(b, a.docPath(docs[i])) == File(ComputeBlobSha(DocText(a, docs[i]), gh.sha1))
  }

  /** pr describes an open pull request from b into the base branch. */
  ghost predicate PullOpen(gh: GitHub, b: string, pr: PrInfo)
    reads gh`pulls
  {
    exists p :: p in gh.OpenPulls(b, BaseBranch) && pr == PrInfo(p.url, p.number, p.state)
  }

  /** Record k is the open record of branch b, naming pr; `prUrl` is what
      the publish reports. */
  predicate RecordedOn(records: seq<BranchRecord>, k: int, b: string, pr: PrInfo, prUrl: Option<string>, now: int) {
    && 0 <= k < |records| && records[k].branch == b && records[k].status == "open"
    && records[k].lastUsedAt == Some(now) && records[k].pr == Some(pr)
    && prUrl == (if pr.url != "" then Some(pr.url) else None)
  }

  /** No two documents share a path. */
  predicate DistinctPaths<D>(docs: seq<D>, a: Adapter<D>) {
    forall i, j :: 0 <= i < j < |docs| ==> a.docPath(docs[i]) != a.docPath(docs[j])
  }

  /** The file records name, for each document, its path and blob. */
  predicate FilesRecorded<D>(files: seq<FileRecord>, docs: seq<D>, a: Adapter<D>, sha1: seq<Byte> -> string, now: int) {
    forall i :: 0 <= i < |docs| ==>
      FindFile(files, a.docPath(docs[i])) == Some(FileRecord(a.docPath(docs[i]), ComputeBlobSha(DocText(a, docs[i]), sha1), Some(now)))
  }

  const PublishedPrefix := "Published "
  const FilesTo := " file(s) to "

  /** The state a successful publish of docs leaves behind. */
  ghost predicate PublishedOn<D>(gh: GitHub, records: seq<BranchRecord>, res: Published<D>, docs: seq<D>, a: Adapter<D>, user: User, now: int)
    reads gh`refs, gh`commits, gh`pulls
  {
    res.branch.Some? &&
    var b := res.branch.value;
    && b in gh.refs
    && res.afterPublish == Some(AfterPublish(docs, gh.refs[b], now, user))
    && res.message == PublishedPrefix + NatToString(|docs|) + FilesTo + b
    && DocsOn(gh, b, docs, a)
    && exists k :: 0 <= k < |records| && records[k].pr.Some?
                   && RecordedOn(records, k, b, records[k].pr.value, res.prUrl, now)
                   && PullOpen(gh, b, records[k].pr.value)
                   && (DistinctPaths(docs, a) ==> FilesRecorded(records[k].files, docs, a, gh.sha1, now))
  }

  /** `publishWithAdapter`: commits the documents to a reused or a new
      publish branch and makes sure a pull request is open for it. */
  method PublishWithAdapter<D>(gh: GitHub, store: BranchStore, a: Adapter<D>, docs: seq<D>, user: User,
                               token: Option<string>, now: int, clock: nat)
    returns (r: Result<Published<D>, string>)
    requires store.Valid()
    modifies gh, store
    ensures store.Valid()
    ensures (token.None? || token == Some("")) ==>
      r == Err(NoToken) && gh.log == old(gh.log) && store.records == old(store.records)
    ensures token.Some? && token != Some("") && docs == [] ==>
      r == Ok(Published(None, None, NothingToPublish, None)) && gh.log == old(gh.log) && store.records == old(store.records)
    ensures token.Some? && token != Some("") && docs != [] ==>
      var sel := old(Selection(gh, Candidates(store.records, a.entity), docs, a));
      var marked := MarkAllStale(old(store.records), sel.1, now);
      && (sel.0.Err? ==> r == Err(sel.0.error) && store.records == marked && gh.refs == old(gh.refs) && LookupsAdded(old(gh.log), gh.log))
      && (sel.0.Ok? ==>
            exists mid :: LookupsAdded(old(gh.log), mid)
                          && ChosenOutcome(gh, old(Snap(gh)).(log := mid), Snap(gh), marked, old(store.nextId), store.records,
                                           sel.0.value, docs, a, user, now, clock, r))
    ensures r.Ok? && docs != [] ==> PublishedOn(gh, store.records, r.value, docs, a, user, now)
  {
    if token.None? || token == Some("") {
      return Err(NoToken);
    }
    if docs == [] {
      return Ok(Published(None, None, NothingToPublish, None));
    }
    var chosen := SelectBranch(gh, store, docs, a, now);
    if chosen.Err? {
      return Err(chosen.error);
    }
    ChosenFromStore(gh, old(store.records), docs, a);
    ghost var mid := Snap(gh);
    assert mid == old(Snap(gh)).(log := mid.log);
    r := PublishOnChosen(gh, store, chosen.value, old(store.records), a, docs, user, now, clock);
  }

  /** A branch the selection picks is one of the store's records. */
  lemma ChosenFromStore<D>(gh: GitHub, rs: seq<BranchRecord>, docs: seq<D>, a: Adapter<D>)
    ensures var r := Selection(gh, Candidates(rs, a.entity), docs, a).0;
      r.Ok? && r.value.Some? ==> r.value.value in rs
  {
    SelectionSound(gh, Candidates(rs, a.entity), docs, a);
    CandidatesNewestFirst(rs, a.entity);
  }

  /** The rest of `publishWithAdapter` once the branch is chosen: commit,
      pull request, store record and the response. */
  method PublishOnChosen<D>(gh: GitHub, store: BranchStore, chosen: Option<BranchRecord>, ghost original: seq<BranchRecord>,
                            a: Adapter<D>, docs: seq<D>, user: User, now: int, clock: nat)
    returns (r: Result<Published<D>, string>)
    requires store.Valid() && OnlyMarkedStale(original, store.records)
    requires chosen.Some? ==> chosen.value in original
    modifies gh, store
    ensures store.Valid()
    ensures ChosenOutcome(gh, old(Snap(gh)), Snap(gh), old(store.records), old(store.nextId), store.records, chosen, docs, a, user, now, clock, r)
    ensures r.Ok? ==> PublishedOn(gh, store.records, r.value, docs, a, user, now)
  {
    var committed := CommitToBranch(gh, chosen, docs, a, user, now, clock);
    if committed.Err? {
      return Err(committed.error);
    }
    var (branch, commit, pr, updates) := committed.value;
    r := RecordPublish(gh, store, chosen, original, a, docs, user, now, branch, commit, pr, updates);
  }

  /** The response of a publish of docs on branch b. */
  function Response<D>(docs: seq<D>, b: string, commit: string, pr: PrInfo, now: int, user: User): (res: Published<D>)
    ensures res.branch == Some(b) && res.afterPublish == Some(AfterPublish(docs, commit, now, user))
    ensures res.prUrl.Some? <==> pr.url != ""
  {
    Published(Some(b), if pr.url != "" then Some(pr.url) else None, PublishedPrefix + NatToString(|docs|) + FilesTo + b,
              Some(AfterPublish(docs, commit, now, user)))
  }

  /** The store write and the response once the documents are on the
      branch and its pull request is open. */
  method RecordPublish<D>(gh: GitHub, store: BranchStore, chosen: Option<BranchRecord>, ghost original: seq<BranchRecord>,
                          a: Adapter<D>, docs: seq<D>, user: User, now: int,
                          branch: string, commit: string, pr: PrInfo, updates: seq<FileRecord>)
    returns (r: Result<Published<D>, string>)
    requires store.Valid() && OnlyMarkedStale(original, store.records)
    requires chosen.Some? ==> chosen.value in original && chosen.value.branch == branch
    requires branch in gh.refs && gh.refs[branch] == commit
    requires updates == FileUpdates(docs, a, BlobShas(docs, a, gh.sha1), now)
    requires DocsOn(gh, branch, docs, a) && PullOpen(gh, branch, pr)
    modifies store
    ensures store.Valid()
    ensures store.records == RecordedAfter(old(store.records), old(store.nextId), chosen, a.entity, branch, pr, updates, now)
    ensures var hook := a.updateAfterPublish(AfterPublish(docs, commit, now, user));
      && (r.Err? <==> hook.Some?)
      && (r.Err? ==> r.error == hook.value)
      && (r.Ok? ==> r.value == Response(docs, branch, commit, pr, now, user))
    ensures r.Ok? ==> PublishedOn(gh, store.records, r.value, docs, a, user, now)
  {
    var k := RecordBranch(store, chosen, original, a.entity, branch, pr, docs, a, gh.sha1, updates, now);
    var failed := a.updateAfterPublish(AfterPublish(docs, commit, now, user));
    if failed.Some? {
      return Err(failed.value);
    }
    PublishedOnIntro(gh, store.records, docs, a, user, now, k, branch, pr);
    r := Ok(Response(docs, branch, commit, pr, now, user));
  }

  lemma PublishedOnIntro<D>(gh: GitHub, records: seq<BranchRecord>, docs: seq<D>, a: Adapter<D>,
                            user: User, now: int, k: nat, b: string, pr: PrInfo)
    requires b in gh.refs && DocsOn(gh, b, docs, a) && PullOpen(gh, b, pr)
    requires RecordedOn(records, k, b, pr, if pr.url != "" then Some(pr.url) else None, now)
    requires DistinctPaths(docs, a) ==> FilesRecorded(records[k].files, docs, a, gh.sha1, now)
    ensures PublishedOn(gh, records, Response(docs, b, gh.refs[b], pr, now, user), docs, a, user, now)
  {
  }

  /** Everything `publishWithAdapter` does on GitHub once a branch is
      chosen: the branch, the commit of the documents, the pull request. */
  method CommitToBranch<D>(gh: GitHub, chosen: Option<BranchRecord>, docs: seq<D>, a: Adapter<D>, user: User, now: int, clock: nat)
    returns (r: Result<(string, string, PrInfo, seq<FileRecord>), string>)
    modifies gh`log, gh`refs, gh`trees, gh`commits, gh`pulls
    ensures r.Ok? ==>
      var (b, commit, pr, updates) := r.value;
      && b in gh.refs && gh.refs[b] == commit
      && (chosen.Some? ==> b == chosen.value.branch)
      && (chosen.None? ==> b == NewBranchName(a.entity, clock) && b !in old(gh.refs))
      && updates == FileUpdates(docs, a, BlobShas(docs, a, gh.sha1), now)
      && DocsOn(gh, b, docs, a)
      && PullOpen(gh, b, pr)
    ensures r.Ok? ==>
      var p := PlanFor(gh, old(gh.refs), old(gh.commits), old(gh.trees), old(gh.pulls), chosen, docs, a, user, clock);
      && p.Some? && r.value.0 == p.value.branch && r.value.1 == p.value.commit && r.value.2 == p.value.pr
      && Carried(old(Snap(gh)), p.value, Snap(gh))
  {
    ghost var refs0, commits0, trees0, log0, pulls0 := gh.refs, gh.commits, gh.trees, gh.log, gh.pulls;
    var prepared := PrepareBranch(gh, chosen, a.entity, clock);
    if prepared.Err? {
      return Err(prepared.error);
    }
    var (branch, tip) := prepared.value;
    ghost var refs1, log1 := gh.refs, gh.log;
    var committed := CommitOnBranch(gh, branch, tip, docs, a, user, now);
    if committed.Err? {
      return Err(committed.error);
    }
    var (commit, pr, updates) := committed.value;
    PlanCarriedOut(gh, refs0, commits0, trees0, pulls0, log0, refs1, log1, gh.refs, gh.commits, gh.pulls, gh.log,
                   chosen, docs, a, user, clock, branch, tip, commit, pr);
    r := Ok((branch, commit, pr, updates));
  }

  /** Picking the branch and then committing on it carries out the plan. */
  lemma PlanCarriedOut<D>(gh: GitHub, refs0: map<string, string>, commits0: map<string, Tree>, trees0: map<string, Tree>,
                          pulls0: seq<Pull>, log0: seq<Call>, refs1: map<string, string>, log1: seq<Call>,
                          refs2: map<string, string>, commits2: map<string, Tree>, pulls2: seq<Pull>, log2: seq<Call>,
                          chosen: Option<BranchRecord>, docs: seq<D>, a: Adapter<D>, user: User, clock: nat,
                          branch: string, tip: string, commit: string, pr: PrInfo)
    requires BaseBranch in refs0 && log1 == log0 + PrepCalls(chosen, branch, refs0[BaseBranch])
    requires branch in refs1 && refs1[branch] == tip
    requires chosen.Some? ==> branch == chosen.value.branch && refs1 == refs0
    requires chosen.None? ==> branch == NewBranchName(a.entity, clock) && tip == refs0[BaseBranch] && refs1 == refs0[branch := tip]
    requires BaseTreeIn(commits0, trees0, tip).Some?
    requires var items := TreeItems(docs, a, BlobShas(docs, a, gh.sha1));
      var t := Overlay(BaseTreeIn(commits0, trees0, tip).value, items, gh.sha1);
      var message := a.commitMessage(docs, user);
      && commit == gh.commitId(message, gh.treeId(t), tip)
      && refs2 == refs1[branch := commit]
      && commit in commits2 && commits2[commit] == t
      && (pr, pulls2) == PullOutcome(gh.pullUrl, pulls0, branch)
      && log2 == log1 + BlobCalls(docs, a) + CommitCalls(branch, tip, items, message, gh.treeId(t), commit, CommitAuthor(user))
                 + PullCalls(branch, a.prTitle(docs), a.prBody(docs), Filtered(pulls0, branch, BaseBranch))
    ensures var p := PlanFor(gh, refs0, commits0, trees0, pulls0, chosen, docs, a, user, clock);
      && p.Some? && branch == p.value.branch && commit == p.value.commit && pr == p.value.pr
      && refs2 == refs0[p.value.branch := p.value.commit]
      && p.value.commit in commits2 && commits2[p.value.commit] == p.value.tree
      && pulls2 == p.value.pulls
      && log2 == log0 + p.value.calls
  {
    PlanOf(gh, refs0, commits0, trees0, pulls0, chosen, docs, a, user, clock, branch, tip);
    var plan := PlanFor(gh, refs0, commits0, trees0, pulls0, chosen, docs, a, user, clock);
    var items := TreeItems(docs, a, BlobShas(docs, a, gh.sha1));
    var t := Overlay(BaseTreeIn(commits0, trees0, tip).value, items, gh.sha1);
    PlanSteps(plan, log0, log1, log2, PrepCalls(chosen, branch, refs0[BaseBranch]), BlobCalls(docs, a),
              CommitCalls(branch, tip, items, a.commitMessage(docs, user), gh.treeId(t), commit, CommitAuthor(user)),
              PullCalls(branch, a.prTitle(docs), a.prBody(docs), Filtered(pulls0, branch, BaseBranch)));
    if chosen.None? {
      MoveTwice(refs0, branch, tip, commit);
    }
  }

  /** The commit of the documents on a branch at a known tip, and its pull
      request: blobs, tree over the tip, commit with the tip as parent,
      the branch moved to it, then the pull request found or opened. */
  method CommitOnBranch<D>(gh: GitHub, branch: string, tip: string, docs: seq<D>, a: Adapter<D>, user: User, now: int)
    returns (r: Result<(string, PrInfo, seq<FileRecord>), string>)
    modifies gh`log, gh`trees, gh`commits, gh`refs, gh`pulls
    ensures r.Ok? ==>
      && old(gh.BaseTree(tip)).Some? && branch in old(gh.refs)
      && var items := TreeItems(docs, a, BlobShas(docs, a, gh.sha1));
      var t := Overlay(old(gh.BaseTree(tip)).value, items, gh.sha1);
      var message := a.commitMessage(docs, user);
      && r.value.0 == gh.commitId(message, gh.treeId(t), tip)
      && gh.refs == old(gh.refs)[branch := r.value.0]
      && r.value.0 in gh.commits && gh.commits[r.value.0] == t
      && (r.value.1, gh.pulls) == PullOutcome(gh.pullUrl, old(gh.pulls), branch)
      && r.value.2 == FileUpdates(docs, a, BlobShas(docs, a, gh.sha1), now)
      && gh.log == old(gh.log) + BlobCalls(docs, a) + CommitCalls(branch, tip, items, message, gh.treeId(t), r.value.0, CommitAuthor(user))
                   + PullCalls(branch, a.prTitle(docs), a.prBody(docs), old(gh.OpenPulls(branch, BaseBranch)))
      && DocsOn(gh, branch, docs, a) && PullOpen(gh, branch, r.value.1)
  {
    var uploaded := UploadBlobs(gh, docs, a, now);
    if uploaded.Err? {
      return Err(uploaded.error);
    }
    var (items, updates) := uploaded.value;
    var done := CommitAndOpen(gh, branch, tip, items, docs, a, user);
    if done.Err? {
      return Err(done.error);
    }
    r := Ok((done.value.0, done.value.1, updates));
  }

  /** The commit of the uploaded items on the branch, then its pull request. */
  method CommitAndOpen<D>(gh: GitHub, branch: string, tip: string, items: seq<TreeItem>, docs: seq<D>, a: Adapter<D>, user: User)
    returns (r: Result<(string, PrInfo), string>)
    requires items == TreeItems(docs, a, BlobShas(docs, a, gh.sha1))
    modifies gh`log, gh`trees, gh`commits, gh`refs, gh`pulls
    ensures r.Ok? ==>
      && old(gh.BaseTree(tip)).Some? && branch in old(gh.refs)
      && var t := Overlay(old(gh.BaseTree(tip)).value, items, gh.sha1);
      var message := a.commitMessage(docs, user);
      && r.value.0 == gh.commitId(message, gh.treeId(t), tip)
      && gh.refs == old(gh.refs)[branch := r.value.0]
      && r.value.0 in gh.commits && gh.commits[r.value.0] == t
      && (r.value.1, gh.pulls) == PullOutcome(gh.pullUrl, old(gh.pulls), branch)
      && gh.log == old(gh.log) + CommitCalls(branch, tip, items, message, gh.treeId(t), r.value.0, CommitAuthor(user))
                   + PullCalls(branch, a.prTitle(docs), a.prBody(docs), old(gh.OpenPulls(branch, BaseBranch)))
      && DocsOn(gh, branch, docs, a) && PullOpen(gh, branch, r.value.1)
  {
    ghost var base := gh.BaseTree(tip);
    var commit := CommitItems(gh, branch, tip, items, a.commitMessage(docs, user), CommitAuthor(user));
    if commit.Err? {
      return Err(commit.error);
    }
    DocsOnBranch(gh, branch, base.value, docs, a);
    var pr := EnsurePull(gh, branch, a.prTitle(docs), a.prBody(docs));
    if pr.Err? {
      return Err(pr.error);
    }
    r := Ok((commit.value, pr.value));
  }

  /** The calls that change GitHub, in order. */
  function Writes(cs: seq<Call>): (r: seq<Call>)
    ensures |r| <= |cs|
  {
    if cs == [] then [] else Writes(cs[..|cs| - 1]) + (if ReadOnly(cs[|cs| - 1]) then [] else [cs[|cs| - 1]])
  }

  lemma {:induction false} WritesAppend(xs: seq<Call>, ys: seq<Call>)
    ensures Writes(xs + ys) == Writes(xs) + Writes(ys)
    decreases |ys|
  {
    if ys == [] {
      assert xs + ys == xs;
    } else {
      WritesAppend(xs, ys[..|ys| - 1]);
      assert (xs + ys)[..|xs + ys| - 1] == xs + ys[..|ys| - 1];
    }
  }

  /** Calls none of which reads are all writes. */
  lemma {:induction false} WritesAll(cs: seq<Call>)
    requires forall i :: 0 <= i < |cs| ==> !ReadOnly(cs[i])
    ensures Writes(cs) == cs
  {
    if cs != [] {
      WritesAll(cs[..|cs| - 1]);
    }
  }

  /** The writes of a plan, in order: the new branch's `createRef` (none
      when a branch is reused), one blob per document, then exactly one
      tree over the tip, one commit whose only parent is the tip, one
      update of the branch, and a `pulls.create` only when no pull request
      is open. */
  lemma PlanWrites<D>(gh: GitHub, refs: map<string, string>, commits: map<string, Tree>, trees: map<string, Tree>, pulls: seq<Pull>,
                      chosen: Option<BranchRecord>, docs: seq<D>, a: Adapter<D>, user: User, clock: nat)
    requires PlanFor(gh, refs, commits, trees, pulls, chosen, docs, a, user, clock).Some?
    ensures var p := PlanFor(gh, refs, commits, trees, pulls, chosen, docs, a, user, clock).value;
      && (chosen.None? ==> p.tip == refs[BaseBranch] && p.branch == NewBranchName(a.entity, clock))
      && (chosen.Some? ==> p.branch == chosen.value.branch && p.tip == refs[p.branch])
      && p.commit == gh.commitId(a.commitMessage(docs, user), gh.treeId(p.tree), p.tip)
      && Writes(p.calls)
         == (if chosen.None? then [Call.CreateRef(p.branch, p.tip)] else [])
            + BlobCalls(docs, a)
            + [Call.CreateTree(p.tip, TreeItems(docs, a, BlobShas(docs, a, gh.sha1))),
               Call.CreateCommit(a.commitMessage(docs, user), gh.treeId(p.tree), p.tip, CommitAuthor(user)),
               Call.UpdateRef(p.branch, p.commit)]
            + (if Filtered(pulls, p.branch, BaseBranch) == [] then [Call.CreatePull(p.branch, BaseBranch, a.prTitle(docs), a.prBody(docs))] else [])
  {
    var p := PlanFor(gh, refs, commits, trees, pulls, chosen, docs, a, user, clock).value;
    CallWrites(chosen, p.branch, refs[BaseBranch], docs, a,
               CommitCalls(p.branch, p.tip, TreeItems(docs, a, BlobShas(docs, a, gh.sha1)), a.commitMessage(docs, user),
                           gh.treeId(p.tree), p.commit, CommitAuthor(user)),
               a.prTitle(docs), a.prBody(docs), Filtered(pulls, p.branch, BaseBranch));
  }

  /** The writes among the calls of a publish on a chosen branch. */
  lemma CallWrites<D>(chosen: Option<BranchRecord>, b: string, baseTip: string, docs: seq<D>, a: Adapter<D>, commit: seq<Call>,
                      title: string, body: string, open: seq<Pull>)
    requires forall i :: 0 <= i < |commit| ==> !ReadOnly(commit[i])
    ensures Writes(PrepCalls(chosen, b, baseTip) + BlobCalls(docs, a) + commit + PullCalls(b, title, body, open))
            == (if chosen.None? then [Call.CreateRef(b, baseTip)] else []) + BlobCalls(docs, a) + commit
               + (if open == [] then [Call.CreatePull(b, BaseBranch, title, body)] else [])
  {
    var prep := PrepCalls(chosen, b, baseTip);
    var blobs := BlobCalls(docs, a);
    var pull := PullCalls(b, title, body, open);
    BlobWrites(docs, a);
    WritesAll(commit);
    PrepWrites(chosen, b, baseTip);
    PullWrites(b, title, body, open);
    calc {
      Writes(prep + blobs + commit + pull);
      { WritesAppend(prep + blobs + commit, pull); }
      Writes(prep + blobs + commit) + Writes(pull);
      { WritesAppend(prep + blobs, commit); }
      Writes(prep + blobs) + commit + Writes(pull);
      { WritesAppend(prep, blobs); }
      Writes(prep) + blobs + commit + Writes(pull);
    }
  }

  lemma BlobWrites<D>(docs: seq<D>, a: Adapter<D>)
    ensures Writes(BlobCalls(docs, a)) == BlobCalls(docs, a)
  {
    var blobs := BlobCalls(docs, a);
    assert forall i :: 0 <= i < |blobs| ==> blobs[i].CreateBlob?;
    WritesAll(blobs);
  }

  lemma PrepWrites(chosen: Option<BranchRecord>, b: string, baseTip: string)
    ensures Writes(PrepCalls(chosen, b, baseTip)) == if chosen.None? then [Call.CreateRef(b, baseTip)] else []
  {
    var prep := PrepCalls(chosen, b, baseTip);
    assert prep[..1] == [prep[0]];
  }

  lemma PullWrites(b: string, title: string, body: string, open: seq<Pull>)
    ensures Writes(PullCalls(b, title, body, open)) == if open == [] then [Call.CreatePull(b, BaseBranch, title, body)] else []
  {
    var pull := PullCalls(b, title, body, open);
    if open == [] {
      assert pull[..1] == [pull[0]];
    }
  }

  /** The log after the branch is picked and the commit made is the old
      log and the plan's calls. */
  lemma PlanSteps(plan: Option<Plan>, log0: seq<Call>, log1: seq<Call>, log2: seq<Call>,
                  prep: seq<Call>, blobs: seq<Call>, commit: seq<Call>, pulls: seq<Call>)
    requires plan.Some? && plan.value.calls == prep + blobs + commit + pulls
    requires log1 == log0 + prep && log2 == log1 + blobs + commit + pulls
    ensures log2 == log0 + plan.value.calls
  {
  }

  /** The store write of a successful publish: the reused branch's record
      gets the merged files, the pull request and "open"; otherwise a new
      record is created for the new branch. Returns the record's position. */
  method RecordBranch<D>(store: BranchStore, chosen: Option<BranchRecord>, ghost original: seq<BranchRecord>, entity: string,
                         branch: string, pr: PrInfo, ghost docs: seq<D>, ghost a: Adapter<D>, ghost sha1: seq<Byte> -> string,
                         updates: seq<FileRecord>, now: int)
    returns (ghost k: nat)
    requires store.Valid() && OnlyMarkedStale(original, store.records)
    requires updates == FileUpdates(docs, a, BlobShas(docs, a, sha1), now)
    requires chosen.Some? ==> chosen.value in original && chosen.value.branch == branch
    modifies store
    ensures store.Valid()
    ensures RecordedOn(store.records, k, branch, pr, if pr.url != "" then Some(pr.url) else None, now)
    ensures chosen.Some? ==> store.records[k].files == MergedFiles(chosen.value.files, updates)
    ensures chosen.None? ==> store.records == old(store.records) + [store.records[k]] && store.records[k].files == updates
    ensures DistinctPaths(docs, a) ==> FilesRecorded(store.records[k].files, docs, a, sha1, now)
    ensures store.records == RecordedAfter(old(store.records), old(store.nextId), chosen, entity, branch, pr, updates, now)
  {
    if DistinctPaths(docs, a) {
      if chosen.Some? {
        MergedRecorded(chosen.value.files, docs, a, sha1, now);
      } else {
        UpdatesRecorded(docs, a, sha1, now);
      }
    }
    if chosen.Some? {
      var c := chosen.value;
      var files := MergeFileRecords(c.files, updates);
      k := RecordOf(original, store.records, c);
      store.Update(c.id, Republish(files, pr, now), now);
    } else {
      k := |store.records|;
      var _ := store.Create(BranchRecord(0, entity, branch, BaseBranch, updates, Some(pr), "open", Some(now), now), now);
    }
  }

  /** Every document is on the branch after the commit. */
  lemma DocsOnBranch<D>(gh: GitHub, b: string, base: Tree, docs: seq<D>, a: Adapter<D>)
    requires b in gh.refs && gh.refs[b] in gh.commits
    requires gh.commits[gh.refs[b]] == Overlay(base, TreeItems(docs, a, BlobShas(docs, a, gh.sha1)), gh.sha1)
    ensures DocsOn(gh, b, docs, a)
  {
    DocsInTree(base, docs, a, gh.sha1);
    assert gh.RefTree(b) == Some(Overlay(base, TreeItems(docs, a, BlobShas(docs, a, gh.sha1)), gh.sha1));
  }

  /** The published tree holds the last document of each path. */
  lemma DocsInTree<D>(base: Tree, docs: seq<D>, a: Adapter<D>, sha1: seq<Byte> -> string)
    ensures var t := Overlay(base, TreeItems(docs, a, BlobShas(docs, a, sha1)), sha1);
      forall i :: 0 <= i < |docs| && LastOfPath(docs, a, i) ==>
        ContentAt(Some(t), a.docPath(docs[i])) == File(ComputeBlobSha(DocText(a, docs[i]), sha1))
  {
    forall i | 0 <= i < |docs| && LastOfPath(docs, a, i)
      ensures ContentAt(Some(Overlay(base, TreeItems(docs, a, BlobShas(docs, a, sha1)), sha1)), a.docPath(docs[i]))
           == File(ComputeBlobSha(DocText(a, docs[i]), sha1))
    {
      PublishedTreeHoldsDocs(base, docs, a, sha1, i);
    }
  }

  /** The chosen record is still in the store, at most marked stale. */
  lemma RecordOf(before: seq<BranchRecord>, after: seq<BranchRecord>, c: BranchRecord) returns (k: nat)
    requires c in before && OnlyMarkedStale(before, after)
    ensures k < |after| && after[k].id == c.id && after[k].branch == c.branch
  {
    var j :| 0 <= j < |before| && before[j] == c;
    assert StaleOrSame(before[j], after[j]);
    k := j;
  }

  /** In records with distinct paths, `find` gets the one record of a path. */
  lemma FindUnique(files: seq<FileRecord>, k: nat)
    requires Distinct(Paths(files)) && k < |files|
    ensures FindFile(files, files[k].path) == Some(files[k])
  {
    DistinctBefore(files, k);
    FindFileAt(files, files[k].path, k);
  }

  lemma DistinctBefore(files: seq<FileRecord>, k: nat)
    requires Distinct(Paths(files)) && k < |files|
    ensures forall m :: 0 <= m < k ==> files[m].path != files[k].path
  {
    var ps := Paths(files);
    assert forall m :: 0 <= m < k ==> ps[m] != ps[k];
  }

  /** `find` gets the first record with the path. */
  lemma {:induction false} FindFileAt(files: seq<FileRecord>, path: string, k: nat)
    requires k < |files| && files[k].path == path
    requires forall m :: 0 <= m < k ==> files[m].path != path
    ensures FindFile(files, path) == Some(files[k])
  {
    if k > 0 {
      FindFileAt(files[1..], path, k - 1);
    }
  }

  /** A new branch's record names each document's blob. */
  lemma UpdatesRecorded<D>(docs: seq<D>, a: Adapter<D>, sha1: seq<Byte> -> string, now: int)
    requires DistinctPaths(docs, a)
    ensures FilesRecorded(FileUpdates(docs, a, BlobShas(docs, a, sha1), now), docs, a, sha1, now)
  {
    var updates := FileUpdates(docs, a, BlobShas(docs, a, sha1), now);
    forall i | 0 <= i < |docs|
      ensures FindFile(updates, a.docPath(docs[i])) == Some(updates[i])
    {
      FindUnique(updates, i);
    }
  }

  /** A reused branch's merged record names each document's blob. */
  lemma MergedRecorded<D>(existing: seq<FileRecord>, docs: seq<D>, a: Adapter<D>, sha1: seq<Byte> -> string, now: int)
    requires DistinctPaths(docs, a)
    ensures FilesRecorded(MergedFiles(existing, FileUpdates(docs, a, BlobShas(docs, a, sha1), now)), docs, a, sha1, now)
  {
    var updates := FileUpdates(docs, a, BlobShas(docs, a, sha1), now);
    var merged := MergedFiles(existing, updates);
    forall i | 0 <= i < |docs|
      ensures FindFile(merged, a.docPath(docs[i])) == Some(updates[i])
    {
      var p := a.docPath(docs[i]);
      assert Paths(updates)[i] == p;
      MergedFilesRecords(existing, updates, p);
      var last := LastRecord(updates, p).value;
      var u :| 0 <= u < |updates| && updates[u] == last;
      assert u == i;
      var j :| 0 <= j < |merged| && Paths(merged)[j] == p;
      FindUnique(merged, j);
    }
  }

  /** Publishing the same documents again finds the branch just published
      reusable: every recorded blob is what the branch holds. */
  lemma PublishedBranchReusable<D>(gh: GitHub, records: seq<BranchRecord>, res: Published<D>, docs: seq<D>, a: Adapter<D>,
                                   user: User, now: int)
    requires PublishedOn(gh, records, res, docs, a, user, now)
    requires DistinctPaths(docs, a)
    requires forall i :: 0 <= i < |docs| ==> ComputeBlobSha(DocText(a, docs[i]), gh.sha1) != ""
    requires forall i :: 0 <= i < |docs| ==> !gh.fails(Call.GetContent(res.branch.value, a.docPath(docs[i])))
    ensures exists k :: 0 <= k < |records| && records[k].branch == res.branch.value
                        && ReuseVerdict(gh, res.branch.value, records[k].files, docs, a) == Ok(true)
  {
    var b := res.branch.value;
    var k :| 0 <= k < |records| && records[k].pr.Some?
             && RecordedOn(records, k, b, records[k].pr.value, res.prUrl, now)
             && PullOpen(gh, b, records[k].pr.value)
             && (DistinctPaths(docs, a) ==> FilesRecorded(records[k].files, docs, a, gh.sha1, now));
    forall i | 0 <= i < |docs| ensures PassesOn(gh, b, records[k].files, a, docs[i]) {
      assert LastOfPath(docs, a, i);
    }
    ReuseVerdictAllPass(gh, b, records[k].files, docs, a);
  }
}
