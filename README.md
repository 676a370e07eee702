# DocsFlow core in Dafny

DocsFlow is a web editor for the documentation, tech-stack data and release notes kept
in a GitHub repository. Editors change drafts held in a document store. The drafts are
published back to the repository as one commit and one pull request. Pushes to the
repository flow back into the store through a webhook and sync scripts. This project
models the core of that round trip and proves properties of the model:

- **Text reconciliation** (`diff3.dfy`, `history.dfy`): the folding of three-way merge
  chunks into a clean flag and a merged text, line patches, and the replay of a
  document's edit history with the test script's verdict.
- **Structured comparison and silent merge** (`json.dfy`, `repro.dfy`): JSON values,
  the key-based deep equality, the silent merge of tech-stack data (including its
  dropped local tail), the array-item editor and the commit filter.
- **Publish engine** (`utf8.dfy`, `gitblob.dfy`, `remote.dfy`, `publish.dfy`,
  `publishstore.dfy`, `branchsync.dfy`, `publishroute.dfy`):
  - the Git blob preimage;
  - the branch-reuse decision and the merge of file records;
  - the choice of branch among open records;
  - the one-commit pipeline;
  - the reconciliation of publish-branch records with the repository's branches;
  - the older two-commit publish route.
  The remote repository is a class whose fields (refs, commits, trees, pulls) the
  calls update.
- **Upstream sync into the store** (`github.dfy`, `webhook.dfy`, `datafiles.dfy`,
  `techstore.dfy`, `techsync.dfy`, `treesync.dfy`, `techactions.dfy`,
  `docactions.dfy`, `releasenotes.dfy`):
  - the shaping of GitHub answers;
  - the webhook's gating, file classification, removal-then-update order and bookmark
    rule;
  - the tech-stack integrity check;
  - the tree snapshot;
  - the draft-keeping upserts;
  - the draft saves that append a history entry.
- **Editor state and helpers** (`notescontext.dfy`, `editorpage.dfy`, `assets.dfy`,
  `docsmdx.dfy`, `version.dfy`, `sorting.dfy`):
  - the release-notes editor state machine and the page's merge adoption;
  - the file tree drawn from a flat listing;
  - base64 and `data:` URL sniffing, following RFC 2397 and the alphabet of section 4
    of RFC 4648;
  - the tab-list operations of the MDX editor;
  - version comparison.

Stores and the remote repository are classes, and their handlers are methods. Each
method's contract ties its result and the new state to functions of the old state; for
the publish engine these are the branch selection, the plan of GitHub calls and the
store write. The properties are proved about those functions. Foreign primitives are parameters of the operations that use them:

- SHA-1, HMAC, `atob`, `decodeURIComponent`, `JSON.parse`/`JSON.stringify`;
- node-diff3's `diff3Merge`, `diffPatch` and `patch`;
- `localeCompare`, date parsing and the clock;
- the replies of GitHub and the database.

Where the system's specification and the code disagree, the model follows the code:

- Nothing retains "ghost" documents. The tech-stack integrity check deletes every record
  whose file is not among the ".json" files listed at its data path, drafts included
  (`TechSync.IntegrityIds`). The configuration does not define that path (see
  "## Left out"), so the listing the deletions follow is of an undefined path. The tree
  snapshot never touches documents (`TreeSync.PerformTreeSync`).
- The silent merge drops the local tail of a locally extended array instead of
  keeping it (`Repro.LocalTailDropped`).
- The structured three-way conflict classification is not in the code, so it is not
  modelled.
- The push webhook's filter prefix is a parameter of its handlers (`Webhook.HandlePush`,
  `Webhook.Post`). The route as written is the instance `DataPathAsWritten`: the
  configuration has no `DATA_PATH`, so the route filters with the text "undefined".
  With it, a push that modifies a tech-stack file re-syncs nothing and still moves the
  sync bookmark (`Webhook.AsWrittenPushSkipsDataFiles`). The intended instance,
  `DataPath`, is the configured tech-stack directory (`Webhook.ConfiguredPushSyncsDataFiles`).

## Model

| member | source | states |
|---|---|---|
| Version.Rank | lib/utils/version.ts:1-7 | a tag's precedence is at most 5, and only a non-numeric word has one |
| Version.CompareSegment | lib/utils/version.ts:43-68 | one segment pair gives -1, 0 or 1, and 0 exactly when both are equal numbers or the same word |
| Version.CompareVersions | lib/utils/version.ts:18-72 | the comparison only ever answers -1, 0 or 1 |
| Version.Normalize | lib/utils/version.ts:20-21 | at least one segment and none holding "."; joined with "." the segments give the lower-cased version with every "-" read as "." |
| Version.CompareSegments | lib/utils/version.ts:23-71 | the loop answers -1, 0 or 1, and 0 only for lists of equal length |
| Version.CompareSegmentsReflexive | lib/utils/version.ts:25-71 | a segment list compares equal to itself |
| Version.CompareVersionsReflexive | lib/utils/version.ts:25-71 | every version compares equal to itself |
| Version.CompareSegmentAntisymmetric | lib/utils/version.ts:43-68 | swapping two segments negates their comparison |
| Version.CompareSegmentsAntisymmetric | lib/utils/version.ts:25-71 | swapping two segment lists negates their comparison, including the missing-segment rule |
| Version.CompareVersionsAntisymmetric | lib/utils/version.ts:9-17 | v1 is greater than v2 exactly when v2 is less than v1 |
| Version.SeparatorAndCaseIgnored | lib/utils/version.ts:20-21 | "1.0.0-RC" and "1.0.0.rc" compare equal |
| Version.CommonPrefix | lib/utils/version.ts:25-28 | a shared leading run of segments does not influence the result |
| Version.NormalizeAppend | lib/utils/version.ts:20-21 | appending "-" and a suffix to a version appends the suffix's segments |
| Version.ExtraSegment | lib/utils/version.ts:29-41 | a segment list with one extra trailing segment is lower when that segment is a known tag, higher otherwise |
| Version.ExtraTrailingSegment | lib/utils/version.ts:29-41 | v-x is below v when x is a known tag and above it otherwise, in both argument orders |
| Version.ReleaseCandidateBelowRelease | lib/utils/version.ts:34-36 | every "v-rc" is lower than "v" |
| Version.LastSegmentDecides | lib/utils/version.ts:43-68 | versions differing only in their last segment compare as those segments do |
| Version.BetaBelowReleaseCandidate | lib/utils/version.ts:52-57 | every "v-beta" is lower than "v-rc": tags compare by rank |
| Version.NumbersCompareByValue | lib/utils/version.ts:49-51 | numeric segments compare by value: "10" is above "9" |
| Version.SortVersions | lib/utils/version.ts:74-79 | the sorted copy is a permutation of the input |
| Version.NumericTransitive | lib/utils/version.ts:25-71 | on all-numeric segment lists the comparison is transitive |
| Version.NumericOrderIsTotalPreorder | lib/utils/version.ts:75-78 | on all-numeric versions the sort's comparator is a total preorder |
| Version.SortVersionsDescending | lib/utils/version.ts:74-79 | all-numeric versions come out in descending order |
| Sorting.Sort | lib/utils/version.ts:75 | the sort returns a permutation of its input |
| Sorting.SortSorted | lib/utils/version.ts:75 | under a total preorder the sort's result is ordered |
| Sorting.SortStable | scripts/test-history.js:27-29 | the sort is stable: entries with equal keys keep their relative order |
| Diff3.FoldChunks | lib/utils/diff3.ts:34-56 | the merge is clean exactly when no chunk is a conflict, and the merged text joins, with "\n", each agreed chunk's lines and each conflict's non-empty theirs side, in order |
| Diff3.PerformMerge | lib/utils/diff3.ts:23-57 | the result is the fold of the chunks diff3Merge returns for the three texts split at "\n" |
| Diff3.NoChunksCleanEmpty | lib/utils/diff3.ts:34-56 | no chunks means a clean merge of empty text |
| Diff3.ConflictSidesIgnored | lib/utils/diff3.ts:43-50 | the yours and base sides of a conflict never reach the merged text or the clean flag |
| Diff3.EmptyTheirsAddsNothing | lib/utils/diff3.ts:47-49 | a conflict with an empty theirs side adds no part but still makes the merge unclean |
| Diff3.CreateLinePatch | lib/utils/diff3.ts:59-70 | null exactly for an unchanged text or an empty patch; otherwise a "diffPatch" record with separator "\n" and the patch of the split texts |
| History.CoerceText | scripts/test-history.js:12-16 | strings are kept as they are; null and undefined become "" |
| History.NormalizeText | scripts/test-history.js:8-10 | normalising never lengthens the text |
| History.NormalizeCoerced | scripts/test-history.js:8-16 | normalising equals replacing "\r\n" in the coerced text, and null normalises to "" |
| History.PlainTextUnchanged | scripts/test-history.js:9 | text without "\r\n" is left unchanged |
| History.NormalizeNotIdempotent | scripts/test-history.js:9 | "\r\r\n" normalises to "\r\n", which normalises again to "\n" |
| History.ExtractTimestamp | scripts/test-history.js:18-25 | a missing entry, a falsy or other timestamp gives 0; a Date gives its time |
| History.SortHistoryByTimestamp | scripts/test-history.js:27-29 | the sorted history is a permutation of the history |
| History.SortedHistoryOrdered | scripts/test-history.js:27-29 | the sorted history has non-decreasing timestamps |
| History.SortedHistoryStable | scripts/test-history.js:27-29 | entries with equal timestamps keep their relative order |
| History.OrderedHistoryKept | scripts/test-history.js:27-29 | a history already in timestamp order is returned unchanged |
| History.ChangesOf | scripts/test-history.js:34 | an entry's own change record is used when present, and only a null entry has none |
| History.Separator | scripts/test-history.js:36 | the separator is never empty and is the record's own when it is set |
| History.ApplyHistory | scripts/test-history.js:31-42 | the loop's result is the in-order replay of the entries from the original text |
| History.Replay | scripts/test-history.js:31-42 | a history with no "diffPatch" entry leaves the text unchanged |
| History.ReplayLast | scripts/test-history.js:33-40 | replaying a history is replaying its prefix and then the last entry |
| History.ReplayEmpty | scripts/test-history.js:31-42 | replaying no entries returns the original text |
| History.ReplayAppend | scripts/test-history.js:35 | an entry without a "diffPatch" record leaves the text unchanged; one with it patches the split text and rejoins it |
| History.CreatedPatchApplies | lib/utils/diff3.ts:65-69 | a record built by createLinePatch is never skipped by the replay |
| History.SaveEntry | lib/utils/diff3.ts:59-70 | the entry a save appends carries the save's timestamp |
| History.SaveEntryReplays | scripts/test-history.js:36-39 | replaying the entry saved for an edit from a to b turns a into b, given a patch that round-trips |
| History.SavedHistoryReplays | scripts/test-history.js:31-42 | a history of saves through t[0] … t[n] replays from t[0] to t[n] |
| History.Saves | lib/utils/diff3.ts:59-70 | one save entry per consecutive pair of texts |
| History.CheckDoc | scripts/test-history.js:47-57 | a match exactly when replaying the sorted history from the GitHub text or from "" gives the draft; the GitHub baseline is preferred; with no match the empty-baseline replay is reported |
| History.SavedDocMatches | scripts/test-history.js:47-57 | a draft reached by saves recorded in timestamp order from the GitHub text is a match on the GitHub baseline |
| Json.Get | scripts/repro/repro-issues.mjs:56-61 | a property read is defined exactly for the value's own keys, and a child is smaller than its container |
| Json.IsEqual | lib/services/SyncService.ts:9-19 | identical values are equal; a non-object is equal only to itself; equal distinct objects have the same number of keys and every key of the first is a key of the second |
| Json.IsEqualSymmetric | lib/services/SyncService.ts:9-19 | isEqual(a, b) implies isEqual(b, a) for values whose objects have distinct keys |
| Json.PropertyOrderIrrelevant | lib/services/SyncService.ts:12-18 | reordering an object's properties does not change what it equals |
| Json.ArrayEqualsIndexObject | lib/services/SyncService.ts:11-18 | only keys are compared: an array equals the object mapping its indices to its elements |
| Json.EmptyArrayEqualsEmptyObject | scripts/repro/repro-issues.mjs:53-64 | `[]` equals `{}` and `["x"]` equals `{"0": "x"}` |
| Json.AddToSet | scripts/repro/repro-issues.mjs:131-133 | adding to a set keeps it duplicate-free and adds exactly the new element |
| Repro.Spread | scripts/repro/repro-issues.mjs:72 | a spread copy is always an object, and is empty for a value without own properties |
| Repro.SpreadGet | scripts/repro/repro-issues.mjs:72 | the copy has the source's keys and the same value under each |
| Repro.SetKey | scripts/repro/repro-issues.mjs:80-95 | a write makes the key read back as the value; an existing key keeps its place, a new one goes last |
| Repro.SetKeyOther | scripts/repro/repro-issues.mjs:80-95 | a write under one key leaves every other key as it was |
| Repro.MergedGet | scripts/repro/repro-issues.mjs:70-103 | under each key of incoming the merge holds what the loop body computed, and elsewhere the target's value |
| Repro.MergeKeepsUnmentioned | scripts/repro/repro-issues.mjs:72-73 | keys incoming does not mention keep the target's value |
| Repro.MergeArrayReplaced | scripts/repro/repro-issues.mjs:78-80 | an incoming array at a path not locally modified replaces the local value |
| Repro.MergeArrayItems | scripts/repro/repro-issues.mjs:81-89 | an incoming array at a locally modified path keeps the incoming length, and each item is the incoming one when the local item equals the base item, else the local item or the incoming one |
| Repro.MergeNested | scripts/repro/repro-issues.mjs:91-92 | an incoming object is merged recursively one path segment deeper |
| Repro.MergeScalar | scripts/repro/repro-issues.mjs:93-96 | an incoming scalar replaces the local value unless its path is locally modified |
| Repro.Merge | scripts/repro/repro-issues.mjs:71-100 | the key loop computes the merged object |
| Repro.MergeKey | scripts/repro/repro-issues.mjs:73-97 | one loop iteration extends the merge to one more key |
| Repro.KeyValue | scripts/repro/repro-issues.mjs:74-97 | the value the loop body writes for one key, or none |
| Repro.MergeSilently | scripts/repro/repro-issues.mjs:70-103 | the entry point merges from the empty path; it throws exactly when the target is null and the merge must read one of its properties (an incoming object, or a non-empty array at a locally modified path) |
| Repro.NullMergesAsEmpty | scripts/repro/repro-issues.mjs:72 | a null target spreads to `{}`, so the merge of its keys is that of an empty object |
| Repro.MergeTakesIncomingArray | scripts/repro/repro-issues.mjs:81-89 | when every item merges to the incoming one, the merged array is the incoming array |
| Repro.LocalTailDropped | scripts/repro/repro-issues.mjs:148-162 | the harness's first case: the locally appended "Angular" is dropped and the merged array is the two incoming items |
| Repro.HandleItemChange | scripts/repro/repro-issues.mjs:108-120 | the edit keeps the length and every other item |
| Repro.HandleItemChangeSlot | scripts/repro/repro-issues.mjs:112-118 | a string item becomes the value for "name" and `{name, [field]}` otherwise; an object gets `url` and `link` for "url" and the field otherwise, other keys unchanged |
| Repro.StringItemBecomesObject | scripts/repro/repro-issues.mjs:166-171 | the harness's second case: item 0 becomes an object named "React", item 1 stays a string |
| Repro.WebhookProcessCommits | scripts/repro/repro-issues.mjs:126-137 | a payload without commits throws; otherwise the removed and changed sets are duplicate-free and hold exactly the JSON files under the data path that some commit removed, or added or modified |
| Utf8.EncodeChar | lib/services/PublishService.ts:46 | a character is one to four bytes, one byte exactly for ASCII, and every byte of a longer encoding is 0x80 or above |
| Utf8.EncodeAppend | lib/services/PublishService.ts:46 | encoding a concatenation concatenates the encodings |
| Utf8.EncodeAscii | lib/services/PublishService.ts:45 | ASCII text is one byte per character, each byte the character's code |
| Utf8.ZeroByteIsNul | lib/services/PublishService.ts:45-46 | text without NUL encodes without a zero byte |
| GitBlob.PreimageLayout | lib/services/PublishService.ts:44-48 | the hashed bytes are "blob ", the decimal byte length, a zero byte and the encoded content, in that order |
| GitBlob.FirstZero | lib/services/PublishService.ts:45 | the first zero byte from a position on, or -1 when there is none |
| GitBlob.ParseBlobObject | lib/services/PublishService.ts:44-48 | a parsed body is a proper suffix of the object |
| GitBlob.ParsePreimage | lib/services/PublishService.ts:44-48 | parsing the preimage of a content gives back exactly its encoded bytes |
| GitBlob.ParseLayout | lib/services/PublishService.ts:45 | the tag, a digit run naming the body's length, a zero byte and the body parse back to the body |
| GitBlob.PreimageInjective | lib/services/PublishService.ts:44-48 | equal preimages mean equal content bytes |
| GitBlob.ComputeBlobSha | lib/services/PublishService.ts:44-48 | the blob id is the SHA-1 of a Git object whose parsed body is exactly the content's UTF-8 bytes |
| Publish.ToContentString | lib/services/PublishService.ts:38-42 | null or undefined give "", a string is kept, anything else is stringified |
| Publish.FirstOccurrences | lib/services/PublishService.ts:86-90 | the Map's key order: the same paths, each once |
| Publish.LastRecord | lib/services/PublishService.ts:86-90 | the record a Map keeps for a path is the last one set, and exists exactly for the paths set |
| Publish.MergedFiles | lib/services/PublishService.ts:82-91 | the merged records come in the Map's first-occurrence path order |
| Publish.TracksStep | lib/services/PublishService.ts:87-89 | one `map.set` keeps the Map in step with the records set so far |
| Publish.SetEach | lib/services/PublishService.ts:87-89 | setting each record in order leaves the Map tracking all of them |
| Publish.MergeFileRecords | lib/services/PublishService.ts:82-91 | the method returns the merged records |
| Publish.MergedFilesRecords | lib/services/PublishService.ts:82-91 | each path occurs once; a path is present iff it is in either list; an updated path holds the last update, an untouched one the last existing record |
| Publish.LastRecordAppend | lib/services/PublishService.ts:86-89 | updates win over existing records for the paths they name |
| Publish.FirstOccurrencesAppend | lib/services/PublishService.ts:86-90 | existing paths keep their place at the front; new paths follow in update order |
| Publish.MergedFilesOrder | lib/services/PublishService.ts:86-90 | existing paths first, then the new ones |
| Publish.BranchFileSha | lib/services/PublishService.ts:74-75 | a sha only for a file with a non-empty sha; a directory or a missing file gives none |
| Publish.GetBranchFileSha | lib/services/PublishService.ts:60-80 | a failed lookup other than 404 is thrown; otherwise the sha of what the branch holds |
| Publish.FindFile | lib/services/PublishService.ts:107 | `find` gets a record with the path, present exactly when the path is recorded |
| Publish.ReuseVerdictAllPass | lib/services/PublishService.ts:103-121 | a branch is reusable exactly when every lookup succeeds and every document passes: a recorded file is still on the branch with its recorded sha; an unrecorded one is absent or already holds this content |
| Publish.CanReuseBranch | lib/services/PublishService.ts:93-121 | the loop answers the reuse verdict, throwing the first failed lookup |
| Publish.ReuseCandidate | lib/services/PublishService.ts:172-185 | one candidate's reuse check stops the walk on a reusable branch or a failed lookup, and logs exactly its lookups |
| Publish.OpenRecords | lib/services/PublishService.ts:154-158 | exactly this entity's open records on the base branch |
| Publish.CandidatesNewestFirst | lib/services/PublishService.ts:154-160 | the candidates are exactly those records, newest `updatedAt` first |
| Publish.SelectionSound | lib/services/PublishService.ts:162-186 | a chosen record is a candidate whose branch exists and passes the reuse check; every record marked stale is a candidate whose branch is gone |
| Publish.MarkAllStale | lib/services/PublishService.ts:166-169 | marking records stale changes nothing but their status |
| Publish.VisitCandidate | lib/services/PublishService.ts:164-185 | one pass looks the branch up, marks a missing one stale and otherwise runs the reuse check |
| Publish.SelectStep | lib/services/PublishService.ts:163-186 | one loop iteration keeps the walk's outcome and the stale marks in step |
| Publish.SelectBranch | lib/services/PublishService.ts:154-186 | the chosen record is the walk's outcome over the candidates, and the store changes only by the stale marks |
| Publish.SelectFrom | lib/services/PublishService.ts:163-186 | the loop computes the walk over the given candidates |
| Publish.NewBranchName | lib/services/PublishService.ts:206 | a new branch is named "docsflow-", the entity, "-publish-" and the clock's decimal digits, which read back as the clock |
| Publish.PrepareBranch | lib/services/PublishService.ts:188-213 | after the base lookup, a reused branch is looked up and committed on at its tip with refs unchanged; otherwise a branch under the new name, not taken before, is created at the base tip, the only change to refs; the log gains exactly those calls |
| Publish.CommitAuthor | lib/services/PublishService.ts:254-257 | the author is the user's name and email, or the bot's for a missing or empty one |
| Publish.UploadBlobs | lib/services/PublishService.ts:215-238 | one blob per document in order; the tree items and file records name each document's path and blob |
| Publish.UploadStep | lib/services/PublishService.ts:218-238 | one more document adds one tree item, one file record and one createBlob call |
| Publish.CommitItems | lib/services/PublishService.ts:240-265 | a tree over the tip, one commit whose parent is the tip, and the branch moved to it; on failure the refs are unchanged |
| Publish.EnsurePull | lib/services/PublishService.ts:267-296 | after one listing, the first open pull request from the branch into the base, with the pull requests unchanged; with none open, one `pulls.create` carrying the adapter's title and body for the documents, giving a new open pull request numbered after the others |
| Publish.PullOutcome | lib/services/PublishService.ts:267-296 | the first open pull request with the list unchanged, or a new open one numbered after the others appended |
| Publish.CommitOnBranch | lib/services/PublishService.ts:215-296 | one blob per document, then one tree over the tip with the documents' items, one commit whose only parent is the tip, the branch moved to it and the pull request with the adapter's title and body; nothing else is called |
| Publish.CommitAndOpen | lib/services/PublishService.ts:240-296 | the commit of the uploaded items on the branch, its tree being the tip's overlaid with them, then the pull request with the adapter's title and body; the log gains exactly those calls |
| Publish.PlanWrites | lib/services/PublishService.ts:188-296 | the writes of a publish, in order: a new branch's `createRef` at the base tip (none for a reused one), one blob per document, exactly one tree, one commit on the tip and one ref update, and a `pulls.create` with the adapter's title and body only when none is open |
| Publish.PlanOf | lib/services/PublishService.ts:188-296 | the plan on a branch and its tip: the overlaid tree, the commit on the tip, the pull request with the adapter's title and body, and the calls in order |
| Publish.PlanCarriedOut | lib/services/PublishService.ts:188-296 | picking the branch and then committing on it changes refs, commits, pull requests and the log exactly as the plan says, including the pull request's title and body |
| Publish.PublishedTreeHoldsDocs | lib/services/PublishService.ts:240-245 | the committed tree holds each document's blob at its path, for the last document of each path |
| Publish.Republish | lib/services/PublishService.ts:299-311 | the `$set` on a reused record keeps its id and branch |
| Publish.RecordedAfter | lib/services/PublishService.ts:298-322 | a reused record's write keeps every record of another id; a new branch appends one open record of the entity on the base branch, under the next id, with the updates |
| Publish.Response | lib/services/PublishService.ts:330-335 | the response names the branch and hands the documents, the commit, the time and the user to the hook; it has a pull request URL exactly when one was returned |
| Publish.PublishWithAdapter | lib/services/PublishService.ts:123-336 | no token: an error and nothing changed; no documents: "No pending changes" and nothing changed; otherwise the store first gets the selection's stale marks, a failed selection ends there with refs unchanged, and from the selected branch on GitHub and the store change as on the chosen branch, after read-only lookups; success puts every document on the branch with an open pull request and its record |
| Publish.ChosenFromStore | lib/services/PublishService.ts:154-186 | the chosen record is one of the store's records |
| Publish.PublishOnChosen | lib/services/PublishService.ts:188-335 | from the chosen branch on: a success carries out the plan (the pull request with the adapter's title and body included), writes the record, passes the hook and answers the response; a failure leaves the store as it was, or written when only the hook threw |
| Publish.RecordPublish | lib/services/PublishService.ts:298-335 | the records become the store write, every other record kept; the call fails exactly when `updateAfterPublish` throws, with its error and the store already written; otherwise the response names the branch, the commit and the pull request |
| Publish.PublishedOnIntro | lib/services/PublishService.ts:298-335 | the parts of the published state together make it up |
| Publish.CommitToBranch | lib/services/PublishService.ts:188-296 | on success the branch is the chosen one, or the new name at the base tip; every document is on it and a pull request is open; refs, commits, pull requests and the log are exactly the plan's: one blob per document, one tree over the tip, one commit whose only parent is the tip, one ref update, and a pull request with the adapter's title and body when none is open |
| Publish.RecordBranch | lib/services/PublishService.ts:298-322 | the records become the store write: a reused record gets the merged files, the pull request and "open" with every other record kept; otherwise one open record of the entity on the base branch is appended under the next id; the record names each document's blob |
| Publish.DocsOnBranch | lib/services/PublishService.ts:240-265 | after the commit each document's path on the branch holds its blob |
| Publish.RecordOf | lib/services/PublishService.ts:166-169 | the chosen record survives the stale marks with its id and branch |
| Publish.FindUnique | lib/services/PublishService.ts:107 | with distinct paths `find` gets the one record of a path |
| Publish.FindFileAt | lib/services/PublishService.ts:107 | `find` gets the first record with the path |
| Publish.UpdatesRecorded | lib/services/PublishService.ts:313-321 | a new branch's record names each document's blob |
| Publish.MergedRecorded | lib/services/PublishService.ts:300 | a reused branch's merged record names each document's blob |
| Publish.PublishedBranchReusable | lib/services/PublishService.ts:93-121 | publishing the same documents again finds the branch just published reusable |
| PublishRoute.TechPathInjective | app/api/github/publish/route.ts:71 | distinct record ids give distinct file paths |
| PublishRoute.Pending | app/api/github/publish/route.ts:34-38 | exactly the records whose status is not "published", narrowed to the given id when one is given |
| PublishRoute.PendingUnique | app/api/github/publish/route.ts:34-38 | the query keeps the ids unique |
| PublishRoute.GroupMembers | app/api/github/publish/route.ts:67-98 | a group holds exactly the documents on its side: conflicting when the base branch holds a file whose sha differs from the record's last commit id; a 404 or a directory is not a conflict |
| PublishRoute.GroupStep | app/api/github/publish/route.ts:70-98 | one iteration adds document i to its side and leaves the other side |
| PublishRoute.GroupsPartition | app/api/github/publish/route.ts:67-98 | each document lands in exactly one group |
| PublishRoute.GroupUnique | app/api/github/publish/route.ts:67-98 | each group keeps the ids unique |
| PublishRoute.Partition | app/api/github/publish/route.ts:67-98 | the loop throws exactly when some lookup fails other than with 404; otherwise it returns the two groups in order |
| PublishRoute.Classify | app/api/github/publish/route.ts:71-97 | one lookup on the base branch puts document i on its side, or throws |
| PublishRoute.TechItems | app/api/github/publish/route.ts:105-113 | one tree item per document of the group |
| PublishRoute.CommitGroup | app/api/github/publish/route.ts:103-145 | an empty group makes no call and no commit and leaves the tip; otherwise exactly one tree over the parent with the group's drafts, one bot-authored commit whose only parent is the parent, and the branch moved to it |
| PublishRoute.MarkPublished | app/api/github/publish/route.ts:185-197 | a published record takes its draft as data, the final commit as last commit id, "docsflow" as last editor and status "published" |
| PublishRoute.PublishAll | app/api/github/publish/route.ts:185-198 | each record whose id is listed takes its draft as data, "published" and the tip as last commit id; every other record is kept; the length is kept |
| PublishRoute.MarkAllPublished | app/api/github/publish/route.ts:185-198 | each published record is updated and every other record is kept |
| PublishRoute.PublishAllStep | app/api/github/publish/route.ts:185-198 | one more `findOneAndUpdate` extends the published set by that draft's id |
| PublishRoute.VersionLines | app/api/github/publish/route.ts:179 | one "- <version>" line per draft, in order |
| PublishRoute.PrBody | app/api/github/publish/route.ts:179 | the body starts with the generated-by line |
| PublishRoute.JoinAppend | app/api/github/publish/route.ts:179 | joining a concatenation joins the halves around the separator |
| PublishRoute.JoinFramed | app/api/github/publish/route.ts:179 | joining the intro, a blank line, the heading, the version lines, a blank line and the note gives the route's text with "\n\n" around the list |
| PublishRoute.BodyJoin | app/api/github/publish/route.ts:179 | the body is its lines joined by "\n" |
| PublishRoute.BodyLinesUnbroken | app/api/github/publish/route.ts:179 | no line of the body holds a line break when no version does |
| PublishRoute.BodyListsVersions | app/api/github/publish/route.ts:179 | split into lines, the body is the generated-by line, a blank line, the heading, one "- <version>" line per draft in order, a blank line and the conflict note; every published version has a line of its own |
| PublishRoute.PrTitle | app/api/github/publish/route.ts:169-171 | with an id given and one pending draft the title is the single-version title and its version; otherwise the multi-version title with the date in brackets |
| PublishRoute.UserEmail | app/api/github/publish/route.ts:18 | never empty: the session's e-mail when there is one |
| PublishRoute.StartBranch | app/api/github/publish/route.ts:46-61 | the base lookup and one `createRef` of "docsflow-publish-<clock>" at the base tip, a name not taken before; no commit changes |
| PublishRoute.PushGroups | app/api/github/publish/route.ts:65-180 | on the branch at the base tip: the lookups, the two commits, then the pull request with the route's title and body, which is the last call and open |
| PublishRoute.CommitPending | app/api/github/publish/route.ts:65-165 | the partition's lookups and then the two commits move the branch to the route's tip and put every pending draft on it |
| PublishRoute.PushCalls | app/api/github/publish/route.ts:167-180 | the pull request with the route's title and body is the last call |
| PublishRoute.Lookups | app/api/github/publish/route.ts:70-76 | one lookup per pending draft |
| PublishRoute.LookupsStep | app/api/github/publish/route.ts:70-76 | the lookups of one more draft add that draft's path on the base branch |
| PublishRoute.PublishTechStack | app/api/github/publish/route.ts:15-214 | no token: a 500 and nothing changed; nothing pending: "No pending changes" and nothing changed; any failure is a 500 with the store untouched; success creates "docsflow-publish-<clock>" at the base tip, makes exactly the route's calls (lookups, at most two commits, non-conflicting first, then the pull request with the route's title and body), and marks the drafts published at the final tip |
| PublishRoute.PushPending | app/api/github/publish/route.ts:46-180 | the base lookup, a new branch "docsflow-publish-<clock>" at the base tip, one lookup per draft, the two commits and then the pull request with the route's title and body, exactly in that order; the branch ends at the route's tip with every pending draft and an open pull request |
| PublishRoute.CommitAsUser | app/api/github/publish/route.ts:147-165 | the two commits carry the route's messages naming the user, in that order, each on the previous tip, and leave every pending draft on the branch |
| PublishRoute.OpenPull | app/api/github/publish/route.ts:167-180 | one `pulls.create` with the route's title and body, giving an open pull request from the branch into the base |
| PublishRoute.OverlayKeeps | app/api/github/publish/route.ts:116-121 | a tree built over a base keeps the entries none of its items names |
| PublishRoute.GroupHolds | app/api/github/publish/route.ts:103-121 | committing a group puts each of its drafts in the tree |
| PublishRoute.OtherHolds | app/api/github/publish/route.ts:103-121 | committing a group keeps the drafts of other ids in the tree |
| PublishRoute.BothHold | app/api/github/publish/route.ts:147-165 | after the non-conflicting and then the conflicting commit, every pending draft is in the tree; the conflicting side overrides the base branch |
| PublishRoute.GroupsDisjoint | app/api/github/publish/route.ts:67-98 | the two groups cover the pending records and share no id |
| PublishRoute.HoldsOn | app/api/github/publish/route.ts:137-142 | drafts in the tree at the branch's tip are what lookups on the branch see |
| PublishRoute.CommitBoth | app/api/github/publish/route.ts:147-165 | the non-conflicting group is committed on the base tip, then the conflicting group on that result; the log gains exactly both groups' calls, an empty group none; the branch ends at the second tip with every pending draft on it |
| PublishStore.UpdateById | lib/services/PublishService.ts:301-311 | an update by id changes only the record with that id, and stamps it |
| PublishStore.MarkStale | lib/services/PublishService.ts:166-169 | marking stale changes the status and nothing else |
| PublishStore.OnlyMarkedStaleTrans | lib/services/PublishService.ts:163-186 | stale marks made in several steps are stale marks |
| PublishStore.FirstOnBranch | lib/services/PublishBranchSync.mjs:218-231 | the first record on the branch, or -1 when there is none |
| PublishStore.BranchStore.constructor | models/PublishBranch.ts:1-72 | the store holds the given records with distinct ids |
| PublishStore.BranchStore.SetStale | lib/services/PublishService.ts:166-169 | the record with the id is marked stale; nothing else changes |
| PublishStore.BranchStore.Update | lib/services/PublishService.ts:301-311 | the record with the id is replaced by its update |
| PublishStore.BranchStore.UpsertByBranch | lib/services/PublishBranchSync.mjs:218-231 | the first record on the branch is updated; with none, a new record is inserted |
| PublishStore.BranchStore.Create | lib/services/PublishService.ts:313-321 | a new record under a fresh id is appended |
| BranchSync.Rest | lib/services/PublishBranchSync.mjs:4-7 | the name without its leading "docsflow-" |
| BranchSync.InferEntityFromBranch | lib/services/PublishBranchSync.mjs:1-13 | no entity for a name not starting with "docsflow"; "tech-stack" for "docsflow-publish-…"; never an empty entity |
| BranchSync.InferOther | lib/services/PublishBranchSync.mjs:4-12 | any other name has an entity exactly when "-publish-" occurs after position 0 of its tail but not at 0, and the entity is the text before the first occurrence |
| BranchSync.InferTail | lib/services/PublishBranchSync.mjs:4-12 | a tail that starts with e followed by the first "-publish-" gives e |
| BranchSync.TechBranchTail | lib/services/PublishBranchSync.mjs:3 | a name reads as a tech-stack branch only if its tail starts with "publish-" |
| BranchSync.InferRoundTrip | lib/services/PublishService.ts:206 | the entity of a branch the publish engine names is read back from the name, when the entity has no "-publish-" and is not "publish" |
| BranchSync.PublishEntityReadsAsTechStack | lib/services/PublishBranchSync.mjs:3 | the entity "publish" gives a name that reads as "tech-stack" |
| BranchSync.EntityFor | lib/services/PublishBranchSync.mjs:114 | the stored entity, else the inferred one, else "unknown"; never empty |
| BranchSync.BranchFiles | lib/services/PublishBranchSync.mjs:117-130 | no more files than tree entries |
| BranchSync.BranchFilesMembers | lib/services/PublishBranchSync.mjs:117-130 | the files are exactly the blobs with a path under the entity's prefix (any path when the entity has none), each with its sha and the run's time |
| BranchSync.PrOf | lib/services/PublishBranchSync.mjs:140-147 | the first open pull request, or none |
| BranchSync.Live | lib/services/PublishBranchSync.mjs:93-96 | exactly the listed branches whose names start with "docsflow" |
| BranchSync.TrackedBranches | lib/services/PublishBranchSync.mjs:99-102 | the branches of the records whose branch starts with "docsflow" |
| BranchSync.Untracked | lib/services/PublishBranchSync.mjs:164-167 | the "docsflow" branches no record tracks |
| BranchSync.Refreshed | lib/services/PublishBranchSync.mjs:114-161 | a refreshed record keeps its id and branch, is open, and holds the branch's files and first open pull request |
| BranchSync.Synced | lib/services/PublishBranchSync.mjs:105-162 | an untracked record is kept; a tracked record of a missing branch is marked stale; a tracked live one is refreshed |
| BranchSync.NewBare | lib/services/PublishBranchSync.mjs:168-175 | the created record is open, on the branch, with no files and no pull request |
| BranchSync.NewRecord | lib/services/PublishBranchSync.mjs:179-231 | the record of an untracked branch after the refresh is open and on the branch |
| BranchSync.MarkAndRefresh | lib/services/PublishBranchSync.mjs:105-162 | the first loop fails exactly when a live tracked branch cannot be read; otherwise each record becomes its synced form |
| BranchSync.CreateAll | lib/services/PublishBranchSync.mjs:164-177 | the second loop appends one bare record per untracked branch under fresh ids |
| BranchSync.RefreshAll | lib/services/PublishBranchSync.mjs:179-232 | the third loop refreshes each new record from its branch |
| BranchSync.RefreshStep | lib/services/PublishBranchSync.mjs:179-232 | one step of the third loop keeps its invariant |
| BranchSync.EarlierBranches | lib/services/PublishBranchSync.mjs:218-231 | the upsert by branch name finds the record created for that branch |
| BranchSync.RefreshOne | lib/services/PublishBranchSync.mjs:183-231 | one branch's record is refreshed and every other record is kept |
| BranchSync.SyncPublishBranches | lib/services/PublishBranchSync.mjs:70-233 | success exactly when every branch to read answers; each record is synced and each untracked branch gets a new refreshed record |
| BranchSync.FinishSync | lib/services/PublishBranchSync.mjs:164-232 | after the first loop: success exactly when every untracked branch answers, and then the run's outcome |
| BranchSync.AddUntracked | lib/services/PublishBranchSync.mjs:164-232 | the second and third loops fail exactly when an untracked branch does not answer; otherwise one refreshed record per untracked branch is appended under fresh ids, the rest kept |
| BranchSync.SyncOutcome | lib/services/PublishBranchSync.mjs:105-232 | the first loop's synced records followed by the new records are the run's outcome |
| BranchSync.TrackedUnreachable | lib/services/PublishBranchSync.mjs:114-147 | a live tracked branch that does not answer fails the run |
| BranchSync.UntrackedUnreachable | lib/services/PublishBranchSync.mjs:183-200 | an untracked branch that does not answer fails the run |
| BranchSync.RecordedNotUntracked | lib/services/PublishBranchSync.mjs:164-167 | no record kept by the first loop is on an untracked branch |
| BranchSync.UntrackedDistinct | lib/services/PublishBranchSync.mjs:164-167 | the untracked branches are distinct |
| BranchSync.EveryBranchOpen | lib/services/PublishBranchSync.mjs:70-233 | after a successful run every "docsflow" branch has an open record |
| Remote.FindEntry | lib/services/PublishBranchSync.mjs:26-32 | the position of the entry for a path, or -1 when none has it |
| Remote.OverlayLookup | lib/services/PublishService.ts:240-245 | after `createTree` each item's path holds the blob of the last item with that path |
| Remote.FindEntryUpdate | lib/services/PublishService.ts:240-245 | replacing an entry by one with the same path moves no lookup |
| Remote.GitHub.constructor | lib/services/PublishService.ts:133 | the remote starts with the given branches, commits and pull requests and an empty call log |
| Remote.GitHub.GetBranch | lib/services/PublishService.ts:50-58 | the branch's tip, none for a 404, or the failure |
| Remote.GitHub.GetContent | lib/services/PublishService.ts:68-73 | what the path holds on the branch, or the failure |
| Remote.GitHub.CreateRef | lib/services/PublishService.ts:207-212 | a new branch at an existing commit; nothing else changes |
| Remote.GitHub.CreateBlob | lib/services/PublishService.ts:221-226 | the blob id is Git's id of the content |
| Remote.GitHub.CreateTree | lib/services/PublishService.ts:240-245 | a tree over an existing base with the items put in |
| Remote.GitHub.CreateCommit | lib/services/PublishService.ts:248-258 | a commit of an existing tree on one parent |
| Remote.GitHub.UpdateRef | lib/services/PublishService.ts:260-265 | moves an existing branch to an existing commit |
| Remote.GitHub.ListPulls | lib/services/PublishService.ts:267-273 | the open pull requests from head into base |
| Remote.GitHub.CreatePull | lib/services/PublishService.ts:283-290 | the logged call carries the title and the body; a new open pull request numbered after the others |
| Remote.Filtered | lib/services/PublishService.ts:267-273 | exactly the open pull requests from head into base, in order |
| GitHubApi.AttributedTo | lib/github.ts:28 | the login, else the commit author's name, else the fallback; never empty with a non-empty fallback |
| GitHubApi.CommitUser | lib/github.ts:28 | the reported user is never empty |
| GitHubApi.FileMetadata | lib/github.ts:12-34 | null for a failed call or no commits; otherwise the newest commit's sha, its committer date else author date, and its user |
| GitHubApi.GetFileMetadata | lib/github.ts:12-34 | none exactly when the commit listing fails or is empty; otherwise the newest commit's sha and a non-empty user |
| GitHubApi.Page | lib/github.ts:19 | the first page is a prefix of at most `per_page` items, all of them when they fit |
| GitHubApi.JsonEntries | lib/github.ts:49 | exactly the listed items whose name ends in ".json", in order |
| GitHubApi.FetchOne | lib/github.ts:52-77 | a file comes back exactly when the fetch answers a file with content, its JSON parsed and its version the name without ".json" |
| GitHubApi.FetchEach | lib/github.ts:51-80 | succeeds exactly when every fetch does; each file returned is one of the listed entries' results, the nulls dropped |
| GitHubApi.FetchedFilesAreJson | lib/github.ts:36-85 | a non-directory path throws; every returned file is a listed ".json" file, fetched, decoded and parsed, named by its version |
| GitHubApi.FetchTechStackFiles | lib/github.ts:36-85 | a failed listing of the tech-stack path fails; a result means the path is a directory, and every file returned ends in ".json" |
| GitHubApi.ExtensionAfterLastDot | lib/github.ts:99 | the extension is the lower-cased text after the last "." |
| GitHubApi.ExtensionWithoutDot | lib/github.ts:99 | a path without "." is its own extension |
| GitHubApi.GetFileContent | lib/github.ts:87-134 | a 404 gives null and any other failure is thrown; a non-file or empty file gives null; a binary file gives its base64 without line breaks, any other file its decoded text |
| DataFiles.AddDataMembers | app/api/github-webhook/route.ts:138-142 | adding a list's data files keeps the set duplicate-free and holds exactly the old set and the ".json" files under the data path |
| DataFiles.AddDataFiles | app/api/github-webhook/route.ts:139-141 | one `forEach` over a file list adds exactly its data files, each once |
| Webhook.ClassifyMembers | app/api/github-webhook/route.ts:121-131 | each set is duplicate-free; a data file is added when a compared file adds it or renames to it, modified when modified, removed when removed or renamed away from under the data path |
| Webhook.Classify | app/api/github-webhook/route.ts:121-131 | the three sets of a comparison are each duplicate-free |
| Webhook.ClassifyComparison | app/api/github-webhook/route.ts:121-131 | the loop over the comparison's files computes the classification |
| Webhook.FromCommitsMembers | app/api/github-webhook/route.ts:138-142 | each set holds, once, exactly the data files some payload commit lists under that change |
| Webhook.ProcessCommits | app/api/github-webhook/route.ts:138-142 | the loop over the payload's commits computes the three sets |
| Webhook.RemoveFiles | app/api/github-webhook/route.ts:145-150 | the records named by the removed files' last segments are deleted and the rest kept |
| Webhook.Synced | app/api/github-webhook/route.ts:34-47 | the upserted record has the file name as id, the name without ".json" as version, status "published", "github" as last editor and the parsed content as data; its draft and creation time are kept, or empty for a new record |
| Webhook.CreationPatchKeeps | app/api/github-webhook/route.ts:49-64 | setting a missing creation time keeps every id and every other record |
| Webhook.SyncOneEffect | app/api/github-webhook/route.ts:19-71 | a file that cannot be fetched or parsed changes nothing and reports failure; otherwise its record is published with the file's content and keeps its draft; other records are unchanged |
| Webhook.SyncFile | app/api/github-webhook/route.ts:19-71 | the method leaves the store and answer the sync describes |
| Webhook.Union | app/api/github-webhook/route.ts:153 | the union holds exactly the elements of both, each once |
| Webhook.UpdateFiles | app/api/github-webhook/route.ts:152-160 | the update loop syncs each path with a non-empty last segment, in order |
| Webhook.SyncAllIds | app/api/github-webhook/route.ts:152-160 | no record is dropped; new records only under the files' names; every file whose content parses has its record; success means every file parsed |
| Webhook.SyncOneIds | app/api/github-webhook/route.ts:19-71 | one sync keeps every id and adds at most its own name, which it adds when the content parses |
| Webhook.RemovalThenUpdate | app/api/github-webhook/route.ts:145-160 | removals run first: a file removed and added in the same push is present afterwards when it parses; a removed file not updated again is gone |
| Webhook.BookmarkOnlyAfterSuccess | app/api/github-webhook/route.ts:162-176 | for any filter prefix, the bookmark moves only when the comparison succeeded and every added or modified file parsed |
| Webhook.HandlePush | app/api/github-webhook/route.ts:92-177 | for the given filter prefix (the route's own is `DataPathAsWritten`): with no bookmark and no commits the route throws (500) and nothing changes; otherwise the store is the removals and then the updates, and the bookmark moves to the pushed commit only on success |
| Webhook.Push | app/api/github-webhook/route.ts:104-176 | it throws exactly when there is no bookmark and no payload commits; a failed comparison never moves the bookmark |
| Webhook.Post | app/api/github-webhook/route.ts:73-184 | 500 without a secret, 401 for a missing or wrong signature, 500 for a body that does not parse, nothing changed unless it is an authentic push to main, and then the push handling with the given filter prefix |
| Webhook.Authentic | app/api/github-webhook/route.ts:76-86 | authentic exactly when the signature header is "sha256=" followed by the HMAC of the body under the secret; no header is never authentic |
| Webhook.IsMainPush | app/api/github-webhook/route.ts:88-93 | handled exactly when the event is "push" and the ref is "refs/heads/main" |
| Webhook.MetaStore.constructor | app/api/github-webhook/route.ts:100-102 | the bookmark collection starts with the given records |
| Webhook.AsWrittenMissesDataFiles | app/api/github-webhook/route.ts:11 | with `DATA_PATH` undefined, a modified tech-stack file is classified nowhere, by comparison or by payload commits |
| Webhook.ConfiguredPathSeesDataFiles | lib/config.mjs:7 | with the configured tech-stack directory, the same file is classified as modified and as nothing else |
| Webhook.PushOneModified | app/api/github-webhook/route.ts:104-176 | a push whose comparison reports one modified file the filter sees removes nothing and re-syncs just that file |
| Webhook.AsWrittenPushSkipsDataFiles | app/api/github-webhook/route.ts:11 | with the route's filter, a push whose comparison reports a modified tech-stack file leaves every record as it was and moves the bookmark |
| Webhook.ConfiguredPushSyncsDataFiles | lib/config.mjs:7 | with the configured tech-stack directory, the same push leaves a record for the file whenever its content parses, and moves the bookmark only if it parses |
| TechStore.Fresh | models/TechStack.ts:40-49 | a record an upsert inserts has its id, status "published" and "github" as last editor, the schema defaults |
| TechStore.Ids | models/TechStack.ts:20-23 | an id is present exactly when some record carries it |
| TechStore.Find | scripts/sync/tech-stack.mjs:104 | a record is found exactly when its id is present, and the one found is in the collection under that id |
| TechStore.UpdateOne | scripts/sync/tech-stack.mjs:104-111 | same length; exactly the records with that id are replaced by the update of them |
| TechStore.DeleteIds | scripts/sync/tech-stack.mjs:55 | the records kept are exactly those whose id is not among the ids |
| TechStore.UpsertFinds | scripts/sync/tech-stack.mjs:88-101 | after an upsert ids stay unique, the record found under its id is the update of what was found before, and every other lookup is unchanged |
| TechStore.FindAt | models/TechStack.ts:20-23 | with unique ids a record is the one its id finds |
| TechStore.UpdateFindOther | scripts/sync/tech-stack.mjs:104-111 | an update of one id leaves the lookup of every other id unchanged |
| TechStore.FindAppendOther | scripts/sync/tech-stack.mjs:88-101 | inserting a record leaves the lookup of other ids unchanged |
| TechStore.DeleteIdsTwice | scripts/sync/tech-stack.mjs:55 | deleting one id set and then another equals deleting their union |
| TechStore.DeleteNothing | scripts/sync/tech-stack.mjs:53-56 | deleting no ids keeps the collection |
| TechStore.UpdateFinds | scripts/sync/tech-stack.mjs:104-111 | an id-keeping update of a present record keeps ids unique, finds the updated record and leaves other lookups alone |
| TechStore.DeleteIdsIds | scripts/sync/tech-stack.mjs:55 | the ids left are the ids before minus the deleted ones |
| TechStore.UpdateKeepsIds | scripts/sync/tech-stack.mjs:104-111 | an update keeping its target's id keeps the set of ids |
| TechStore.UpsertIds | scripts/sync/tech-stack.mjs:88-101 | an upsert adds its id and keeps every other |
| TechStore.DeleteKeepsUnique | scripts/sync/tech-stack.mjs:55 | deleting keeps ids unique |
| TechStore.Store.constructor | models/TechStack.ts:70-71 | the collection starts with the given records |
| TechStore.Store.Update | scripts/sync/tech-stack.mjs:104-111 | the collection becomes its update by id; ids stay unique |
| TechStore.Store.Upsert | scripts/sync/tech-stack.mjs:88-101 | the collection becomes its upsert by id; ids stay unique |
| TechStore.Store.Delete | scripts/sync/tech-stack.mjs:55 | the collection loses exactly the given ids; ids stay unique |
| TechSync.NamesOf | scripts/sync/tech-stack.mjs:44 | the names of the listed files, in order |
| TechSync.Obsolete | scripts/sync/tech-stack.mjs:52 | exactly the stored ids that are not among the listed names |
| TechSync.Resynced | scripts/sync/tech-stack.mjs:88-101 | the upserted record carries the file name, the name without ".json" as version, the latest commit's id, its date or the clock, its attributed user, "github", "published" and the content; an existing record keeps its draft and creation time |
| TechSync.FetchAt | scripts/sync/tech-stack.mjs:77-85 | content is produced only from a file entry fetched at that commit and parsed |
| TechSync.Integrity | scripts/sync/tech-stack.mjs:32-41 | a data path that is not listed as a directory throws before any change |
| TechSync.FailureStops | scripts/sync/tech-stack.mjs:59-114 | once a file fails, the files after it change nothing |
| TechSync.CreationFillKeeps | scripts/sync/tech-stack.mjs:103-112 | filling the creation time keeps ids and changes only the creation time of the file's record, never one already set |
| TechSync.WriteEffect | scripts/sync/tech-stack.mjs:88-112 | the write stores the file's record as the upsert shapes it, up to a creation time filled only when absent, and adds only the file's id |
| TechSync.SyncEntryIds | scripts/sync/tech-stack.mjs:59-113 | one file keeps every id and adds at most its own, which it adds whenever it finishes and the stored commit id was empty |
| TechSync.SyncEntriesIds | scripts/sync/tech-stack.mjs:59-114 | the loop keeps every id, adds only listed names, and when it finishes every listed name is stored |
| TechSync.IntegrityIds | scripts/sync/tech-stack.mjs:43-114 | after a run no id remains that is not a listed ".json" file, and after a finished run the stored ids are exactly those files |
| TechSync.SyncEntryRecord | scripts/sync/tech-stack.mjs:72-101 | a file whose stored commit id equals its latest commit is skipped; otherwise a finished file's record holds the content at that commit, that commit's id, "published" and "github" |
| TechSync.SyncEntry | scripts/sync/tech-stack.mjs:59-113 | a file whose commits cannot be listed, or has none, changes nothing and fails; any change means the stored commit differs from the latest and the file was fetched at it |
| TechSync.SyncListed | scripts/sync/tech-stack.mjs:59-113 | the loop body leaves the store and flag one file's step describes |
| TechSync.DeleteObsolete | scripts/sync/tech-stack.mjs:51-56 | the records of stored ids missing from the listing are deleted |
| TechSync.SyncListedFiles | scripts/sync/tech-stack.mjs:59-114 | the loop over the files leaves the store and flag of the whole sequence |
| TechSync.SyncTechStack | scripts/sync/tech-stack.mjs:11-117 | the run leaves the store and outcome that the integrity reconciliation describes |
| TreeSync.UnderPath | lib/services/SyncUtils.mjs:54 | the entries kept are exactly those with a path that starts with the watched path |
| TreeSync.UnderPathAppend | lib/services/SyncUtils.mjs:54 | the filter keeps the tree's order |
| TreeSync.UnderPathIdempotent | lib/services/SyncUtils.mjs:54 | filtering twice is filtering once |
| TreeSync.Snapshot | lib/services/SyncUtils.mjs:22-76 | nothing is stored exactly when no commit touches the path; a stored snapshot is keyed by the path, names the latest commit, its attributed user and its parsed committer date, carries the clock, and holds the tree entries under the path in tree order; a failed call is reported as its error, and a latest commit without a committer date as `NoCommitterDate` |
| TreeSync.TreeStore.constructor | lib/services/SyncUtils.mjs:9-18 | the collection starts with the given records |
| TreeSync.PerformTreeSync | lib/services/SyncUtils.mjs:5-77 | a failed call rethrows and writes nothing; no commits writes nothing; otherwise only the path's record is set to the snapshot |
| TechActions.Stamped | app/manage-tech-stack/actions.ts:27-45 | the upserted record has the file's name, version and content, "published" and "github"; the metadata's commit and user when present; an existing record keeps its draft and creation time, a new one takes the content as draft |
| TechActions.Present | app/manage-tech-stack/actions.ts:22-23 | the count of present entries is at most the listing's length |
| TechActions.FileNamesSnoc | app/manage-tech-stack/actions.ts:22-47 | one more entry adds its name, if present, to the names |
| TechActions.UpsertAllIds | app/manage-tech-stack/actions.ts:22-47 | after the loop ids are unique and are the old ids plus the files' names |
| TechActions.UpsertAllKeepsDrafts | app/manage-tech-stack/actions.ts:27-45 | after the loop each file's record is published by "github", and each record that existed keeps its draft and creation time |
| TechActions.UpsertFile | app/manage-tech-stack/actions.ts:27-45 | one upsert leaves the collection the stamped upsert describes |
| TechActions.UpsertEntry | app/manage-tech-stack/actions.ts:22-46 | one turn extends the upserted prefix by one entry |
| TechActions.UpsertFiles | app/manage-tech-stack/actions.ts:20-47 | the loop upserts the present entries in order and counts them |
| TechActions.SyncTechStack | app/manage-tech-stack/actions.ts:9-60 | a failed listing fails with no write; otherwise every fetched file is upserted and the count is the number of files |
| TechActions.AllPresent | app/manage-tech-stack/actions.ts:46 | a listing with no absent entry counts every entry |
| TechActions.FindVersion | app/manage-tech-stack/actions.ts:75-83 | the record found has the version and is stored; none is found exactly when no record has the version |
| TechActions.Validate | app/manage-tech-stack/actions.ts:63-69 | the draft passes exactly when it is a non-array object; a missing or null draft gets the null-data message |
| TechActions.Edited | app/manage-tech-stack/actions.ts:77-81 | the edit sets the draft, "modified" and "docsflow", and keeps id, version and published data |
| TechActions.UpdateDocsFlowData | app/manage-tech-stack/actions.ts:62-97 | an invalid draft or an unknown version fails with no write; otherwise the first record with the version is edited |
| TechActions.DraftUpdateEffect | app/manage-tech-stack/actions.ts:75-92 | a successful update changes exactly that record's draft, status and editor, not its published data, and no other record |
| TechActions.GetVersions | app/manage-tech-stack/actions.ts:100-112 | the versions in collection order, or none when the store cannot be reached |
| TechActions.GetVersionDetails | app/manage-tech-stack/actions.ts:114-129 | a record is returned exactly when the store is reachable and some record has the version, and it is such a record |
| TechActions.ListedVersionsHaveDetails | app/manage-tech-stack/actions.ts:100-129 | every listed version has details |
| DocActions.Defaults | models/Doc.ts:36-69 | a record first inserted has its id, no history, and no content or draft |
| DocActions.DocStore.constructor | lib/actions/docs.ts:55-58 | the collection starts with the given records |
| DocActions.FetchDocTree | lib/actions/docs.ts:19-35 | a stored snapshot is returned with no write; otherwise a sync runs, its failure is rethrown, and the read after it returns what the sync stored, if anything |
| DocActions.SyncDocTree | lib/actions/docs.ts:40-50 | success exactly when the snapshot sync did not fail, and the store is what that sync leaves |
| DocActions.FromGithub | lib/actions/docs.ts:65-79 | the created record holds the content as GitHub data, no draft, "published" from "github", by the last committer or "github", with commit details exactly when there is metadata; metadata without a date throws |
| DocActions.FetchDocContent | lib/actions/docs.ts:55-88 | a stored record is returned as it is; otherwise GitHub's content creates and returns a record, empty content returns nothing and writes nothing, and a failed call is rethrown |
| DocActions.ContentReadTwice | lib/actions/docs.ts:55-88 | a second read returns what the first returned and changes nothing |
| DocActions.EditorName | lib/actions/docs.ts:105 | the editor's name is the session's non-empty name, else "Unknown User"; never empty |
| DocActions.Saved | lib/actions/docs.ts:93-121 | the saved record has the new draft, "modified" from "docsflow", the editor and the clock, and exactly one history entry appended, holding the diff against the previous draft; GitHub data, commit and path stay |
| DocActions.SaveDocContent | lib/actions/docs.ts:93-128 | an accepted write stores the saved record under the path and changes no other; a refused one fails and changes nothing |
| DocActions.SaveThenRead | lib/actions/docs.ts:55-121 | after a save a read returns the saved record; two saves leave two entries in order, the second diffed against the first save's draft |
| ReleaseNoteActions.Preview | app/manage-release-notes/actions.ts:44-45 | a string's preview is at most its first hundred characters followed by "...", the whole string when it is short; anything else is "none" |
| ReleaseNoteActions.ComputeSimpleDiff | app/manage-release-notes/actions.ts:40-48 | null exactly when the new value is identical to the old; otherwise a content object whose from and to are the two previews |
| ReleaseNoteActions.PreviewHidesTail | app/manage-release-notes/actions.ts:44-45 | two changed texts that agree on their first hundred characters are recorded with the same change |
| ReleaseNoteActions.GetReleaseNotesTree | app/manage-release-notes/actions.ts:9-11 | the stored release-notes snapshot, or the result of syncing it |
| ReleaseNoteActions.SyncReleaseNotes | app/manage-release-notes/actions.ts:13-15 | success exactly when the release-notes snapshot sync did not fail |
| ReleaseNoteActions.GetReleaseNoteContent | app/manage-release-notes/actions.ts:17-24 | a note's content is read as any document's is |
| ReleaseNoteActions.UpdateReleaseNote | app/manage-release-notes/actions.ts:26-35 | an accepted save stores the text as the draft, with one history entry holding the simple diff; a refused one changes nothing |
| ReleaseNoteActions.ResaveRecordsNothing | app/manage-release-notes/actions.ts:40-41 | saving a note with the text it already has records a null change |
| ReleaseNotesEditor.Load | app/manage-release-notes/ReleaseNotesContext.tsx:69-94 | loading drops the pending update and ends loading; a loaded note shows its draft, else its GitHub text, else nothing, and is then not dirty; a failed load changes nothing else |
| ReleaseNotesEditor.Select | app/manage-release-notes/ReleaseNotesContext.tsx:96-101 | selecting the selected path again changes nothing; a new path is selected and loaded |
| ReleaseNotesEditor.SaveRequest | app/manage-release-notes/ReleaseNotesContext.tsx:103-109 | a save is sent exactly when a path is selected and no remote update is pending, and it sends the override or else the editor's text |
| ReleaseNotesEditor.AfterSave | app/manage-release-notes/ReleaseNotesContext.tsx:103-133 | a save succeeds exactly when it is sent and the server accepts it; otherwise nothing changes; on success the editor shows the sent text, the status is the reply's or "modified", and a reply echoing the text leaves the editor clean |
| ReleaseNotesEditor.AfterStartPublish | app/manage-release-notes/ReleaseNotesContext.tsx:135-142 | a publish is marked in flight exactly when a path is selected, no update is pending and none is in flight; otherwise nothing changes |
| ReleaseNotesEditor.AfterFinishPublish | app/manage-release-notes/ReleaseNotesContext.tsx:143-165 | the in-flight mark is cleared on every outcome, and the note is reloaded only after a successful request |
| ReleaseNotesEditor.Resolve | app/manage-release-notes/ReleaseNotesContext.tsx:168-175 | the merged draft becomes the base and the text the editor's; the pending update and its metadata are cleared; the editor and time come from the metadata when there is some |
| ReleaseNotesEditor.RemoteChange | app/manage-release-notes/ReleaseNotesContext.tsx:202-231 | a notification becomes the pending update, with its editor and time, exactly when it is for the selected note, the record reads back and its draft (null as "") differs from the base draft; anything else changes nothing |
| ReleaseNotesEditor.LoadTree | app/manage-release-notes/ReleaseNotesContext.tsx:54-67 | loading ends; a returned tree replaces the shown one, a failure sets the error and keeps the tree |
| ReleaseNotesEditor.PendingUpdateGatesSave | app/manage-release-notes/ReleaseNotesContext.tsx:103-175 | while a remote update is pending, save and publish change nothing; after it is resolved, save is sent again and publish is allowed when none is in flight |
| ReleaseNotesEditor.SaveEchoIgnored | app/manage-release-notes/ReleaseNotesContext.tsx:213-220 | the notification of one's own save, carrying the saved text, is not reported as a remote update |
| ReleaseNotesEditor.PublishOnceInFlight | app/manage-release-notes/ReleaseNotesContext.tsx:141-142 | once a publish is in flight a second one sends nothing |
| ReleaseNotesEditor.ReleaseNotesState.constructor | app/manage-release-notes/ReleaseNotesContext.tsx:35-52 | the provider starts with nothing selected, no content, no pending update, and the tree loading |
| ReleaseNotesEditor.ReleaseNotesState.FetchContent | app/manage-release-notes/ReleaseNotesContext.tsx:69-94 | the state becomes the load of the returned note |
| ReleaseNotesEditor.ReleaseNotesState.ShowNote | app/manage-release-notes/ReleaseNotesContext.tsx:74-88 | the note's fields are shown |
| ReleaseNotesEditor.ReleaseNotesState.SetSelectedPath | app/manage-release-notes/ReleaseNotesContext.tsx:96-101 | the state becomes the selection of the path |
| ReleaseNotesEditor.ReleaseNotesState.SetContent | app/manage-release-notes/ReleaseNotesContext.tsx:270 | only the editor's text changes |
| ReleaseNotesEditor.ReleaseNotesState.Save | app/manage-release-notes/ReleaseNotesContext.tsx:103-133 | the state and answer are those of the save transition |
| ReleaseNotesEditor.ReleaseNotesState.AdoptSaved | app/manage-release-notes/ReleaseNotesContext.tsx:112-122 | the reply's fields are adopted and the sent text shown |
| ReleaseNotesEditor.ReleaseNotesState.StartPublish | app/manage-release-notes/ReleaseNotesContext.tsx:135-142 | the request is sent exactly when publishing is allowed, and the state becomes the start transition's |
| ReleaseNotesEditor.ReleaseNotesState.FinishPublish | app/manage-release-notes/ReleaseNotesContext.tsx:143-165 | the state becomes the end-of-publish transition's |
| ReleaseNotesEditor.ReleaseNotesState.ResolveIncomingUpdate | app/manage-release-notes/ReleaseNotesContext.tsx:168-175 | the state becomes the resolution's |
| ReleaseNotesEditor.ReleaseNotesState.OnRemoteChange | app/manage-release-notes/ReleaseNotesContext.tsx:202-231 | the state becomes the live-update rule's |
| ReleaseNotesEditor.ReleaseNotesState.FetchTree | app/manage-release-notes/ReleaseNotesContext.tsx:54-67 | the state becomes the tree load's |
| Assets.LooksBase64 | components/EditorPage.tsx:254-260 | a value looks like base64 exactly when it is non-empty, not a `data:` URL, a multiple of four long and made only of base64 characters |
| Assets.Extension | components/EditorPage.tsx:247 | the extension holds no dot, and a file name without a dot is its own extension, lower-cased |
| Assets.Mime | components/EditorPage.tsx:262-282 | the table names a media type other than the fallback exactly for the image, video and audio extensions, and no media type holds a `;` |
| Assets.AssetSrc | components/EditorPage.tsx:284-292 | the source is empty exactly for an empty value; bare base64 becomes a base64 `data:` URL of the extension's media type; anything else is shown as it is |
| Assets.AssetSrcIdempotent | components/EditorPage.tsx:284-292 | the source of a shown asset is itself |
| Assets.DecodeSvg | components/SvgEditor.tsx:25-52 | an empty value decodes to ""; a value that is not a `data:` URL is decoded when it looks like base64 and `atob` accepts it, else kept; only a `data:` URL without the base64 marker and with a comma can fail to decode |
| Assets.FirstAfterHead | components/SvgEditor.tsx:28-29 | a marker whose first character the head lacks is first found right after the head |
| Assets.DecodeAssetSrc | components/SvgEditor.tsx:25-52 | decoding the `data:` URL the asset view builds gives what decoding the stored value gives, unless `atob` refuses the payload, when the URL itself comes back |
| EditorPage.Segments | components/EditorPage.tsx:96 | a path splits into at least one segment, and joining the segments with "/" gives the path back |
| EditorPage.MatchingSearch | components/EditorPage.tsx:240-242 | the entries kept are exactly those whose lower-cased path contains the lower-cased search text |
| EditorPage.MatchingSearchCons | components/EditorPage.tsx:240-242 | the first entry is kept, in front, exactly when it is shown |
| EditorPage.MatchingSearchAppend | components/EditorPage.tsx:240-242 | the filter keeps listing order: filtering a concatenation concatenates the filtered parts |
| EditorPage.MatchingSearchCounts | components/EditorPage.tsx:240-242 | each shown entry is kept as many times as the listing holds it, and no other entry is kept |
| EditorPage.CommonFrom | components/EditorPage.tsx:80-88 | counting from a position stops at the first position not shared by every path, and never at the first path's last segment |
| EditorPage.CommonCount | components/EditorPage.tsx:75-88 | the common count is below the first path's segment count, every position before it is shared by all paths, the next one (if not the last) is not, and no path is shorter than it |
| EditorPage.CommonPartsCount | components/EditorPage.tsx:77-88 | the loop computes the common count |
| EditorPage.PathsOfSnoc | components/EditorPage.tsx:116-117 | appending a node adds its path |
| EditorPage.AddUpToExtends | components/EditorPage.tsx:102-120 | visiting one path only appends nodes, each a node of that path |
| EditorPage.AddUpToPaths | components/EditorPage.tsx:102-120 | after visiting a path the node paths are the old ones plus the path's prefixes past the common part |
| EditorPage.AddUpToUnique | components/EditorPage.tsx:109-118 | the visit never adds a second node with a path already present |
| EditorPage.NodeInPrefixes | components/EditorPage.tsx:104-105 | a node's path and its parent's path are prefixes of its entry's path |
| EditorPage.NodeUnderParent | components/EditorPage.tsx:99-119 | a node has no parent exactly when it is at the top level, and otherwise its path is its parent's path, "/" and its name |
| EditorPage.NodeLeaf | components/EditorPage.tsx:107-113 | a node that is not a directory carries its entry's whole path and type |
| EditorPage.BuildUnique | components/EditorPage.tsx:95-121 | no two built nodes share a path |
| EditorPage.BuildCovers | components/EditorPage.tsx:95-121 | every prefix of every entry past the common part has a node |
| EditorPage.BuildFrom | components/EditorPage.tsx:95-121 | every node is the node of some entry's prefix |
| EditorPage.SortKeepsEntries | components/EditorPage.tsx:93 | sorting by path keeps exactly the entries |
| EditorPage.TreeCoversEntries | components/EditorPage.tsx:72-124 | the tree has no two nodes with one path, and every entry longer than the common prefix appears with its whole path |
| EditorPage.TreeParents | components/EditorPage.tsx:102-120 | every parent is a node of the tree, and a child's path is its parent's, "/" and its name |
| EditorPage.TreeOrigins | components/EditorPage.tsx:72-124 | every node is a prefix of some entry, and every file node is an entry with its type |
| EditorPage.AddItemNodes | components/EditorPage.tsx:96-120 | the inner loop adds exactly the nodes of one entry and keeps the set of known paths |
| EditorPage.BuildTree | components/EditorPage.tsx:72-124 | no nodes for an empty listing; otherwise the nodes of the sorted entries past their common prefix |
| EditorPage.PendingUpdateGatesButtons | components/EditorPage.tsx:405-434 | while a remote update is pending Save Draft is disabled, Publish depends only on the status, and a publish request is refused |
| EditorPage.CanPublish | components/EditorPage.tsx:246 | publishing is offered exactly for a selected file whose status is "new" or "modified"; never for a published or statusless one |
| EditorPage.BaseContent | components/EditorPage.tsx:245 | the base text is the draft, else the GitHub text, else "" |
| EditorPage.EditorSession.constructor | components/EditorPage.tsx:349-352 | the page starts clean on the shown content, with the conflict panel closed |
| EditorPage.EditorSession.Reset | components/EditorPage.tsx:349-352 | new content resets the editor's text and clears the dirty mark |
| EditorPage.EditorSession.MarkDirty | components/EditorPage.tsx:294-297 | an edit sets the text and the dirty mark |
| EditorPage.EditorSession.HandleSave | components/EditorPage.tsx:303-311 | the editor's text is sent, and the dirty mark clears only when the save succeeded |
| EditorPage.EditorSession.MergeIncoming | components/EditorPage.tsx:313-334 | nothing without an update; a clean merge replaces the text, marks it dirty and resolves the update with the merged text; a conflict opens the panel on the editor's text with the merged text as baseline |
| EditorPage.EditorSession.SetConflictResolved | components/EditorPage.tsx:236-238 | only the text being resolved changes |
| EditorPage.EditorSession.SetResolveModalOpen | components/EditorPage.tsx:236 | only the panel's open flag changes |
| EditorPage.EditorSession.FinishResolve | components/EditorPage.tsx:336-347 | with a resolver and an update the resolved text replaces the editor's, is dirty and resolves the update; the panel closes in every case |
| DocsMdx.FindIndex | components/docs/DocsMdxComponents.tsx:84-87 | the index of the first JSX attribute with the name, or -1 when none has it |
| DocsMdx.ReadAttributeValue | components/docs/DocsMdxComponents.tsx:40-46 | a string attribute reads as itself, an expression as its source text, a missing one as "" |
| DocsMdx.IsTabItem | components/docs/DocsMdxComponents.tsx:62-63 | a tab is a JSX flow element named "TabItem" |
| DocsMdx.GetTabName | components/docs/DocsMdxComponents.tsx:71-80 | the first "name" attribute's string, and "" when there is none or it is an expression |
| DocsMdx.GetJsxProps | components/docs/DocsMdxComponents.tsx:48-60 | exactly the requested names, each with its attribute's value, and "" for a name with no attribute |
| DocsMdx.TabItems | components/docs/DocsMdxComponents.tsx:65-66 | the TabItem children, in order |
| DocsMdx.OtherChildren | components/docs/DocsMdxComponents.tsx:68-69 | every other child, in order |
| DocsMdx.TabsPartition | components/docs/DocsMdxComponents.tsx:65-69 | the two filters split the children: together they hold each child exactly once |
| DocsMdx.TabItemsAppend | components/docs/DocsMdxComponents.tsx:65-66 | the tab filter keeps order |
| DocsMdx.OtherChildrenAppend | components/docs/DocsMdxComponents.tsx:68-69 | the other filter keeps order |
| DocsMdx.FilterAllTabs | components/docs/DocsMdxComponents.tsx:65-69 | a list of tabs filters to itself and to no other children |
| DocsMdx.FilterNoTabs | components/docs/DocsMdxComponents.tsx:65-69 | a list without tabs filters to no tabs and to itself |
| DocsMdx.TabsThenOthers | components/docs/DocsMdxComponents.tsx:143-148 | what the tab update writes reads back as the same tabs and the same other children |
| DocsMdx.SetTabName | components/docs/DocsMdxComponents.tsx:82-106 | the renamed tab reads back the new name, keeps its kind, element name and children, and changes only its first name attribute or appends one |
| DocsMdx.CreateTabItem | components/docs/DocsMdxComponents.tsx:108-119 | a new tab is a TabItem carrying the name, with one empty paragraph |
| DocsMdx.RemoveAt | components/docs/DocsMdxComponents.tsx:163-164 | an index in range drops exactly that tab; any other index keeps the list |
| DocsMdx.InsertAt | components/docs/DocsMdxComponents.tsx:175 | the tab is inserted at the index and nothing else changes in the multiset |
| DocsMdx.Moved | components/docs/DocsMdxComponents.tsx:171-178 | a target out of range keeps the list; otherwise the moved tab lands at the target, and the rest keep their order |
| DocsMdx.InsertRemoved | components/docs/DocsMdxComponents.tsx:173-175 | putting a removed tab back where it was restores the list |
| DocsMdx.MoveBack | components/docs/DocsMdxComponents.tsx:171-178 | moving a tab there and back restores the list |
| DocsMdx.Renamed | components/docs/DocsMdxComponents.tsx:150-155 | only the tab at the index changes, and it reads back the new name |
| DocsMdx.TabOperationsKeepTabs | components/docs/DocsMdxComponents.tsx:150-178 | rename, add, remove and move keep a list of tabs a list of tabs |
| DocsMdx.TabsWrapper.constructor | components/docs/DocsMdxComponents.tsx:121-131 | the editor opens on the first tab |
| DocsMdx.TabsWrapper.UpdateTabs | components/docs/DocsMdxComponents.tsx:143-148 | the children become the new tabs followed by the other children |
| DocsMdx.TabsWrapper.ClampActive | components/docs/DocsMdxComponents.tsx:133-141 | the shown index becomes 0 with no tabs, the last tab when past the end, and otherwise stays |
| DocsMdx.TabsWrapper.Select | components/docs/DocsMdxComponents.tsx:131 | a click shows that tab and changes no child |
| DocsMdx.TabsWrapper.ChangeTabName | components/docs/DocsMdxComponents.tsx:150-155 | the tabs become the renamed tabs; the other children stay |
| DocsMdx.TabsWrapper.AddTab | components/docs/DocsMdxComponents.tsx:157-161 | a tab named "Tab n+1" is appended and shown |
| DocsMdx.TabsWrapper.RemoveTab | components/docs/DocsMdxComponents.tsx:163-169 | the tab at the index is dropped; a shown index past the end moves to the last tab, or 0 |
| DocsMdx.TabsWrapper.MoveTab | components/docs/DocsMdxComponents.tsx:171-178 | a target out of range changes nothing; otherwise the tabs become the moved list and the target is shown |
| DocsMdx.FieldErrors | components/docs/DocsMdxComponents.tsx:611-617 | exactly the required fields with a blank value get the error "Required" |
| DocsMdx.CleanTabNames | components/docs/DocsMdxComponents.tsx:626-628 | each name is trimmed, a blank one becomes "Tab i+1"; none is empty and the length is kept |
| DocsMdx.NonEmpty | components/docs/DocsMdxComponents.tsx:628 | exactly the non-empty names, and all of them when none is empty |
| DocsMdx.EffectiveTabs | components/docs/DocsMdxComponents.tsx:626-630 | at least one name: the cleaned names, or "Tab 1" for an empty list |
| DocsMdx.TabNodes | components/docs/DocsMdxComponents.tsx:631 | one tab per name, reading back that name |
| DocsMdx.CleanProps | components/docs/DocsMdxComponents.tsx:646-654 | exactly the non-blank form values, trimmed |
| DocsMdx.ValidatedFieldsInserted | components/docs/DocsMdxComponents.tsx:607-654 | every required field of a form that passed validation is inserted with a non-empty value |
| DocsMdx.DocsToolbar.constructor | components/docs/DocsMdxComponents.tsx:548-555 | the dialog starts closed with nothing chosen, no values, no errors and the default tab names |
| DocsMdx.DocsToolbar.OpenDialogFor | components/docs/DocsMdxComponents.tsx:566-582 | the dialog opens on the component with no errors; tabs start from the default names and no values, any other from an empty value per field |
| DocsMdx.DocsToolbar.CloseDialog | components/docs/DocsMdxComponents.tsx:584-587 | the dialog closes and forgets the component; the form stays |
| DocsMdx.DocsToolbar.SetFormValue | components/docs/DocsMdxComponents.tsx:552 | only that form value changes |
| DocsMdx.DocsToolbar.SetTabs | components/docs/DocsMdxComponents.tsx:555 | only the tab names change |
| DocsMdx.DocsToolbar.ValidateProps | components/docs/DocsMdxComponents.tsx:607-620 | passes exactly when nothing or tabs is chosen or every required field is filled; for other components the errors become the field errors |
| DocsMdx.DocsToolbar.InsertComponent | components/docs/DocsMdxComponents.tsx:622-674 | nothing without a component; tabs insert a TabsWrapper of the effective tab names; other components insert exactly when valid, with the cleaned props; an insertion closes the dialog and forgets the component; a refused one keeps the dialog and the component and records the field errors; the form is kept |
| Text.IndexOf | components/SvgEditor.tsx:28 | the index of the first occurrence, or -1 exactly when there is none |
| Text.Trim | components/docs/DocsMdxComponents.tsx:611-654 | empty exactly for blank text; otherwise it starts and ends with a non-space character and is the slice of the text between the leading and trailing white space |
| Text.NormalizeIsReplaceAll | scripts/test-history.js:8-10 | the line-ending normalisation replaces every "\r\n" match, left to right, by "\n" |
| Text.JoinSplit | scripts/test-history.js:36-39 | splitting on a separator and joining with it gives the text back |

## Left out

Source files and areas not in the model:
- Rendering-only UI (page layouts, the navigation bar, cards, dialogs, styling, toasts): they display state and hold no logic beyond it.
- `components/MdxEditor.tsx` and `components/CodeMirrorEditor.tsx`: glue over the MDXEditor and CodeMirror views, which are not part of this model.
- Event streams and timers (`lib/services/SSEService.ts`, the three `watch` routes, `MongoService.watch` and `startPolling`, `TechStackContext.tsx`): their point is asynchronous delivery. Each handler of a notification is modelled as one atomic step, so the timing of a stream's closure is not modelled.
- Object storage and authentication (`lib/s3.ts`, `app/api/upload-asset/route.ts`, NextAuth configuration and callbacks): calls into AWS and NextAuth. The signed-in user is an input.
- Connection and bootstrap glue (`getConn`, `getModel` and the upsert wrappers of `MongoService`, `instrumentation.ts`, `scripts/sync-github.mjs`, `scripts/sync/release-notes.mjs`, the `syncDocTree` wrapper): they only wire the modelled operations to the database and the process.
- Schema declarations and configuration (`models/*.ts`, `lib/config.mjs`) appear only as datatype shapes and constants.
- Network and database effects: GitHub REST calls and Mongo queries are a `Remote.GitHub` object or function parameters, and stores are maps or sequences. Retries, latency and concurrent writers are not modelled.
- SHA-1, HMAC-SHA256, `atob`, `decodeURIComponent`, `JSON.stringify`, `JSON.parse`, node-diff3's `diff3Merge`, `diffPatch` and `patch` and `localeCompare` are function parameters with no properties assumed. The clock (`Date.now`, `new Date()`) is an integer parameter.
- Date parsing (`new Date(s).getTime()`) is a function parameter from strings to integers. An unparsable date, `NaN` in JavaScript, cannot be represented.

Contracts stated weaker than the code's promise:
- Version.SortVersions: it is proved to be a permutation for every input, but sorted only when every version is all-numeric (`Version.SortVersionsDescending`). With unknown tags, `compareVersions` is not transitive, so no sorted order need exist.
- DocsMdx.TabsWrapper.MoveTab: requires `from` to be a tab index. The editor calls it only with the index of a shown tab.
- DocActions.SaveDocContent: a failure of the database write is modelled only as the `accepted` flag, not as the error the driver raises.
- History.ExtractTimestamp: an unparsable string timestamp gives `NaN` in the code; the model's date parser always returns an integer, so that case is not covered.
- History.SortedHistoryOrdered: holds for integer timestamps only. With a `NaN` timestamp the comparator answers `NaN` and the order `sort` produces is implementation-defined, so the code promises no order.
- History.SortedHistoryStable: proved for integer timestamps only, for the same reason.
- Repro.SetKey: "a new key goes last" is JavaScript's order only for keys that are not integer-like. JavaScript lists integer-like keys ("0", "12") first, in ascending order, so setting "0" on `{"a": 1}` gives the key order "0", "a" there and "a", "0" in the model.
- TechSync.SyncTechStack: the data path is a parameter. `scripts/sync/tech-stack.mjs` reads `GITHUB_CONFIG.DATA_PATH`, which `lib/config.mjs` does not define, so as written the listing is requested for an undefined path. What GitHub answers for it is not modelled, and every property of the run (`TechSync.IntegrityIds` included) is relative to whatever listing that request returns.
- TechSync.Integrity: the same undefined path; the error message naming it is not modelled.
- Publish.PublishWithAdapter: after a failure past the selection, what GitHub holds (a branch already created, blobs uploaded, a ref already moved) is not stated; only the store is.
- Publish.SelectBranch: the log is stated only to grow by read-only lookups. The lookups of each candidate are stated by `Publish.ReuseCandidate`.
- ReleaseNotesEditor.AfterSave: a reply whose `docsflow_data` is `null` is read like one without the field, so the editor keeps the sent text where ReleaseNotesContext.tsx:114-118 would show `null`. `updateReleaseNote` always stores the sent text, so its reply never carries `null` there.

Behaviour the model simplifies:
- JavaScript `Number` coercion in `compareVersions` (hex, exponents, white space, `Infinity`): a segment is numeric when it is empty or all ASCII digits, and it is compared as a natural number.
- Object keys that collide with JavaScript prototype members (`constructor`, `toString`) in the pre-release tag table, the MIME table and `buildTree`'s map are treated as absent.
- Mongoose's removal of `undefined` fields, and the `DOCS_DB` and `TECH_STACK_COLLECTION` configuration keys the code reads but the configuration does not define. Database and collection names are not modelled.
- `Promise.all`: a failure of any parallel call is one error value. Which call failed and its message are not modelled.
- JSON numbers are integers. Fractions, exponents, `NaN` and `Infinity` are not modelled, and neither is the number formatting of `JSON.stringify`.
- Push payload commits are taken to carry their `added`, `modified` and `removed` arrays. The payload's `commits` list itself may be absent.
- Strings are sequences of characters, so UTF-16 code units and surrogate pairs are not modelled.
- Text.ToLower lowers only the ASCII letters A-Z. `toLowerCase` also maps non-ASCII letters ("É" to "é"), so for non-ASCII text the model differs in `Assets.Extension`, `GitHubApi.Extension`, `EditorPage.MatchingSearch` and `Version.Normalize`.
- Two distinct objects are never `===`, so identity tests are decided by which value is passed.
- `adapter.updateAfterPublish` is a function of what it is handed, answering an error or nothing. Its writes to the documents' own collection are not modelled.
- `revalidatePath`, toasts and `console` logging are left out: they have no effect on the modelled state.
- The editor's `fetchContent` raises and lowers its loading flag within one step, and `mdxEditorRef.setMarkdown` calls are modelled as the markdown state they set.
- The nested editor's paragraph padding and `handleFileUpload` (an object-storage upload) are not modelled.
- An absent `children` list of a `TabsWrapper` is read as the empty list.
- The document tree is a flat map from paths to nodes with their parent paths, not nested `children` arrays.
- `insertJsx` is modelled as the insertion it returns, and `resolveIncomingUpdate` as the pair of states it leaves.
- The `null` guard in the `syncTechStack` loop is unreachable, because every listed item has a path. It is not modelled.

## Findings

| source | as written | input that shows it | evidently intended | confidence | as-written member | corrected member |
|---|---|---|---|---|---|---|
| app/api/github-webhook/route.ts:11 | the configuration has no `DATA_PATH` key, so the filter is `startsWith(undefined)`, which looks for the text "undefined" | a push whose comparison reports only a modification of `data/tech-stack-data/v11.4.0.json` re-syncs nothing and still moves the sync bookmark | filter on `GITHUB_CONFIG.PATHS.TECH_STACK` | not executed | Webhook.AsWrittenPushSkipsDataFiles | Webhook.ConfiguredPushSyncsDataFiles |
