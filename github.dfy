/** Shaping of the GitHub REST API's answers: the metadata of a file's
    latest commit (`getFileMetadata`), the tech-stack files of the data
    directory (`fetchTechStackFiles`) and a file's content
    (`getFileContent`). The API's answers are inputs; base64 decoding and
    `JSON.parse` are parameters. */
module GitHubApi {
  import opened Wrappers
  import opened Text
  import opened Json
  import Config
  import opened DataFiles

  /** A commit as `repos.listCommits` lists it, newest first; a field
      GitHub leaves out is `None`. */
  datatype CommitInfo = CommitInfo(
    sha: string,
    committerDate: Option<string>,
    authorDate: Option<string>,
    login: Option<string>,
    authorName: Option<string>)

  /** What `getFileMetadata` returns for a file with commits. */
  datatype FileMeta = FileMeta(lastCommitId: string, lastUpdate: Option<string>, lastGithubUser: string)

  /** One item of a directory listing. */
  datatype Listed = Listed(name: string, path: string)

  /** An answer of `repos.getContent`: a directory listing (an array), or a
      single entry with its `type` and its base64 `content` ("" when none
      is sent). */
  datatype ContentResponse = Directory(entries: seq<Listed>) | Entry(kind: string, content: string)

  /** A failed call, with its HTTP status. */
  datatype ApiError = ApiError(status: int)

  /** The API's answers (`getContent` by path and ref, `listCommits` by
      path and ref, all commits newest first) and the decoders the code
      calls: base64 to UTF-8 text, and `JSON.parse` (`None` when it
      throws). */
  datatype Api = Api(
    getContent: (string, string) -> Result<ContentResponse, ApiError>,
    listCommits: (string, string) -> Result<seq<CommitInfo>, ApiError>,
    decode: string -> string,
    parse: string -> Option<Json>)

  /** JavaScript truthiness of an optional string. */
  predicate Truthy(o: Option<string>) {
    o.Some? && o.value != ""
  }

  /** `a || b` on optional strings. */
  function Or(a: Option<string>, b: Option<string>): Option<string> {
    if Truthy(a) then a else b
  }

  /** `a || d` with a string default. */
  function OrElse(a: Option<string>, d: string): string {
    if Truthy(a) then a.value else d
  }

  const UnknownUser := "Unknown"

  /** What the sync scripts write when a commit names nobody. */
  const UnknownScriptUser := "unknown"

  /** The user a commit is attributed to: the GitHub login, else the
      author's name, else the fallback. */
  function AttributedTo(c: CommitInfo, fallback: string): (u: string)
    ensures fallback != "" ==> u != ""
    ensures Truthy(c.login) ==> u == c.login.value
    ensures !Truthy(c.login) && Truthy(c.authorName) ==> u == c.authorName.value
    ensures !Truthy(c.login) && !Truthy(c.authorName) ==> u == fallback
  {
    OrElse(c.login, OrElse(c.authorName, fallback))
  }

  /** The user `getFileMetadata` reports: "Unknown" as the fallback. */
  function CommitUser(c: CommitInfo): (u: string)
    ensures u != ""
  {
    AttributedTo(c, UnknownUser)
  }

  /** `getFileMetadata` on the answer of `listCommits` (`per_page: 1`, so
      only the newest commit counts): nothing when the call failed or the
      file has no commits; otherwise the newest commit's sha, its committer
      date (else its author date) and its user. */
  function FileMetadata(listing: Result<seq<CommitInfo>, ApiError>): (m: Option<FileMeta>)
    ensures m.None? <==> listing.Err? || listing.value == []
    ensures m.Some? ==> m.value.lastCommitId == listing.value[0].sha
    ensures m.Some? ==> m.value.lastGithubUser == CommitUser(listing.value[0])
    ensures m.Some? ==>
      var c := listing.value[0];
      m.value.lastUpdate == if Truthy(c.committerDate) then c.committerDate else c.authorDate
  {
    if listing.Err? || listing.value == [] then None
    else
      var c := listing.value[0];
      Some(FileMeta(c.sha, Or(c.committerDate, c.authorDate), CommitUser(c)))
  }

  /** The first page of a listing, `per_page` items long. */
  function Page<T>(items: seq<T>, perPage: nat): (r: seq<T>)
    ensures |r| <= perPage && |r| <= |items| && r == items[..|r|]
    ensures |items| <= perPage ==> r == items
  {
    if |items| <= perPage then items else items[..perPage]
  }

  /** `getFileMetadata(path, ref)`: the newest commit that touched the
      file on that ref, if any. */
  function GetFileMetadata(api: Api, path: string, ref: string): (m: Option<FileMeta>)
    ensures m.None? <==> api.listCommits(path, ref).Err? || api.listCommits(path, ref).value == []
    ensures m.Some? ==> m.value.lastCommitId == api.listCommits(path, ref).value[0].sha && m.value.lastGithubUser != ""
  {
    FileMetadata(api.listCommits(path, ref))
  }

  /** A tech-stack file as `fetchTechStackFiles` returns it. */
  datatype TechFile = TechFile(fileName: string, content: Json, version: string, metadata: Option<FileMeta>)

  const NotDirectory := "Path is not a directory"
  const FetchFailed := "Error fetching from GitHub"

  /** The listed items whose name ends in ".json", in order. */
  function JsonEntries(es: seq<Listed>): (r: seq<Listed>)
    ensures |r| <= |es|
    ensures forall e :: e in r <==> e in es && EndsWith(e.name, JsonSuffix)
  {
    if es == [] then []
    else (if EndsWith(es[0].name, JsonSuffix) then [es[0]] else []) + JsonEntries(es[1..])
  }

  /** An entry that yields a file: a `file` with non-empty content. */
  predicate YieldsFile(r: Result<ContentResponse, ApiError>) {
    r.Ok? && r.value.Entry? && r.value.kind == "file" && r.value.content != ""
  }

  /** One listed file: its fetch failing or its JSON not parsing throws;
      an entry that is not a file, or is empty, gives nothing. */
  function FetchOne(api: Api, e: Listed): (r: Result<Option<TechFile>, string>)
    ensures r.Ok? && r.value.Some? <==> YieldsFile(api.getContent(e.path, Config.Branch))
                                        && api.parse(api.decode(api.getContent(e.path, Config.Branch).value.content)).Some?
    ensures r.Ok? && r.value.Some? ==>
      var f := r.value.value;
      && f.fileName == e.name
      && f.version == ReplaceFirst(e.name, JsonSuffix, "")
      && f.metadata == GetFileMetadata(api, e.path, Config.Branch)
      && Some(f.content) == api.parse(api.decode(api.getContent(e.path, Config.Branch).value.content))
  {
    match api.getContent(e.path, Config.Branch)
    case Err(_) => Err(FetchFailed)
    case Ok(Directory(_)) => Ok(None)
    case Ok(Entry(kind, content)) =>
      if kind != "file" || content == "" then Ok(None)
      else
        match api.parse(api.decode(content))
        case None => Err(FetchFailed)
        case Some(j) => Ok(Some(TechFile(e.name, j, ReplaceFirst(e.name, JsonSuffix, ""), GetFileMetadata(api, e.path, Config.Branch))))
  }

  /** `Promise.all` over the listed files, then the nulls filtered out: any
      failure fails the whole; the files that yield something, in order. */
  function FetchEach(api: Api, es: seq<Listed>): (r: Result<seq<TechFile>, string>)
    ensures r.Ok? <==> forall i :: 0 <= i < |es| ==> FetchOne(api, es[i]).Ok?
    ensures r.Ok? ==> |r.value| <= |es|
    ensures r.Ok? ==> forall f :: f in r.value ==> exists i :: 0 <= i < |es| && FetchOne(api, es[i]) == Ok(Some(f))
  {
    if es == [] then Ok([])
    else
      var one := FetchOne(api, es[0]);
      var rest := FetchEach(api, es[1..]);
      assert forall i :: 1 <= i < |es| ==> es[i] == es[1..][i - 1];
      if one.Err? || rest.Err? then Err(FetchFailed)
      else
        var r := (if one.value.Some? then [one.value.value] else []) + rest.value;
        assert forall f :: f in r ==> (one.value.Some? && f == one.value.value) || f in rest.value;
        Ok(r)
  }

  /** `fetchTechStackFiles`: the ".json" files of the tech-stack directory
      on the main branch. */
  function FetchTechStackFiles(api: Api): (r: Result<seq<TechFile>, string>)
    ensures api.getContent(Config.TechStackPath, Config.Branch).Err? ==> r == Err(FetchFailed)
    ensures r.Ok? ==> api.getContent(Config.TechStackPath, Config.Branch).Ok?
                      && api.getContent(Config.TechStackPath, Config.Branch).value.Directory?
    ensures r.Ok? ==> forall f :: f in r.value ==> EndsWith(f.fileName, JsonSuffix)
  {
    match api.getContent(Config.TechStackPath, Config.Branch)
    case Err(_) => Err(FetchFailed)
    case Ok(Entry(_, _)) => Err(NotDirectory)
    case Ok(Directory(es)) => FetchEach(api, JsonEntries(es))
  }

  /** What `fetchTechStackFiles` promises: it fails unless the path is a
      directory; every file it returns is a listed ".json" file whose
      version is its name without ".json", fetched, decoded and parsed. */
  lemma FetchedFilesAreJson(api: Api)
    ensures api.getContent(Config.TechStackPath, Config.Branch).Ok?
            && api.getContent(Config.TechStackPath, Config.Branch).value.Entry?
            ==> FetchTechStackFiles(api) == Err(NotDirectory)
    ensures FetchTechStackFiles(api).Ok? ==>
      var es := api.getContent(Config.TechStackPath, Config.Branch).value.entries;
      forall f :: f in FetchTechStackFiles(api).value ==>
        && EndsWith(f.fileName, JsonSuffix)
        && f.version == ReplaceFirst(f.fileName, JsonSuffix, "")
        && exists e :: e in es && e.name == f.fileName
                       && YieldsFile(api.getContent(e.path, Config.Branch))
                       && Some(f.content) == api.parse(api.decode(api.getContent(e.path, Config.Branch).value.content))
  {
    var listing := api.getContent(Config.TechStackPath, Config.Branch);
    if listing.Ok? && listing.value.Directory? {
      var js := JsonEntries(listing.value.entries);
      var r := FetchEach(api, js);
      if r.Ok? {
        forall f | f in r.value
          ensures EndsWith(f.fileName, JsonSuffix)
          ensures exists e :: e in listing.value.entries && e.name == f.fileName
                              && YieldsFile(api.getContent(e.path, Config.Branch))
                              && Some(f.content) == api.parse(api.decode(api.getContent(e.path, Config.Branch).value.content))
        {
          var i :| 0 <= i < |js| && FetchOne(api, js[i]) == Ok(Some(f));
          assert js[i] in js;
        }
      }
    }
  }

  /** Extensions `getFileContent` returns as raw base64. */
  const BinaryExtensions: set<string> := {"jpg", "jpeg", "png", "gif", "webp", "bmp", "avif", "mp4", "webm",
    "mov", "m4v", "avi", "mkv", "mp3", "wav", "ogg", "m4a", "flac", "aac"}

  /** The lower-cased text after the last "." (all of the path when it has
      no dot). */
  function Extension(path: string): string {
    ToLower(LastPiece(path, '.'))
  }

  lemma ExtensionAfterLastDot(stem: string, ext: string)
    requires '.' !in ext
    ensures Extension(stem + "." + ext) == ToLower(ext)
  {
    LastPieceAfter(stem, '.', ext);
  }

  lemma ExtensionWithoutDot(path: string)
    requires '.' !in path
    ensures Extension(path) == ToLower(path)
  {
    LastPieceWhole(path, '.');
  }

  /** `getFileContent`: nothing for a 404, a non-file or an empty file, the
      failure for any other error; a binary file's base64 with its line
      breaks removed, or any other file decoded as UTF-8 text. */
  function GetFileContent(api: Api, path: string, ref: string): (r: Result<Option<string>, ApiError>)
    ensures api.getContent(path, ref).Err? ==>
      r == if api.getContent(path, ref).error.status == 404 then Ok(None) else Err(api.getContent(path, ref).error)
    ensures api.getContent(path, ref).Ok? ==> (r.Ok? && (r.value.Some? <==> YieldsFile(api.getContent(path, ref))))
    ensures r.Ok? && r.value.Some? ==>
      var raw := RemoveChar(api.getContent(path, ref).value.content, '\n');
      r.value.value == if Extension(path) in BinaryExtensions then raw else api.decode(raw)
    ensures r.Ok? && r.value.Some? && Extension(path) in BinaryExtensions ==> '\n' !in r.value.value
  {
    match api.getContent(path, ref)
    case Err(e) => if e.status == 404 then Ok(None) else Err(e)
    case Ok(Directory(_)) => Ok(None)
    case Ok(Entry(kind, content)) =>
      if kind != "file" || content == "" then Ok(None)
      else
        var raw := RemoveChar(content, '\n');
        Ok(Some(if Extension(path) in BinaryExtensions then raw else api.decode(raw)))
  }
}
