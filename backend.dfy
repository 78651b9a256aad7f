/**
 * The Flask backend's `POST /api/repo` route: request validation, the GitHub
 * request headers, the mapping of fetched commits to `commit_activity`
 * entries, and the reply the route sends. The GitHub API itself is a parameter
 * (`GitHub`): given owner and repository it yields the fetched repository,
 * contributors and commits, or the text of the exception that fetching raised.
 */
module Backend {
  import opened Wrappers
  import opened JsonValue
  import opened PyStrings
  import opened GithubUrl
  import JsValues

  const AcceptValue: string := "application/vnd.github+json"
  const InvalidUrlMessage: string := "Invalid GitHub repo URL."

  /** `if GITHUB_TOKEN:`: the variable is set and not empty. */
  predicate TokenIsSet(token: Option<string>)
  {
    token.Some? && token.value != ""
  }

  /** The headers sent with every GitHub API request. */
  method GithubHeaders(token: Option<string>) returns (headers: map<string, string>)
    ensures "Accept" in headers && headers["Accept"] == AcceptValue
    ensures "Authorization" in headers <==> TokenIsSet(token)
    ensures "Authorization" in headers ==> headers["Authorization"] == "token " + token.value
    ensures headers.Keys <= {"Accept", "Authorization"}
  {
    headers := map["Accept" := AcceptValue];
    if TokenIsSet(token) {
      headers := headers["Authorization" := "token " + token.value];
    }
  }

  /** Python truthiness of a JSON value: JavaScript's, except that empty lists and dicts are false. */
  predicate PyTruthy(v: Json)
    ensures PyTruthy(v) <==> JsValues.JsTruthy(Some(v)) && v != JArr([]) && v != JObj(map[])
  {
    match v
    case JNull => false
    case JBool(b) => b
    case JNum(n) => n != 0
    case JStr(s) => s != ""
    case JArr(items) => items != []
    case JObj(fields) => fields != map[]
  }

  /** `type(v).__name__` of the Python value a JSON value decodes to. */
  function PyTypeName(v: Json): string
  {
    match v
    case JNull => "NoneType"
    case JBool(_) => "bool"
    case JNum(_) => "int"
    case JStr(_) => "str"
    case JArr(_) => "list"
    case JObj(_) => "dict"
  }

  /** `str(e)` of the AttributeError raised by `v.get(...)` when `v` is not a dict. */
  function NoGetMessage(v: Json): string
  {
    "'" + PyTypeName(v) + "' object has no attribute 'get'"
  }

  /** `d.get(key, default)` on a decoded JSON value. */
  function PyGet(v: Json, key: string, default: Json): (r: Result<Json, string>)
    ensures r.Success? <==> v.JObj?
    ensures r.Success? && key in v.fields ==> r.value == v.fields[key]
    ensures r.Success? && key !in v.fields ==> r.value == default
    ensures r.Failure? ==> r.error == NoGetMessage(v)
  {
    match v
    case JObj(fields) => Success(if key in fields then fields[key] else default)
    case _ => Failure(NoGetMessage(v))
  }

  /** A dict lookup with a default. */
  function Lookup(fields: map<string, Json>, key: string, default: Json): Json
  {
    if key in fields then fields[key] else default
  }

  /** A fetched commit on which the mapping does not raise: its `commit` and `commit.author` are dicts when present. */
  predicate CommitShaped(c: Json)
  {
    c.JObj?
    && var info := Lookup(c.fields, "commit", EmptyObject);
    info.JObj? && Lookup(info.fields, "author", EmptyObject).JObj?
  }

  /** The author dict of a commit on which the mapping does not raise. */
  function AuthorOf(c: Json): (author: map<string, Json>)
    requires CommitShaped(c)
  {
    Lookup(Lookup(c.fields, "commit", EmptyObject).fields, "author", EmptyObject).fields
  }

  /** The value whose `.get` raises when the mapping of commit `c` fails: the commit, its `commit`, or its author. */
  function FirstNonDict(c: Json): Json
  {
    if !c.JObj? then c
    else
      var info := Lookup(c.fields, "commit", EmptyObject);
      if !info.JObj? then info else Lookup(info.fields, "author", EmptyObject)
  }

  /** The `commit_activity` entry built from one fetched commit, or the AttributeError it raises. */
  function CommitEntry(c: Json): (r: Result<Json, string>)
    ensures r.Success? <==> CommitShaped(c)
    ensures r.Success? ==> r.value.JObj? && r.value.fields.Keys == {"sha", "author", "date", "message"}
    ensures r.Success? ==> r.value.fields["sha"] == Lookup(c.fields, "sha", JNull)
    ensures r.Success? ==> r.value.fields["message"]
                           == Lookup(Lookup(c.fields, "commit", EmptyObject).fields, "message", JNull)
    ensures r.Success? ==> r.value.fields["date"] == Lookup(AuthorOf(c), "date", JNull)
    ensures r.Success? && "name" in AuthorOf(c) ==> r.value.fields["author"] == AuthorOf(c)["name"]
    ensures r.Success? && "name" !in AuthorOf(c) ==> r.value.fields["author"] == JStr("Unknown")
    ensures r.Failure? ==> r.error == NoGetMessage(FirstNonDict(c))
  {
    match c
    case JObj(fields) =>
      var info := Lookup(fields, "commit", EmptyObject);
      var sha := Lookup(fields, "sha", JNull);
      (match info
       case JObj(infoFields) =>
         var author := Lookup(infoFields, "author", EmptyObject);
         (match author
          case JObj(authorFields) =>
            Success(JObj(map[
              "sha" := sha,
              "author" := Lookup(authorFields, "name", JStr("Unknown")),
              "date" := Lookup(authorFields, "date", JNull),
              "message" := Lookup(infoFields, "message", JNull)]))
          case _ => Failure(NoGetMessage(author)))
       case _ => Failure(NoGetMessage(info)))
    case _ => Failure(NoGetMessage(c))
  }

  /** The whole `commit_activity` list, or the error of the first commit whose mapping raises. */
  function CommitActivity(commits: seq<Json>): (r: Result<seq<Json>, string>)
    ensures r.Success? ==> |r.value| == |commits|
    decreases |commits|
  {
    if commits == [] then Success([])
    else
      var entry :- CommitEntry(commits[0]);
      var rest :- CommitActivity(commits[1..]);
      Success([entry] + rest)
  }

  /** The list is built exactly when no commit raises, one entry per commit, in order. */
  lemma {:induction false} CommitActivityEntries(commits: seq<Json>)
    ensures CommitActivity(commits).Success? <==> forall k :: 0 <= k < |commits| ==> CommitShaped(commits[k])
    ensures CommitActivity(commits).Success? ==>
      var entries := CommitActivity(commits).value;
      |entries| == |commits|
      && forall k :: 0 <= k < |commits| ==> entries[k] == CommitEntry(commits[k]).value
    decreases |commits|
  {
    if commits != [] {
      CommitActivityEntries(commits[1..]);
      assert forall k :: 1 <= k < |commits| ==> commits[1..][k - 1] == commits[k];
    }
  }

  /** The first commit whose mapping raises decides the error. */
  lemma {:induction false} CommitActivityFirstFailure(commits: seq<Json>, k: nat)
    requires k < |commits|
    requires forall j :: 0 <= j < k ==> CommitShaped(commits[j])
    requires !CommitShaped(commits[k])
    ensures CommitActivity(commits) == Failure(CommitEntry(commits[k]).error)
    decreases k
  {
    if k > 0 {
      assert CommitShaped(commits[0]);
      assert commits[1..][k - 1] == commits[k];
      CommitActivityFirstFailure(commits[1..], k - 1);
    }
  }

  /** The `metadata` dict built from the repository dict and its `owner` dict. */
  function MetadataFields(repo: map<string, Json>, owner: map<string, Json>): (m: map<string, Json>)
    ensures m.Keys == {"name", "description", "stars", "forks", "open_issues", "owner", "html_url"}
    ensures m["name"] == Lookup(repo, "name", JNull)
    ensures m["description"] == Lookup(repo, "description", JNull)
    ensures m["stars"] == Lookup(repo, "stargazers_count", JNull)
    ensures m["forks"] == Lookup(repo, "forks_count", JNull)
    ensures m["open_issues"] == Lookup(repo, "open_issues_count", JNull)
    ensures m["owner"] == Lookup(owner, "login", JNull)
    ensures m["html_url"] == Lookup(repo, "html_url", JNull)
  {
    map[
      "name" := Lookup(repo, "name", JNull),
      "description" := Lookup(repo, "description", JNull),
      "stars" := Lookup(repo, "stargazers_count", JNull),
      "forks" := Lookup(repo, "forks_count", JNull),
      "open_issues" := Lookup(repo, "open_issues_count", JNull),
      "owner" := Lookup(owner, "login", JNull),
      "html_url" := Lookup(repo, "html_url", JNull)]
  }

  /** The `metadata` object of the reply, or the AttributeError its construction raises. */
  function Metadata(repo: Json): (r: Result<Json, string>)
    ensures r.Success? <==> repo.JObj? && Lookup(repo.fields, "owner", EmptyObject).JObj?
    ensures r.Success? ==> r == Success(JObj(MetadataFields(repo.fields, Lookup(repo.fields, "owner", EmptyObject).fields)))
    ensures r.Failure? ==> r.error == NoGetMessage(if repo.JObj? then Lookup(repo.fields, "owner", EmptyObject) else repo)
  {
    match repo
    case JObj(fields) =>
      var ownerInfo := Lookup(fields, "owner", EmptyObject);
      (match ownerInfo
       case JObj(ownerFields) => Success(JObj(MetadataFields(fields, ownerFields)))
       case _ => Failure(NoGetMessage(ownerInfo)))
    case _ => Failure(NoGetMessage(repo))
  }

  /** What the GitHub API gave back: repository data, every contributor page, every commit page. */
  datatype Fetched = Fetched(repoData: Json, contributors: seq<Json>, commits: seq<Json>)

  /** The GitHub API, queried by owner and repository; a failure is `str(e)` of what it raised. */
  type GitHub = (string, string) -> Result<Fetched, string>

  /**
   * The route's reply: a JSON body with a status, or an exception that escaped the
   * route (Flask then answers 500 with its own HTML page).
   */
  datatype Reply = JsonReply(status: nat, body: Json) | InternalError

  /** The body of a successful reply. */
  function SuccessBody(metadata: Json, contributors: seq<Json>, entries: seq<Json>): (body: Json)
    ensures body.JObj? && body.fields.Keys == {"metadata", "contributors", "commit_activity"}
    ensures body.fields["commit_activity"] == JArr(entries) && body.fields["contributors"] == JArr(contributors)
  {
    JObj(map[
      "metadata" := metadata,
      "contributors" := JArr(contributors),
      "commit_activity" := JArr(entries)])
  }

  /** The reply once owner and repository are known (the `try` block). */
  function Proceed(fetched: Result<Fetched, string>): (r: Reply)
    ensures r.JsonReply? && r.status in {200, 500} && r.body.JObj?
    ensures r.status == 500 <==> fetched.Failure?
                                 || CommitActivity(fetched.value.commits).Failure?
                                 || Metadata(fetched.value.repoData).Failure?
    ensures r.status == 500 ==> r.body.JObj? && r.body.fields.Keys == {"error"}
    ensures fetched.Failure? ==> r == JsonReply(500, ErrorBody(fetched.error))
    ensures fetched.Success? && CommitActivity(fetched.value.commits).Failure?
            ==> r == JsonReply(500, ErrorBody(CommitActivity(fetched.value.commits).error))
    ensures fetched.Success? && CommitActivity(fetched.value.commits).Success?
            && Metadata(fetched.value.repoData).Failure?
            ==> r == JsonReply(500, ErrorBody(Metadata(fetched.value.repoData).error))
  {
    match fetched
    case Failure(e) => JsonReply(500, ErrorBody(e))
    case Success(f) =>
      match CommitActivity(f.commits)
      case Failure(e) => JsonReply(500, ErrorBody(e))
      case Success(entries) =>
        match Metadata(f.repoData)
        case Failure(e) => JsonReply(500, ErrorBody(e))
        case Success(metadata) => JsonReply(200, SuccessBody(metadata, f.contributors, entries))
  }

  /** The reply to a request whose `url` is the string `url`. */
  function RespondToUrl(url: string, github: GitHub): (r: Reply)
    ensures r.JsonReply? && r.body.JObj?
    ensures r.status == 400 <==> !IsValidGithubUrl(url)
    ensures r.status == 400 ==> r.body == ErrorBody(InvalidUrlMessage)
  {
    if url == "" || !IsValidGithubUrl(url) then JsonReply(400, ErrorBody(InvalidUrlMessage))
    else
      ExtractValid(url);
      var (owner, repo) := ExtractOwnerRepo(url).value;
      Proceed(github(owner, repo))
  }

  /** The reply to a request whose `url` is the string `url`, with the URL check exactly as written. */
  function RespondToUrlAsWritten(url: string, github: GitHub): (r: Reply)
    ensures r.JsonReply?
    ensures r.status == 400 <==> !MatchesUrlPattern(url)
    ensures r.status == 400 ==> r.body == ErrorBody(InvalidUrlMessage)
  {
    if url == "" || !MatchesUrlPattern(url) then JsonReply(400, ErrorBody(InvalidUrlMessage))
    else
      AsWrittenExtracts(url);
      var (owner, repo) := ExtractOwnerRepo(url).value;
      Proceed(github(owner, repo))
  }

  /** Wherever the two URL checks agree, so do the two replies. */
  lemma RoutesAgree(url: string, github: GitHub)
    requires MatchesUrlPattern(url) <==> IsValidGithubUrl(url)
    ensures RespondToUrlAsWritten(url, github) == RespondToUrl(url, github)
  {
  }

  /**
   * A well-formed URL ending in `/` and followed by a newline is sent to GitHub as
   * written, about the repository segment as owner and the newline as repository;
   * the corrected route rejects it.
   */
  lemma AsWrittenRouteAsksAboutNewline(u: RepoUrl, github: GitHub)
    requires WellFormed(u) && u.trailingSlash
    ensures RespondToUrlAsWritten(Render(u) + "\n", github) == Proceed(github(u.repo, "\n"))
    ensures RespondToUrl(Render(u) + "\n", github) == JsonReply(400, ErrorBody(InvalidUrlMessage))
  {
    SlashNewlineAsWrittenOnly(u);
    SlashNewlineExtracted(u);
  }

  /** The reply of `analyze_repo` to the JSON body of the request. */
  function Respond(request: Json, github: GitHub): (r: Reply)
    ensures r.JsonReply? ==> r.body.JObj?
    ensures request.JObj? && "url" in request.fields && request.fields["url"].JStr?
            ==> r == RespondToUrl(request.fields["url"].s, github)
    ensures request.JObj? && "url" !in request.fields ==> r == JsonReply(400, ErrorBody(InvalidUrlMessage))
    ensures request.JObj? && "url" in request.fields && !PyTruthy(request.fields["url"])
            ==> r == JsonReply(400, ErrorBody(InvalidUrlMessage))
    ensures (request.JObj? && "url" in request.fields && PyTruthy(request.fields["url"])
             && !request.fields["url"].JStr?) ==> r == InternalError
    ensures !request.JObj? ==> r == InternalError
  {
    match PyGet(request, "url", JStr(""))
    case Failure(_) => InternalError
    case Success(url) =>
      if !PyTruthy(url) then JsonReply(400, ErrorBody(InvalidUrlMessage))
      else if !url.JStr? then InternalError
      else RespondToUrl(url.s, github)
  }

  /** The `for commit in commits_data` loop that appends one entry per commit. */
  method BuildCommitActivity(commits: seq<Json>) returns (r: Result<seq<Json>, string>)
    ensures r == CommitActivity(commits)
  {
    var commitActivity: seq<Json> := [];
    var i := 0;
    assert commits[0..] == commits;
    PrependToEmpty(CommitActivity(commits));
    while i < |commits|
      invariant 0 <= i <= |commits|
      invariant CommitActivity(commits) == PrependTo(commitActivity, CommitActivity(commits[i..]))
    {
      assert commits[i..][1..] == commits[i + 1..];
      var entry := CommitEntry(commits[i]);
      if entry.Failure? {
        return Failure(entry.error);
      }
      PrependToAssoc(commitActivity, entry.value, CommitActivity(commits[i + 1..]));
      commitActivity := commitActivity + [entry.value];
      i := i + 1;
    }
    assert commitActivity + [] == commitActivity;
    return Success(commitActivity);
  }

  /** `analyze_repo` once `url` is known to be a non-empty string: validate, ask GitHub, map the commits. */
  method AnalyzeUrl(url: string, github: GitHub) returns (reply: Reply)
    requires url != ""
    ensures reply == RespondToUrl(url, github)
  {
    if !IsValidGithubUrl(url) {
      return JsonReply(400, ErrorBody(InvalidUrlMessage));
    }
    ExtractValid(url);
    var (owner, repo) := ExtractOwnerRepo(url).value;
    var fetched := github(owner, repo);
    if fetched.Failure? {
      return JsonReply(500, ErrorBody(fetched.error));
    }
    var activity := BuildCommitActivity(fetched.value.commits);
    if activity.Failure? {
      return JsonReply(500, ErrorBody(activity.error));
    }
    var metadata := Metadata(fetched.value.repoData);
    if metadata.Failure? {
      return JsonReply(500, ErrorBody(metadata.error));
    }
    reply := JsonReply(200, SuccessBody(metadata.value, fetched.value.contributors, activity.value));
  }

  /** `analyze_repo`: reads `url` from the request body (default `''`) and rejects a falsy one. */
  method AnalyzeRepo(request: Json, github: GitHub) returns (reply: Reply)
    ensures reply == Respond(request, github)
  {
    var field := PyGet(request, "url", JStr(""));
    if field.Failure? {
      return InternalError;
    }
    var url := field.value;
    if !PyTruthy(url) {
      return JsonReply(400, ErrorBody(InvalidUrlMessage));
    }
    if !url.JStr? {
      return InternalError;
    }
    reply := AnalyzeUrl(url.s, github);
  }

  /** An empty or rejected URL gets the 400 reply, and GitHub is never asked. */
  lemma InvalidUrlRejected(url: string, github: GitHub, other: GitHub)
    requires url == "" || !IsValidGithubUrl(url)
    ensures RespondToUrl(url, github) == JsonReply(400, ErrorBody(InvalidUrlMessage))
    ensures RespondToUrl(url, github) == RespondToUrl(url, other)
  {
  }

  /** An accepted URL asks GitHub about exactly its own two path segments. */
  lemma ValidUrlQueriesItsSegments(u: RepoUrl, github: GitHub)
    requires WellFormed(u)
    ensures RespondToUrl(Render(u), github) == Proceed(github(u.owner, u.repo))
  {
    RenderedIsValid(u);
    ExtractRendered(u);
  }

  /**
   * A reply built from a successful fetch succeeds exactly when no commit mapping and
   * no metadata lookup raises, and then carries one mapped entry per fetched commit, in order.
   */
  lemma ProceedListsEveryCommit(f: Fetched)
    ensures Proceed(Success(f)).status == 200
            <==> (forall k :: 0 <= k < |f.commits| ==> CommitShaped(f.commits[k])) && Metadata(f.repoData).Success?
    ensures Proceed(Success(f)).status == 200 ==>
      var entries := CommitActivity(f.commits).value;
      Proceed(Success(f)).body == SuccessBody(Metadata(f.repoData).value, f.contributors, entries)
      && |entries| == |f.commits|
      && forall k :: 0 <= k < |f.commits| ==> entries[k] == CommitEntry(f.commits[k]).value
  {
    CommitActivityEntries(f.commits);
  }
}
