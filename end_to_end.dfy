/**
 * One analysis from the button to the stored state: the frontend posts `{url}`,
 * the backend route replies, and `handleAnalyze` stores the outcome.
 */
module EndToEnd {
  import opened Wrappers
  import opened JsonValue
  import opened JsValues
  import opened GithubUrl
  import Backend
  import Analyzer
  import CommitTrend

  /**
   * What the frontend's `fetch` makes of a backend reply: `response.json()` decodes
   * a JSON body whatever its status; Flask's HTML error page does not decode.
   */
  function Deliver(reply: Backend.Reply): (delivered: Analyzer.ServerReply)
    ensures delivered.Received? <==> reply.JsonReply?
    ensures delivered.Received? ==> delivered.data == reply.body
  {
    match reply
    case JsonReply(_, body) => Analyzer.Received(body)
    case InternalError => Analyzer.Unreachable
  }

  /** The stored outcome of analysing `url` against `github`. */
  function Submit(url: string, github: Backend.GitHub): (o: Analyzer.Outcome)
    ensures JsTruthy(Some(o.error)) <==> o.repoData.None?
    ensures o.repoData.Some? ==> o.repoData.value.JObj? && !JsTruthy(Prop(o.repoData.value, "error"))
  {
    Analyzer.AnalyzeOutcome(Deliver(Backend.Respond(JObj(map["url" := JStr(url)]), github)))
  }

  /** A rejected URL ends with the backend's message shown as the error, and no data. */
  lemma InvalidUrlShownAsError(url: string, github: Backend.GitHub)
    requires !IsValidGithubUrl(url)
    ensures Submit(url, github) == Analyzer.Outcome(JStr(Backend.InvalidUrlMessage), None)
  {
    var body := ErrorBody(Backend.InvalidUrlMessage);
    assert Backend.Respond(JObj(map["url" := JStr(url)]), github) == Backend.JsonReply(400, body);
    assert Prop(body, "error") == Some(JStr(Backend.InvalidUrlMessage));
  }

  /** An exception raised while asking GitHub reaches the user verbatim, unless its text is empty. */
  lemma GitHubFailureShownAsError(u: RepoUrl, github: Backend.GitHub, message: string)
    requires WellFormed(u)
    requires github(u.owner, u.repo) == Failure(message)
    ensures message != "" ==> Submit(Render(u), github) == Analyzer.Outcome(JStr(message), None)
    ensures message == "" ==> Submit(Render(u), github).repoData == Some(ErrorBody(""))
  {
    RenderedIsValid(u);
    Backend.ValidUrlQueriesItsSegments(u, github);
    assert Backend.Respond(JObj(map["url" := JStr(Render(u))]), github)
        == Backend.JsonReply(500, ErrorBody(message));
    assert Prop(ErrorBody(message), "error") == Some(JStr(message));
  }

  /** Posting an accepted URL gets the reply built from GitHub's answer about its two segments. */
  lemma RequestReachesGitHub(u: RepoUrl, github: Backend.GitHub)
    requires WellFormed(u)
    ensures Backend.Respond(JObj(map["url" := JStr(Render(u))]), github) == Backend.Proceed(github(u.owner, u.repo))
  {
    Backend.ValidUrlQueriesItsSegments(u, github);
    var request := JObj(map["url" := JStr(Render(u))]);
    assert request.fields["url"] == JStr(Render(u));
  }

  /** A success body has no `error` member, so the frontend stores it as the analysis data. */
  lemma SuccessBodyStored(metadata: Json, contributors: seq<Json>, entries: seq<Json>)
    ensures var body := Backend.SuccessBody(metadata, contributors, entries);
      Analyzer.AnalyzeOutcome(Analyzer.Received(body)) == Analyzer.Outcome(JStr(""), Some(body))
  {
    var body := Backend.SuccessBody(metadata, contributors, entries);
    assert "error" !in body.fields;
  }

  /** When GitHub answers and every commit maps, the reply body is stored as the analysis data. */
  lemma SuccessfulAnalysisStored(u: RepoUrl, github: Backend.GitHub, f: Backend.Fetched)
    requires WellFormed(u)
    requires github(u.owner, u.repo) == Success(f)
    requires forall k :: 0 <= k < |f.commits| ==> Backend.CommitShaped(f.commits[k])
    requires Backend.Metadata(f.repoData).Success?
    ensures Backend.CommitActivity(f.commits).Success?
    ensures Submit(Render(u), github) == Analyzer.Outcome(JStr(""), Some(Backend.SuccessBody(
              Backend.Metadata(f.repoData).value, f.contributors, Backend.CommitActivity(f.commits).value)))
  {
    RequestReachesGitHub(u, github);
    Backend.ProceedListsEveryCommit(f);
    SuccessBodyStored(Backend.Metadata(f.repoData).value, f.contributors, Backend.CommitActivity(f.commits).value);
  }

  /**
   * When GitHub answers and every commit maps, the analysis data is stored with no
   * error, and the commit trend has one point per received commit, up to 30.
   */
  lemma SuccessfulAnalysisPlotsCommits(u: RepoUrl, github: Backend.GitHub, f: Backend.Fetched)
    requires WellFormed(u)
    requires github(u.owner, u.repo) == Success(f)
    requires forall k :: 0 <= k < |f.commits| ==> Backend.CommitShaped(f.commits[k])
    requires Backend.Metadata(f.repoData).Success?
    ensures var o := Submit(Render(u), github);
      o.error == JStr("") && o.repoData.Some?
      && CommitTrend.CumulativeCommits(o.repoData).Success?
      && |CommitTrend.CumulativeCommits(o.repoData).value| == Min(|f.commits|, CommitTrend.SeriesLimit)
  {
    SuccessfulAnalysisStored(u, github, f);
    Backend.CommitActivityEntries(f.commits);
    var entries := Backend.CommitActivity(f.commits).value;
    var body := Backend.SuccessBody(Backend.Metadata(f.repoData).value, f.contributors, entries);
    assert CommitTrend.HasActivity(Some(body), entries);
    forall k | 0 <= k < |entries| ensures entries[k] != JNull {
      assert entries[k] == Backend.CommitEntry(f.commits[k]).value;
    }
    CommitTrend.SeriesPoints(Some(body), entries);
  }
}
