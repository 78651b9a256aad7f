# GitHub repository analyzer — verified model of its core logic

The repository is a small web application. A React page (`RepoAnalyzer`) posts a
GitHub repository URL to a Flask route (`/api/repo`). The route checks the URL
against a regular expression, splits it into owner and repository, asks the
GitHub API for the repository, its contributors and its commits, and maps every
commit to a small record. The page stores either the reply or an error message.
It then shows a cumulative commit trend for the 30 newest commits, the top ten
contributors, and a cycling status message while the request is pending.

This Dafny project models that logic:

- `wrappers.dfy`: `Option` and `Result`, plus `PrependTo`. `PrependTo` ties a loop
  that appends to a list to the recursive function specifying it.
- `json_value.dfy`: JSON values as exchanged between backend and frontend, and the
  `{"error": …}` body.
- `py_strings.dfy`: Python's `str.rstrip(c)` and `str.split(sep)` for a
  one-character separator.
- `github_url.dfy`: the URL pattern written out as a predicate over characters,
  its decomposition into scheme, owner, repository and optional final `/`, and
  the owner/repo extraction.
- `backend.dfy`: `github_headers`, the commit-mapping loop, the repository
  metadata, and the whole `analyze_repo` reply. GitHub is a function parameter.
- `decimal.dfy`: how JavaScript renders a positive integer in the `#k` labels.
- `js_values.dfy`: JavaScript truthiness, property reads and `x || 'Unknown'`.
- `commit_trend.dfy`: the cumulative commit series, as a specification function
  and as the imperative `map` with its running `total`, plus the top-ten slice.
- `analyzer.dfy`: the component's state as a class. This covers the status-message
  ticker and `handleAnalyze`.
- `end_to_end.dfy`: a backend reply delivered to `handleAnalyze`.

Python's `.get` on a value that is not a dict raises `AttributeError`. JavaScript
throws when reading a property of `null`. The model keeps both failure paths:
`Result` values in the backend, and `TypeError` in the frontend.

## Model

| member | source | states |
|---|---|---|
| JsonValue.ErrorBody | backend/app.py:92-93 | the error reply is an object whose only member is `error`, holding the message |
| Backend.GithubHeaders | backend/app.py:15-19 | `Accept` is always `application/vnd.github+json`; `Authorization` is present exactly when the token is set and non-empty, and is then `token ` followed by it; no other header |
| GithubUrl.IsValidGithubUrl | backend/app.py:21-22 | the corrected check: the anchored pattern `^https?://github\.com/[^/]+/[^/]+/?$` with its end anchor read as end of text |
| GithubUrl.Decompose | backend/app.py:21-22 | every accepted URL is the rendering of a scheme, two non-empty segments without `/`, and an optional final `/` |
| GithubUrl.RenderedIsValid | backend/app.py:21-22 | every such rendering is accepted |
| GithubUrl.ValidIffRendered | backend/app.py:21-22 | a URL is accepted if and only if it is such a rendering |
| GithubUrl.MatchesUrlPattern | backend/app.py:21-22 | the check as written with `re.match` and `$`, which also matches before a final newline |
| GithubUrl.AsWrittenAcceptsTrailingNewline | backend/app.py:21-22 | the as-written check accepts `https://github.com/a/b/` followed by a newline; the strict check rejects it; extraction then gives owner `b` and repository `\n` |
| GithubUrl.PatternsAgreeWithoutNewline | backend/app.py:21-22 | on a URL that does not end in a newline the as-written and the corrected check agree |
| GithubUrl.SlashNewlineRejected | backend/app.py:21-22 | a well-formed URL ending in `/` followed by a newline fails the corrected check |
| GithubUrl.AsWrittenExtraIsSlashNewline | backend/app.py:21-22 | a URL accepted only by the as-written check is a well-formed URL ending in `/`, plus a newline |
| GithubUrl.SlashNewlineAsWrittenOnly | backend/app.py:21-22 | every such URL is accepted by the as-written check and rejected by the corrected one |
| GithubUrl.AsWrittenOnlyExtra | backend/app.py:21-22 | the URLs on which the two checks differ are exactly the well-formed URLs ending in `/` followed by a newline; `[^/]+` already matches a newline at the end of the repository segment |
| GithubUrl.SlashNewlineExtracted | backend/app.py:53-54 | for those URLs the extraction gives the repository segment as owner and the newline as repository |
| GithubUrl.AsWrittenExtracts | backend/app.py:49-54 | every URL the as-written check accepts has two parts to extract, so line 54 does not raise |
| GithubUrl.ExtractOwnerRepo | backend/app.py:53-54 | `rstrip('/')`, `split('/')` and the last two parts; the parts contain no `/`; `None` is the IndexError of fewer than two parts |
| GithubUrl.ExtractRendered | backend/app.py:53-54 | for a well-formed URL the extracted owner and repository are exactly its two segments |
| GithubUrl.ExtractValid | backend/app.py:49-54 | for every accepted URL extraction succeeds with the URL's own two segments, both non-empty and free of `/` |
| GithubUrl.TrailingSlashIrrelevant | backend/app.py:53-54 | a URL with and without its final `/` is accepted either way and yields the same owner and repository |
| GithubUrl.ExtractLastTwo | backend/app.py:53-54 | whatever precedes them, the last two `/`-separated pieces are what is extracted |
| PyStrings.RStrip | backend/app.py:53 | the result is a prefix, does not end in the character, and only that character was removed |
| PyStrings.Split | backend/app.py:53 | at least one piece, and no piece contains the separator |
| PyStrings.SplitAround | backend/app.py:53 | splitting `a + sep + b` gives the pieces of `a` followed by the pieces of `b` |
| PyStrings.SplitNoSeparator | backend/app.py:53 | a string without the separator splits into itself |
| Backend.RespondToUrl | backend/app.py:49-93 | the route with the corrected check: the reply is always JSON; its status is 400 exactly when the corrected check rejects the URL, with body `{"error": "Invalid GitHub repo URL."}` |
| Backend.RespondToUrlAsWritten | backend/app.py:49-93 | the route with the check as written: the reply is always JSON; its status is 400 exactly when the as-written check rejects the URL, with the same body |
| Backend.RoutesAgree | backend/app.py:49-93 | wherever the two checks agree, the two routes give the same reply |
| Backend.AsWrittenRouteAsksAboutNewline | backend/app.py:49-60 | a well-formed URL ending in `/` plus a newline makes the route as written ask GitHub about the repository segment as owner and `\n` as repository; the corrected route answers 400 |
| Backend.InvalidUrlRejected | backend/app.py:49-50 | with the corrected check, an empty or rejected URL gets the 400 reply whatever GitHub would answer, so GitHub is not consulted |
| Backend.Respond | backend/app.py:46-50 | a string `url` member is answered as that URL; a missing or falsy `url` (default `''`; null, false, 0, empty list or dict) gets the 400 reply; a truthy `url` that is not a string, or a body that is not an object, raises |
| Backend.PyTruthy | backend/app.py:49 | Python truthiness of a JSON value: JavaScript's, except that an empty list or dict is false |
| Backend.PyGet | backend/app.py:47 | `d.get(key, default)`: the member, or the default when it is missing; on a value that is not a dict, the AttributeError text |
| Backend.AnalyzeRepo | backend/app.py:44-93 | the route computed step by step equals `Respond` |
| Backend.AnalyzeUrl | backend/app.py:49-93 | the steps after reading `url` equal `RespondToUrl` |
| Backend.ValidUrlQueriesItsSegments | backend/app.py:53-60 | an accepted URL leads to GitHub being asked about exactly its own two segments |
| Backend.CommitEntry | backend/app.py:70-76 | one commit's record: it exists exactly when every `.get` is applied to a dict; it has keys `sha`, `author`, `date`, `message`; `sha`, `date` and `message` are copied; the author is the commit author's `name`, or `Unknown` when that key is absent; otherwise the error is the AttributeError text |
| Backend.CommitActivity | backend/app.py:68-76 | the list built from the commits, or the first error; when built it has one entry per commit |
| Backend.CommitActivityEntries | backend/app.py:68-76 | the list succeeds exactly when every commit maps, and then has one entry per commit, in order |
| Backend.CommitActivityFirstFailure | backend/app.py:68-76 | otherwise the error is the one raised by the first commit that cannot be mapped |
| Backend.BuildCommitActivity | backend/app.py:68-76 | the `for` loop that appends entries computes `CommitActivity` |
| Backend.MetadataFields | backend/app.py:79-87 | exactly the seven keys; `name`, `description` and `html_url` copied, `stargazers_count` as `stars`, `forks_count` as `forks`, `open_issues_count` as `open_issues`, and the owner's `login` as `owner`, each `None` when missing |
| Backend.Metadata | backend/app.py:78-87 | the metadata object exists exactly when the repository data and its `owner` (default `{}`) are dicts, and is then `MetadataFields` of the two; otherwise the AttributeError text of the value that is not a dict |
| Backend.Proceed | backend/app.py:56-93 | the status is 200 or 500, and 500 exactly when GitHub, the commit mapping or the metadata raises; the 500 body holds only `error`, which is the text of the first of these to raise, in that order |
| Backend.SuccessBody | backend/app.py:78-90 | the success reply is an object with exactly `metadata`, `contributors` and `commit_activity`, the last two holding the fetched contributors and the mapped entries |
| Backend.ProceedListsEveryCommit | backend/app.py:56-93 | a successful fetch gives status 200 exactly when all commits map and the metadata exists; the body then lists one mapped entry per commit, in order |
| Decimal.NatToString | ui/src/components/RepoAnalyzer.js:50 | a non-empty string of decimal digits without a leading zero |
| Decimal.ParseNatToString | ui/src/components/RepoAnalyzer.js:50 | reading the digits back gives the number |
| Decimal.NatToStringInjective | ui/src/components/RepoAnalyzer.js:50 | different numbers get different labels |
| JsValues.JsTruthy | ui/src/components/RepoAnalyzer.js:44-70 | JavaScript truthiness as used by `repoData && repoData.commit_activity`, `commit.author \|\| 'Unknown'` and `if (data.error)`: `undefined` and `null` are falsy, and arrays and objects are always truthy |
| JsValues.Prop | ui/src/components/RepoAnalyzer.js:44-54 | a property read gives an object's member, and `undefined` for a missing member or a non-object |
| JsValues.OrUnknown | ui/src/components/RepoAnalyzer.js:52 | a truthy value is kept; a falsy one (absent, null, empty string, 0, false) becomes `Unknown` |
| CommitTrend.Slice | ui/src/components/RepoAnalyzer.js:45 | `slice(0, n)` is a prefix of length `min(len, n)` |
| CommitTrend.ReverseAt | ui/src/components/RepoAnalyzer.js:45 | `reverse()` keeps the length and puts element `len - 1 - k` at position `k` |
| CommitTrend.WindowAt | ui/src/components/RepoAnalyzer.js:45 | position `i` of the reversed first 30 records holds record `min(n, 30) - 1 - i` |
| CommitTrend.PointOf | ui/src/components/RepoAnalyzer.js:47-55 | one point: it throws exactly on a null record; otherwise it is labelled `#(idx+1)`, carries the running total, and its author is always truthy |
| CommitTrend.Accumulate | ui/src/components/RepoAnalyzer.js:46-56 | the `map` with its running total; when built it has one point per record |
| CommitTrend.AccumulateAt | ui/src/components/RepoAnalyzer.js:46-56 | the `map` with its running total succeeds exactly when no record is null; point `k` then has position `idx + k` and total `total + k + 1` |
| CommitTrend.CumulativeCommits | ui/src/components/RepoAnalyzer.js:43-57 | the series never has more than 30 points, and is empty without analysis data |
| CommitTrend.SeriesPoints | ui/src/components/RepoAnalyzer.js:43-57 | for `n` records the series has `min(n, 30)` points; point `i` is labelled `#(i+1)`, has total `i + 1`, and takes author (or `Unknown`), date and message from record `min(n, 30) - 1 - i`; it is built exactly when none of those records is null |
| CommitTrend.SeriesEmptyWithoutActivity | ui/src/components/RepoAnalyzer.js:43-44 | no data, or a falsy `commit_activity`, gives the empty series |
| CommitTrend.SeriesNeedsArray | ui/src/components/RepoAnalyzer.js:44-45 | a truthy `commit_activity` that is not an array makes rendering throw |
| CommitTrend.SeriesIncreasing | ui/src/components/RepoAnalyzer.js:46-51 | totals of points `i < j` differ by exactly `j - i`, and their labels differ |
| CommitTrend.SeriesEnds | ui/src/components/RepoAnalyzer.js:45-53 | the first point is the oldest of the first 30 records, the last point is record 0, and its total is `min(n, 30)` |
| CommitTrend.DeriveCumulativeCommits | ui/src/components/RepoAnalyzer.js:43-57 | the imperative `map` that bumps `total` before each point computes `CumulativeCommits` |
| CommitTrend.TopContributors | ui/src/components/RepoAnalyzer.js:291 | a prefix of the contributors, of length `min(len, 10)`, in the order received |
| CommitTrend.TopContributorsCases | ui/src/components/RepoAnalyzer.js:291 | ten or fewer contributors are all shown; otherwise exactly the first ten |
| Analyzer.TickStep | ui/src/components/RepoAnalyzer.js:33-35 | a tick keeps the index among the 5 messages, advances it by at most one, and leaves it unchanged exactly at the last message |
| Analyzer.IndexAfterTicks | ui/src/components/RepoAnalyzer.js:30-35 | the index after `k` ticks from 0 stays among the 5 messages and never exceeds `k` |
| Analyzer.TicksSaturate | ui/src/components/RepoAnalyzer.js:30-35 | after `k` ticks from 0 the index is `min(k, 4)` |
| Analyzer.AnalyzeOutcome | ui/src/components/RepoAnalyzer.js:63-77 | exactly one of error and data is stored; a truthy `data.error` is stored verbatim with no data; any other non-null reply is stored as data with error `''`, and data is stored in no other case; an unreachable server or a null body stores the connection message |
| Analyzer.RepoAnalyzer.constructor | ui/src/components/RepoAnalyzer.js:15-26 | the initial state: empty URL, no data, not loading, empty error, index 0; the index names a message |
| Analyzer.RepoAnalyzer.StatusMessage | ui/src/components/RepoAnalyzer.js:168-170 | the message shown is one of the 5 loading messages |
| Analyzer.RepoAnalyzer.SetUrl | ui/src/components/RepoAnalyzer.js:135 | typing into either URL field (the `onChange` handlers at lines 135 and 242) sets the URL and changes nothing else |
| Analyzer.RepoAnalyzer.LoadingChanged | ui/src/components/RepoAnalyzer.js:29-31 | entering the loading state resets the index to 0; otherwise the index is unchanged; the index keeps naming a message |
| Analyzer.RepoAnalyzer.Tick | ui/src/components/RepoAnalyzer.js:32-36 | one timer firing applies `TickStep` to the index, which keeps naming a message |
| Analyzer.RepoAnalyzer.BeginAnalyze | ui/src/components/RepoAnalyzer.js:60-62 | loading is set, and error and data are cleared |
| Analyzer.RepoAnalyzer.FinishAnalyze | ui/src/components/RepoAnalyzer.js:63-78 | the stored error and data are `AnalyzeOutcome` of the reply, and loading is cleared |
| Analyzer.RepoAnalyzer.HandleAnalyze | ui/src/components/RepoAnalyzer.js:59-79 | after `handleAnalyze` loading is false, and error and data are `AnalyzeOutcome` of the reply |
| EndToEnd.Deliver | ui/src/components/RepoAnalyzer.js:64-69 | `fetch` and `response.json()` deliver the body of every JSON reply, whatever its status; an uncaught backend exception reaches the page as a failed call |
| EndToEnd.Submit | ui/src/components/RepoAnalyzer.js:59-79 | posting `{ url }` and storing the route's reply: exactly one of error and data is stored, and stored data is always an object without a truthy `error` |
| EndToEnd.InvalidUrlShownAsError | backend/app.py:49-50 | with the corrected check, a rejected URL ends with `Invalid GitHub repo URL.` shown and no data |
| EndToEnd.GitHubFailureShownAsError | backend/app.py:92-93 | an exception raised while asking GitHub is shown verbatim; with empty text the error body is stored as data instead |
| EndToEnd.SuccessBodyStored | backend/app.py:78-90 | a success body has no `error` member, so the page stores it as data |
| EndToEnd.RequestReachesGitHub | backend/app.py:46-60 | posting an accepted URL gets the reply built from GitHub's answer about its two segments |
| EndToEnd.SuccessfulAnalysisStored | backend/app.py:68-90 | when GitHub answers and everything maps, the page stores the success body with error `''` |
| EndToEnd.SuccessfulAnalysisPlotsCommits | ui/src/components/RepoAnalyzer.js:43-57 | the stored data then plots one point per received commit, up to 30 |

## Left out

- Network I/O is not modelled: `requests.get`, `safe_get`, `fetch_all_pages` pagination and the page's `fetch`. GitHub's answer is a parameter of type `Backend.GitHub`; it gives repository data, all contributors and all commits, or the text of the exception. The reply reaching the page is a parameter too.
- Flask and framework glue are not modelled: routing, CORS, `jsonify`, dotenv and reading `GITHUB_TOKEN` from the environment. The token is a parameter of `Backend.GithubHeaders`. A `get_json()` that fails or returns `None` is modelled only as a non-object body.
- Backend.Respond: a truthy `url` that is not a string is modelled as an uncaught exception (`InternalError`). The type-specific errors of `re.match` and `rstrip` are not distinguished.
- Backend.RespondToUrl: uses the corrected check `GithubUrl.IsValidGithubUrl` (see Findings), so a well-formed URL ending in `/` plus a newline gets 400 here while the code asks GitHub about it. The route as written is `Backend.RespondToUrlAsWritten`; `Backend.RoutesAgree` and `Backend.AsWrittenRouteAsksAboutNewline` relate the two.
- Backend.InvalidUrlRejected: is stated for the corrected check; under the check as written, the URLs of `GithubUrl.AsWrittenOnlyExtra` are not rejected.
- Backend.Respond: answers through `Backend.RespondToUrl`, so it inherits the corrected check.
- Backend.AnalyzeUrl: computes `Backend.RespondToUrl`, so it inherits the corrected check.
- Backend.AnalyzeRepo: computes `Backend.Respond`, so it inherits the corrected check.
- EndToEnd.InvalidUrlShownAsError: is stated for the corrected check; every end-to-end lemma goes through `Backend.Respond`.
- Analyzer.AnalyzeOutcome: a reply whose body does not decode as JSON and a `fetch` that rejects are both modelled as `Unreachable`. Flask's HTML error page for an uncaught exception is one such case. The timing of the promise is not modelled.
- Timers are not modelled: `setInterval`, `clearInterval` and the `useEffect` scheduling. `Analyzer.RepoAnalyzer.Tick` is one firing and `LoadingChanged` is the effect body. The 1800 ms period and interleavings with React renders are not modelled.
- Rendering is not modelled: JSX, MUI, recharts, and the presentational components `RepoMetadata.js`, `ContributorsChart.js`, `CommitActivity.js` and `App.js`. `RepoForm.js` only trims its input and is not part of this model.
- JSON numbers are integers in this model. Floating-point values are not modelled.
- `CommitTrend.TopContributors` is generic over the contributor type. Reading `.slice` of a `contributors` member that is not an array throws in the page, and this is not modelled.
- The code deduplicates no contributors. It has no request sequence numbers and does not discard stale replies. None of these is modelled, because the code does not do them.

## Findings

| source | as written | input that shows it | evidently intended | confidence | as-written member | corrected member |
|---|---|---|---|---|---|---|
| backend/app.py:21-22 | `re.match` with a pattern ending in `$`; without MULTILINE, `$` also matches just before a newline that ends the text | `"https://github.com/a/b/\n"` is accepted, and lines 53-54 then extract owner `"b"` and repository `"\n"` | accept only URLs that end right after the repository segment or its single `/` (`re.fullmatch` or `\Z`) | not executed | GithubUrl.MatchesUrlPattern, GithubUrl.AsWrittenAcceptsTrailingNewline, GithubUrl.AsWrittenOnlyExtra, Backend.RespondToUrlAsWritten, Backend.AsWrittenRouteAsksAboutNewline | GithubUrl.IsValidGithubUrl, Backend.RespondToUrl |
