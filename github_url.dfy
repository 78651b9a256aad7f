/**
 * Validation of a GitHub repository URL and extraction of its owner and
 * repository name, as the backend's `/api/repo` route does before calling the
 * GitHub API. The regular expression `^https?://github\.com/[^/]+/[^/]+/?$`
 * is written out as a predicate over characters.
 */
module GithubUrl {
  import opened Wrappers
  import opened PyStrings

  const HttpsPrefix: string := "https://github.com/"
  const HttpPrefix: string := "http://github.com/"

  /** The parts of an accepted URL: scheme, the two path segments, and an optional final `/`. */
  datatype RepoUrl = RepoUrl(secure: bool, owner: string, repo: string, trailingSlash: bool)

  /** What `[^/]+` matches. */
  predicate IsSegment(s: string)
  {
    |s| > 0 && '/' !in s
  }

  predicate WellFormed(u: RepoUrl)
  {
    IsSegment(u.owner) && IsSegment(u.repo)
  }

  /** The URL text that `u` describes. */
  function Render(u: RepoUrl): string
  {
    (if u.secure then HttpsPrefix else HttpPrefix) + u.owner + "/" + u.repo
      + (if u.trailingSlash then "/" else "")
  }

  /** Position of the first `c` in `s`, or `|s|` when there is none. */
  function IndexOf(s: string, c: char): (i: nat)
    ensures i <= |s|
    ensures forall k :: 0 <= k < i ==> s[k] != c
    ensures i < |s| ==> s[i] == c
  {
    if s == [] || s[0] == c then 0 else 1 + IndexOf(s[1..], c)
  }

  /** The tail of the pattern after `github.com/`: `[^/]+/[^/]+/?` up to the end of the text. */
  predicate IsRepoPath(p: string)
  {
    var i := IndexOf(p, '/');
    0 < i < |p| &&
    var rest := p[i + 1..];
    var j := IndexOf(rest, '/');
    0 < j && (j == |rest| || j == |rest| - 1)
  }

  /**
   * The URL check with the end anchor meaning "end of text"
   * (`re.fullmatch`, or `\Z` in place of `$`).
   */
  predicate IsValidGithubUrl(url: string)
  {
    (HttpsPrefix <= url && IsRepoPath(url[|HttpsPrefix|..]))
    || (HttpPrefix <= url && IsRepoPath(url[|HttpPrefix|..]))
  }

  /**
   * The URL check as written: with `re.match` and no MULTILINE flag, Python's `$`
   * matches at the end of the text and also just before a newline that ends it.
   */
  predicate MatchesUrlPattern(url: string)
  {
    IsValidGithubUrl(url)
    || (|url| > 0 && url[|url| - 1] == '\n' && IsValidGithubUrl(url[..|url| - 1]))
  }

  /** `parts = url.rstrip('/').split('/')` followed by `parts[-2], parts[-1]`; None is the IndexError. */
  function ExtractOwnerRepo(url: string): (r: Option<(string, string)>)
    ensures r.Some? ==> '/' !in r.value.0 && '/' !in r.value.1
  {
    var parts := Split(RStrip(url, '/'), '/');
    if |parts| >= 2 then Some((parts[|parts| - 2], parts[|parts| - 1])) else None
  }

  lemma IndexOfIs(s: string, c: char, n: nat)
    requires n <= |s|
    requires forall k :: 0 <= k < n ==> s[k] != c
    requires n < |s| ==> s[n] == c
    ensures IndexOf(s, c) == n
  {
  }

  /** The text after the host splits into two segments and an optional final `/`. */
  lemma RepoPathParts(p: string)
    requires IsRepoPath(p)
    ensures var i := IndexOf(p, '/');
      var rest := p[i + 1..];
      var j := IndexOf(rest, '/');
      IsSegment(p[..i]) && IsSegment(rest[..j])
      && p == p[..i] + "/" + rest[..j] + (if j < |rest| then "/" else "")
  {
    var i := IndexOf(p, '/');
    var rest := p[i + 1..];
    var j := IndexOf(rest, '/');
    assert rest == rest[..j] + (if j < |rest| then "/" else "");
    assert p == p[..i] + "/" + rest;
  }

  lemma SchemesExclusive(url: string)
    ensures !(HttpsPrefix <= url && HttpPrefix <= url)
  {
    if HttpsPrefix <= url {
      assert url[4] == HttpsPrefix[4] != HttpPrefix[4];
    }
  }

  lemma RenderParts(u: RepoUrl, prefix: string, p: string)
    requires prefix == (if u.secure then HttpsPrefix else HttpPrefix)
    requires p == u.owner + "/" + u.repo + (if u.trailingSlash then "/" else "")
    ensures Render(u) == prefix + p
  {
  }

  /** The parts behind the text `p` that follows the host. */
  function PathUrl(secure: bool, p: string): (u: RepoUrl)
    requires IsRepoPath(p)
    ensures WellFormed(u) && Render(u) == (if secure then HttpsPrefix else HttpPrefix) + p
  {
    RepoPathParts(p);
    var i := IndexOf(p, '/');
    var rest := p[i + 1..];
    var j := IndexOf(rest, '/');
    var u := RepoUrl(secure, p[..i], rest[..j], j < |rest|);
    RenderParts(u, if secure then HttpsPrefix else HttpPrefix, p);
    u
  }

  /** An accepted URL is the rendering of well-formed parts, which this recovers. */
  function Decompose(url: string): (u: RepoUrl)
    requires IsValidGithubUrl(url)
    ensures WellFormed(u) && Render(u) == url
  {
    if HttpsPrefix <= url then
      assert url == HttpsPrefix + url[|HttpsPrefix|..];
      PathUrl(true, url[|HttpsPrefix|..])
    else
      assert url == HttpPrefix + url[|HttpPrefix|..];
      PathUrl(false, url[|HttpPrefix|..])
  }

  /** Two segments and an optional final `/` make up the text the pattern expects after the host. */
  lemma SegmentsFormRepoPath(owner: string, repo: string, tail: string)
    requires IsSegment(owner) && IsSegment(repo)
    requires tail == "" || tail == "/"
    ensures IsRepoPath(owner + "/" + repo + tail)
  {
    var p := owner + "/" + repo + tail;
    IndexOfIs(p, '/', |owner|);
    var rest := p[|owner| + 1..];
    assert rest == repo + tail;
    IndexOfIs(rest, '/', |repo|);
  }

  /** Every well-formed URL passes the check. */
  lemma RenderedIsValid(u: RepoUrl)
    requires WellFormed(u)
    ensures IsValidGithubUrl(Render(u))
  {
    var prefix := if u.secure then HttpsPrefix else HttpPrefix;
    var p := u.owner + "/" + u.repo + (if u.trailingSlash then "/" else "");
    SegmentsFormRepoPath(u.owner, u.repo, if u.trailingSlash then "/" else "");
    RenderParts(u, prefix, p);
    assert Render(u)[|prefix|..] == p;
  }

  /** The check accepts exactly the renderings of well-formed parts. */
  lemma ValidIffRendered(url: string)
    ensures IsValidGithubUrl(url) <==> exists u :: WellFormed(u) && Render(u) == url
  {
    if IsValidGithubUrl(url) {
      var u := Decompose(url);
      assert WellFormed(u) && Render(u) == url;
    }
    forall u | WellFormed(u) && Render(u) == url
      ensures IsValidGithubUrl(url)
    {
      RenderedIsValid(u);
    }
  }

  lemma RStripNoTrailing(s: string, c: char)
    requires |s| > 0 && s[|s| - 1] != c
    ensures RStrip(s, c) == s
  {
  }

  /** Whatever precedes them, the last two `/`-separated pieces are what the route extracts. */
  lemma ExtractLastTwo(pre: string, owner: string, repo: string)
    requires '/' !in owner && '/' !in repo
    requires |repo| > 0 && repo[|repo| - 1] != '/'
    ensures ExtractOwnerRepo(pre + "/" + owner + "/" + repo) == Some((owner, repo))
  {
    var url := pre + "/" + owner + "/" + repo;
    assert url[|url| - 1] == repo[|repo| - 1];
    RStripNoTrailing(url, '/');
    assert url == (pre + "/" + owner) + "/" + repo;
    SplitAround(pre + "/" + owner, '/', repo);
    SplitAround(pre, '/', owner);
    SplitNoSeparator(repo, '/');
    SplitNoSeparator(owner, '/');
  }

  /** `rstrip('/')` removes a single final `/` after a character that is not one. */
  lemma RStripOneSlash(s: string)
    requires |s| > 0 && s[|s| - 1] != '/'
    ensures RStrip(s + "/", '/') == s
  {
    assert (s + "/")[..|s|] == s;
    RStripNoTrailing(s, '/');
  }

  /** The extracted owner and repository are exactly the URL's two path segments. */
  lemma ExtractRendered(u: RepoUrl)
    requires WellFormed(u)
    ensures ExtractOwnerRepo(Render(u)) == Some((u.owner, u.repo))
  {
    var host := if u.secure then "https://github.com" else "http://github.com";
    var core := host + "/" + u.owner + "/" + u.repo;
    ExtractLastTwo(host, u.owner, u.repo);
    if u.trailingSlash {
      assert Render(u) == core + "/";
      assert core[|core| - 1] == u.repo[|u.repo| - 1];
      RStripOneSlash(core);
      RStripNoTrailing(core, '/');
    } else {
      assert Render(u) == core;
    }
  }

  /** For an accepted URL the route asks GitHub about the URL's own owner and repository. */
  lemma ExtractValid(url: string)
    requires IsValidGithubUrl(url)
    ensures var u := Decompose(url);
      ExtractOwnerRepo(url) == Some((u.owner, u.repo)) && IsSegment(u.owner) && IsSegment(u.repo)
  {
    ExtractRendered(Decompose(url));
  }

  /** With or without the final `/`, a URL names the same owner and repository. */
  lemma TrailingSlashIrrelevant(u: RepoUrl)
    requires WellFormed(u)
    ensures IsValidGithubUrl(Render(u.(trailingSlash := true)))
    ensures IsValidGithubUrl(Render(u.(trailingSlash := false)))
    ensures ExtractOwnerRepo(Render(u.(trailingSlash := true)))
         == ExtractOwnerRepo(Render(u.(trailingSlash := false)))
  {
    RenderedIsValid(u.(trailingSlash := true));
    RenderedIsValid(u.(trailingSlash := false));
    ExtractRendered(u.(trailingSlash := true));
    ExtractRendered(u.(trailingSlash := false));
  }

  /** Without a final newline the two readings of the end anchor agree. */
  lemma PatternsAgreeWithoutNewline(url: string)
    requires url == [] || url[|url| - 1] != '\n'
    ensures MatchesUrlPattern(url) <==> IsValidGithubUrl(url)
  {
  }

  /** A well-formed URL ending in `/`, followed by a newline, fails the strict check. */
  lemma SlashNewlineRejected(u: RepoUrl)
    requires WellFormed(u) && u.trailingSlash
    ensures !IsValidGithubUrl(Render(u) + "\n")
  {
    var url := Render(u) + "\n";
    var prefix := if u.secure then HttpsPrefix else HttpPrefix;
    var p := u.owner + "/" + u.repo + "/\n";
    RenderParts(u, prefix, u.owner + "/" + u.repo + "/");
    assert url == prefix + p;
    assert url[|prefix|..] == p;
    SchemesExclusive(url);
    IndexOfIs(p, '/', |u.owner|);
    var rest := p[|u.owner| + 1..];
    assert rest == u.repo + "/\n";
    IndexOfIs(rest, '/', |u.repo|);
  }

  /** Appending a newline to a URL without a final `/` appends it to the repository segment. */
  lemma NewlineJoinsRepo(u: RepoUrl)
    requires !u.trailingSlash
    ensures Render(u.(repo := u.repo + "\n")) == Render(u) + "\n"
  {
    var prefix := if u.secure then HttpsPrefix else HttpPrefix;
    RenderParts(u, prefix, u.owner + "/" + u.repo);
    RenderParts(u.(repo := u.repo + "\n"), prefix, u.owner + "/" + u.repo + "\n");
  }

  /** A URL that only the as-written check accepts is a well-formed URL ending in `/`, plus a newline. */
  lemma AsWrittenExtraIsSlashNewline(url: string) returns (u: RepoUrl)
    requires MatchesUrlPattern(url) && !IsValidGithubUrl(url)
    ensures WellFormed(u) && u.trailingSlash && Render(u) + "\n" == url
  {
    var line := url[..|url| - 1];
    assert url == line + "\n";
    u := Decompose(line);
    if !u.trailingSlash {
      NewlineJoinsRepo(u);
      RenderedIsValid(u.(repo := u.repo + "\n"));
      assert false;
    }
  }

  /** Such a URL is accepted by the as-written check only. */
  lemma SlashNewlineAsWrittenOnly(u: RepoUrl)
    requires WellFormed(u) && u.trailingSlash
    ensures MatchesUrlPattern(Render(u) + "\n") && !IsValidGithubUrl(Render(u) + "\n")
  {
    var url := Render(u) + "\n";
    RenderedIsValid(u);
    assert url[..|url| - 1] == Render(u);
    SlashNewlineRejected(u);
  }

  /**
   * The URLs that only the as-written check accepts are exactly the well-formed
   * URLs ending in `/` followed by a newline (`[^/]+` already matches a newline
   * at the end of the repository segment).
   */
  lemma AsWrittenOnlyExtra(url: string)
    ensures MatchesUrlPattern(url) && !IsValidGithubUrl(url)
            <==> exists u :: WellFormed(u) && u.trailingSlash && Render(u) + "\n" == url
  {
    if MatchesUrlPattern(url) && !IsValidGithubUrl(url) {
      var u := AsWrittenExtraIsSlashNewline(url);
    }
    forall u | WellFormed(u) && u.trailingSlash && Render(u) + "\n" == url
      ensures MatchesUrlPattern(url) && !IsValidGithubUrl(url)
    {
      SlashNewlineAsWrittenOnly(u);
    }
  }

  /** For those URLs the extraction names the repository as owner and the newline as repository. */
  lemma SlashNewlineExtracted(u: RepoUrl)
    requires WellFormed(u) && u.trailingSlash
    ensures ExtractOwnerRepo(Render(u) + "\n") == Some((u.repo, "\n"))
  {
    var host := if u.secure then "https://github.com" else "http://github.com";
    assert Render(u) + "\n" == (host + "/" + u.owner) + "/" + u.repo + "/" + "\n";
    ExtractLastTwo(host + "/" + u.owner, u.repo, "\n");
  }

  /** Every URL the as-written check accepts has two parts to extract. */
  lemma AsWrittenExtracts(url: string)
    requires MatchesUrlPattern(url)
    ensures ExtractOwnerRepo(url).Some?
  {
    if IsValidGithubUrl(url) {
      ExtractValid(url);
    } else {
      var u := AsWrittenExtraIsSlashNewline(url);
      SlashNewlineExtracted(u);
    }
  }

  /** The newline-terminated URL of the counterexample below. */
  const NewlineUrl: string := "https://github.com/a/b/\n"

  lemma NewlineUrlRejected()
    ensures !IsValidGithubUrl(NewlineUrl)
  {
    SchemesExclusive(NewlineUrl);
    var p := NewlineUrl[|HttpsPrefix|..];
    assert p == "a/b/\n";
    IndexOfIs(p, '/', 1);
    assert p[2..] == "b/\n";
    IndexOfIs(p[2..], '/', 1);
  }

  lemma NewlineUrlExtracted()
    ensures ExtractOwnerRepo(NewlineUrl) == Some(("b", "\n"))
  {
    assert NewlineUrl == "https://github.com/a" + "/" + "b" + "/" + "\n";
    ExtractLastTwo("https://github.com/a", "b", "\n");
  }

  /**
   * The pattern as written accepts a URL whose final `/` is followed by a newline,
   * which the strict check rejects, and the extraction then names the repository
   * as the owner and the newline as the repository.
   */
  lemma AsWrittenAcceptsTrailingNewline()
    ensures MatchesUrlPattern(NewlineUrl)
    ensures !IsValidGithubUrl(NewlineUrl)
    ensures ExtractOwnerRepo(NewlineUrl) == Some(("b", "\n"))
  {
    var u := RepoUrl(true, "a", "b", true);
    RenderedIsValid(u);
    assert NewlineUrl[..|NewlineUrl| - 1] == Render(u);
    NewlineUrlRejected();
    NewlineUrlExtracted();
  }
}
