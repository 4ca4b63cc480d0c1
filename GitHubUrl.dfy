// Repository URLs of the in-browser clone hook
// (src/hooks/chats/github/use-github.ts) and of its older revision
// (src/hooks/github/use-github.ts): the patterns tried in order, the groups
// they capture, the clone directory and the branch checked out.
//
// Each regular expression is written out as the match it performs. In
// JavaScript `[^\/]` matches any character but `/` (line breaks included),
// `.` any character but a line terminator, and `\s` the white space of
// `IsSpace`; `+?` is lazy and `(?:...)?` greedy, with backtracking.

module GitHubUrl {
  import opened Strings

  /** The groups a pattern captured: owner, repository and, for `/tree/<branch>`, the branch. */
  datatype Groups = Groups(owner: string, repo: string, branch: Option<string>)

  /** `ParsedRepoUrl`: the captured groups, trimmed. */
  datatype ParsedRepoUrl = ParsedRepoUrl(owner: string, repo: string, branch: Option<string>)

  /** The characters `.` does not match. */
  predicate IsLineTerminator(c: char) {
    c == '\n' || c == '\r' || c == '\U{2028}' || c == '\U{2029}'
  }

  predicate NoLineTerminator(s: string) {
    forall i :: 0 <= i < |s| ==> !IsLineTerminator(s[i])
  }

  predicate NoSpace(s: string) {
    forall i :: 0 <= i < |s| ==> !IsSpace(s[i])
  }

  /** The longest prefix without a `/`: what a greedy `[^\/]+` or `[^\/]*` takes. */
  function UpToSlash(s: string): (r: string)
    ensures r <= s && !HasChar(r, '/')
    ensures |r| < |s| ==> s[|r|] == '/'
    ensures !HasChar(s, '/') ==> r == s
  {
    if s == [] || s[0] == '/' then []
    else
      var rest := UpToSlash(s[1..]);
      assert !HasChar(s, '/') ==> !HasChar(s[1..], '/') by {
        if HasChar(s[1..], '/') {
          var k :| 0 <= k < |s[1..]| && s[1..][k] == '/';
          assert s[k + 1] == '/';
        }
      }
      assert forall k :: 0 <= k < |rest| ==> ([s[0]] + rest)[k + 1] == rest[k];
      [s[0]] + rest
  }

  /** `([^\/]+?)(?:\.git)?` over a whole segment: a trailing `.git` is dropped when something is left. */
  function StripGit(seg: string): (r: string)
    ensures r <= seg && (seg != [] ==> r != [])
  {
    if |seg| > 4 && EndsWith(seg, ".git") then seg[..|seg| - 4] else seg
  }

  /** What follows a literal prefix, if the text starts with it. */
  function After(s: string, prefix: string): (r: Option<string>)
    ensures r.Some? <==> StartsWith(s, prefix)
    ensures r.Some? ==> s == prefix + r.value
  {
    if StartsWith(s, prefix) then Some(s[|prefix|..]) else None
  }

  /** `^https?:\/\/github\.com\/` */
  function AfterHttpsHost(s: string): Option<string>
  {
    match After(s, "https://github.com/")
    case Some(rest) => Some(rest)
    case None => After(s, "http://github.com/")
  }

  /** `([^\/]+)\/`: a non-empty owner up to the first `/`, and the text after that `/`. */
  function OwnerAndRest(s: string): (r: Option<(string, string)>)
    ensures r.Some? ==> r.value.0 != [] && !HasChar(r.value.0, '/') && s == r.value.0 + "/" + r.value.1
  {
    var owner := UpToSlash(s);
    if owner == [] || |owner| == |s| then None
    else
      assert s == owner + "/" + s[|owner| + 1..] by {
        assert s == s[..|owner|] + [s[|owner|]] + s[|owner| + 1..];
      }
      Some((owner, s[|owner| + 1..]))
  }

  /**
   * `(?:\/tree\/([^\/]+))?(?:\/.*)?$` taking the branch: after `/tree/` a
   * non-empty branch up to the next `/`, and after it nothing or a `/`
   * followed by no line terminator.
   */
  function TreeBranch(u: string): Option<string>
  {
    if StartsWith(u, "/tree/") then
      var b := UpToSlash(u[6..]);
      var v := u[6 + |b|..];
      if b != [] && (v == [] || NoLineTerminator(v[1..])) then Some(b) else None
    else None
  }

  /** The full HTTPS pattern, with optional `.git`, optional `/tree/<branch>` and an optional tail. */
  function FullHttps(s: string): Option<Groups>
  {
    match AfterHttpsHost(s)
    case None => None
    case Some(rest) =>
      match OwnerAndRest(rest)
      case None => None
      case Some((owner, t)) => RepoAndBranch(owner, t)
  }

  /** The full HTTPS pattern after `owner/`: the repository segment, then the optional branch and tail. */
  function RepoAndBranch(owner: string, t: string): Option<Groups>
  {
    var seg := UpToSlash(t);
    var u := t[|seg|..];
    if seg == [] then None
    else if u == [] then Some(Groups(owner, StripGit(seg), None))
    else if TreeBranch(u).Some? then Some(Groups(owner, StripGit(seg), TreeBranch(u)))
    else if NoLineTerminator(u[1..]) then Some(Groups(owner, StripGit(seg), None))
    else None
  }

  /** The simple HTTPS pattern `owner/repo` with nothing after. */
  function SimpleHttps(s: string): Option<Groups>
  {
    match AfterHttpsHost(s)
    case None => None
    case Some(rest) =>
      match OwnerAndRest(rest)
      case None => None
      case Some((owner, t)) =>
        if t != [] && !HasChar(t, '/') then Some(Groups(owner, t, None)) else None
  }

  /** The SSH pattern `git@github.com:owner/repo(.git)`. */
  function Ssh(s: string): Option<Groups>
  {
    match After(s, "git@github.com:")
    case None => None
    case Some(rest) =>
      match OwnerAndRest(rest)
      case None => None
      case Some((owner, t)) =>
        if t != [] && !HasChar(t, '/') then Some(Groups(owner, StripGit(t), None)) else None
  }

  /** The shorthand pattern `owner/repo`, neither part holding `/` or white space. */
  function Shorthand(s: string): Option<Groups>
  {
    match OwnerAndRest(s)
    case None => None
    case Some((owner, t)) =>
      if NoSpace(owner) && t != [] && !HasChar(t, '/') && NoSpace(t) then Some(Groups(owner, t, None)) else None
  }

  /** The `k`-th pattern of the list. */
  function MatchPattern(k: nat, s: string): Option<Groups>
    requires k < 4
  {
    if k == 0 then FullHttps(s)
    else if k == 1 then SimpleHttps(s)
    else if k == 2 then Ssh(s)
    else Shorthand(s)
  }

  /** The first of patterns `k` to `count - 1` that matches. */
  function FirstMatch(s: string, k: nat, count: nat): (r: Option<Groups>)
    requires count <= 4
    ensures r.Some? ==> exists j :: k <= j < count && MatchPattern(j, s) == r
    decreases count - k
  {
    if k >= count then None
    else if MatchPattern(k, s).Some? then MatchPattern(k, s)
    else FirstMatch(s, k + 1, count)
  }

  /** The groups as returned: each trimmed. */
  function Trimmed(g: Groups): ParsedRepoUrl
  {
    ParsedRepoUrl(Trim(g.owner), Trim(g.repo), if g.branch.Some? then Some(Trim(g.branch.value)) else None)
  }

  function MapTrimmed(g: Option<Groups>): Option<ParsedRepoUrl>
  {
    if g.Some? then Some(Trimmed(g.value)) else None
  }

  /** The loop over the patterns with its early return. */
  method FirstMatching(s: string, count: nat) returns (r: Option<ParsedRepoUrl>)
    requires count <= 4
    ensures r == MapTrimmed(FirstMatch(s, 0, count))
  {
    var k := 0;
    while k < count
      invariant 0 <= k <= count
      invariant FirstMatch(s, 0, count) == FirstMatch(s, k, count)
    {
      var m := MatchPattern(k, s);
      if m.Some? {
        return Some(Trimmed(m.value));
      }
      k := k + 1;
    }
    return None;
  }

  /** `parseGitHubUrl` of the clone hook: the four patterns against the trimmed URL. */
  function ParseUrl(url: string): Option<ParsedRepoUrl>
  {
    MapTrimmed(FirstMatch(Trim(url), 0, 4))
  }

  method ParseGitHubUrl(url: string) returns (parsed: Option<ParsedRepoUrl>)
    ensures parsed == ParseUrl(url)
  {
    parsed := FirstMatching(Trim(url), 4);
  }

  /** `parseGitHubUrl` of the older hook: the first three patterns against the URL as given. */
  function LegacyParseUrl(url: string): Option<ParsedRepoUrl>
  {
    MapTrimmed(FirstMatch(url, 0, 3))
  }

  method LegacyParseGitHubUrl(url: string) returns (parsed: Option<ParsedRepoUrl>)
    ensures parsed == LegacyParseUrl(url)
  {
    parsed := FirstMatching(url, 3);
  }

  /** Whatever the simple HTTPS pattern matches, the full one has matched first, so it never decides. */
  lemma SimpleHttpsNeverDecides(s: string)
    ensures SimpleHttps(s).Some? ==> FullHttps(s).Some?
    ensures FirstMatch(s, 0, 4) == (if FullHttps(s).Some? then FullHttps(s) else FirstMatch(s, 2, 4))
  {
    if SimpleHttps(s).Some? {
      var rest := AfterHttpsHost(s).value;
      var t := OwnerAndRest(rest).value.1;
      assert UpToSlash(t) == t;
      assert t[|t|..] == [];
    }
  }

  /** Surrounding white space makes no difference to the newer parser. */
  lemma ParseIgnoresSurroundingSpace(url: string)
    ensures ParseUrl(Trim(url)) == ParseUrl(url)
  {
    TrimIdempotent(url);
  }

  /** The newer parser skips leading white space, one character at a time. */
  lemma ParseSkipsLeadingSpace(c: char, url: string)
    requires IsSpace(c)
    ensures ParseUrl([c] + url) == ParseUrl(url)
  {
    assert ([c] + url)[1..] == url;
  }

  /** The older parser, given a leading white-space character, accepts nothing. */
  lemma LegacyRejectsLeadingSpace(url: string)
    requires url != [] && IsSpace(url[0])
    ensures LegacyParseUrl(url) == None
  {
    assert !StartsWith(url, "https://github.com/") && !StartsWith(url, "http://github.com/");
    assert !StartsWith(url, "git@github.com:");
  }

  /** On a trimmed URL the newer parser accepts everything the older one does, with the same result. */
  lemma ParseExtendsLegacy(url: string)
    requires Trim(url) == url
    requires LegacyParseUrl(url).Some?
    ensures ParseUrl(url) == LegacyParseUrl(url)
  {
  }

  /** A text without `:` starts with none of the URL prefixes, so only the shorthand pattern can match it. */
  lemma NoColonIsShorthandOnly(s: string)
    requires !HasChar(s, ':')
    ensures FirstMatch(s, 0, 4) == Shorthand(s)
  {
    assert !StartsWith(s, "https://github.com/") by {
      if |s| >= 19 { assert s[5] != ':'; assert s[..19][5] == s[5]; }
    }
    assert !StartsWith(s, "http://github.com/") by {
      if |s| >= 18 { assert s[4] != ':'; assert s[..18][4] == s[4]; }
    }
    assert !StartsWith(s, "git@github.com:") by {
      if |s| >= 15 { assert s[14] != ':'; assert s[..15][14] == s[14]; }
    }
    assert FullHttps(s) == None && SimpleHttps(s) == None && Ssh(s) == None;
  }

  /** Joining two parts with a `/` between them: the parts come back, and no new character appears. */
  lemma {:induction false} JoinedParts(a: string, b: string, c: char)
    requires c != '/' && !HasChar(a, c) && !HasChar(b, c)
    ensures !HasChar(a + "/" + b, c)
    ensures (a + "/" + b)[|a| + 1..] == b
  {
    var s := a + "/" + b;
    forall i | 0 <= i < |s| ensures s[i] != c {
      if i < |a| {
        assert s[i] == a[i];
      } else if i > |a| {
        assert s[i] == b[i - |a| - 1];
      }
    }
  }

  /** The shorthand pattern reads `owner/repo` back. */
  lemma ShorthandMatches(owner: string, repo: string)
    requires owner != [] && repo != []
    requires !HasChar(owner, '/') && !HasChar(repo, '/')
    requires NoSpace(owner) && NoSpace(repo)
    ensures Shorthand(owner + "/" + repo) == Some(Groups(owner, repo, None))
  {
    var s := owner + "/" + repo;
    UpToSlashOfJoined(owner, repo);
    assert s[|owner| + 1..] == repo;
  }

  /** A plain `owner/repo` reads back as that owner and repository, with no branch. */
  lemma ShorthandRoundTrip(owner: string, repo: string)
    requires owner != [] && repo != []
    requires !HasChar(owner, '/') && !HasChar(repo, '/') && !HasChar(owner, ':') && !HasChar(repo, ':')
    requires NoSpace(owner) && NoSpace(repo)
    ensures ParseUrl(owner + "/" + repo) == Some(ParsedRepoUrl(owner, repo, None))
  {
    var s := owner + "/" + repo;
    JoinedParts(owner, repo, ':');
    assert s[0] == owner[0] && s[|s| - 1] == repo[|repo| - 1];
    TrimOfTrimmed(s);
    NoColonIsShorthandOnly(s);
    ShorthandMatches(owner, repo);
    TrimOfTrimmed(owner);
    TrimOfTrimmed(repo);
  }

  /** The owner in front of a `/` is exactly what the greedy owner group takes. */
  lemma {:induction false} UpToSlashOfJoined(a: string, b: string)
    requires !HasChar(a, '/')
    ensures UpToSlash(a + "/" + b) == a
  {
    if a != [] {
      assert (a + "/" + b)[0] == a[0];
      assert (a + "/" + b)[1..] == a[1..] + "/" + b;
      forall k | 0 <= k < |a[1..]| ensures a[1..][k] != '/' {
        assert a[1..][k] == a[k + 1];
      }
      UpToSlashOfJoined(a[1..], b);
      assert a == [a[0]] + a[1..];
    }
  }

  /** The full HTTPS pattern reads `https://github.com/owner/repo/tree/branch` back. */
  lemma TreeUrlMatches(owner: string, repo: string, branch: string)
    requires owner != [] && repo != [] && branch != []
    requires !HasChar(owner, '/') && !HasChar(repo, '/') && !HasChar(branch, '/')
    ensures FullHttps("https://github.com/" + (owner + "/" + (repo + "/" + ("tree/" + branch))))
         == Some(Groups(owner, StripGit(repo), Some(branch)))
  {
    var tail := repo + "/" + ("tree/" + branch);
    var rest := owner + "/" + tail;
    var url := "https://github.com/" + rest;
    assert After(url, "https://github.com/") == Some(rest) by {
      assert url[..19] == "https://github.com/";
      assert url[19..] == rest;
    }
    assert OwnerAndRest(rest) == Some((owner, tail)) by {
      UpToSlashOfJoined(owner, tail);
      assert rest[|owner| + 1..] == tail;
    }
    TreeTailMatches(owner, repo, branch);
  }

  lemma TreeTailMatches(owner: string, repo: string, branch: string)
    requires repo != [] && branch != []
    requires !HasChar(repo, '/') && !HasChar(branch, '/')
    ensures RepoAndBranch(owner, repo + "/" + ("tree/" + branch)) == Some(Groups(owner, StripGit(repo), Some(branch)))
  {
    var tail := repo + "/" + ("tree/" + branch);
    UpToSlashOfJoined(repo, "tree/" + branch);
    var u := tail[|repo|..];
    assert u == "/tree/" + branch;
    assert TreeBranch(u) == Some(branch) by {
      assert StartsWith(u, "/tree/") by { assert u[..6] == "/tree/"; }
      assert u[6..] == branch;
      assert u[6 + |branch|..] == [];
    }
  }

  /** `https://github.com/owner/repo/tree/branch` reads back as its three parts. */
  lemma TreeUrlRoundTrip(owner: string, repo: string, branch: string)
    requires owner != [] && repo != [] && branch != []
    requires !HasChar(owner, '/') && !HasChar(repo, '/') && !HasChar(branch, '/')
    requires Trim(owner) == owner && Trim(repo) == repo && Trim(branch) == branch
    requires StripGit(repo) == repo
    ensures ParseUrl("https://github.com/" + owner + "/" + repo + "/tree/" + branch)
         == Some(ParsedRepoUrl(owner, repo, Some(branch)))
  {
    var url := "https://github.com/" + (owner + "/" + (repo + "/" + ("tree/" + branch)));
    assert url == "https://github.com/" + owner + "/" + repo + "/tree/" + branch;
    TrimIdempotent(branch);
    assert url[0] == 'h' && url[|url| - 1] == branch[|branch| - 1];
    TrimOfTrimmed(url);
    TreeUrlMatches(owner, repo, branch);
  }

  /** `getRepoPath`: the clone directory `/<owner>/<repo>`. */
  function GetRepoPath(owner: string, repo: string): (r: string)
    ensures |r| == |owner| + |repo| + 2 && r[0] == '/'
  {
    "/" + owner + "/" + repo
  }

  /** The clone directory splits back into the root, the owner and the repository. */
  lemma RepoPathSplits(owner: string, repo: string)
    requires !HasChar(owner, '/') && !HasChar(repo, '/')
    ensures Split(GetRepoPath(owner, repo), "/") == ["", owner, repo]
  {
    var parts := ["", owner, repo];
    assert Join(parts, "/") == GetRepoPath(owner, repo) by {
      assert Join(parts[1..], "/") == owner + "/" + Join(parts[2..], "/");
    }
    assert !HasChar("", '/');
    SplitJoin(parts, '/');
  }

  /** `parsed.branch || fallback`: an empty branch counts as none. */
  function TargetBranch(parsed: ParsedRepoUrl, fallback: string): (r: string)
    ensures r == fallback || parsed.branch == Some(r)
    ensures fallback != [] ==> r != []
  {
    if parsed.branch.Some? && parsed.branch.value != [] then parsed.branch.value else fallback
  }

  /** A `/tree/<branch>` URL checks out its branch, whatever the fallback. */
  lemma TreeUrlChecksOutBranch(owner: string, repo: string, branch: string, fallback: string)
    requires owner != [] && repo != [] && branch != []
    requires !HasChar(owner, '/') && !HasChar(repo, '/') && !HasChar(branch, '/')
    requires Trim(owner) == owner && Trim(repo) == repo && Trim(branch) == branch
    requires StripGit(repo) == repo
    ensures var parsed := ParseUrl("https://github.com/" + owner + "/" + repo + "/tree/" + branch);
            parsed.Some? && TargetBranch(parsed.value, fallback) == branch
  {
    TreeUrlRoundTrip(owner, repo, branch);
  }

  /** A plain `owner/repo` checks out the fallback branch (`"main"` in the clone hook). */
  lemma ShorthandChecksOutFallback(owner: string, repo: string, fallback: string)
    requires owner != [] && repo != []
    requires !HasChar(owner, '/') && !HasChar(repo, '/') && !HasChar(owner, ':') && !HasChar(repo, ':')
    requires NoSpace(owner) && NoSpace(repo)
    ensures var parsed := ParseUrl(owner + "/" + repo);
            parsed.Some? && TargetBranch(parsed.value, fallback) == fallback
  {
    ShorthandRoundTrip(owner, repo);
  }
}
