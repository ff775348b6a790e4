/**
 * The "new comment" button's link and the profile-link filter `githubLinkRegex`.
 */
module Links {
  import opened Wrappers
  import opened Values

  const RepoName: string := "romaricdrigon/romaricdrigon.github.io"
  const GithubUrl: string := "https://github.com/"

  /** The common start of every issue link of the repository. */
  const IssuesPrefix: string := GithubUrl + RepoName + "/issues/"

  /** The link the "new comment" button is given for an issue number. */
  function CommentUrl(issue: Value): (url: string)
    ensures issue.Num? ==> LinkedIssue(url) == Some(issue.n)
    ensures issue.Str? ==> LinkedIssue(url) == ParseNumber(issue.s)
    ensures issue.Undefined? ==> LinkedIssue(url) == None
  {
    var url := IssuesPrefix + Text(issue);
    assert url[|IssuesPrefix|..] == Text(issue);
    assert issue.Num? ==> ParseNumber(Text(issue)) == Some(issue.n) by {
      if issue.Num? { NumberTextRoundTrip(issue.n); }
    }
    assert !IsDigit('u');
    url
  }

  /** The issue number a button link points at, if its last segment is a number. */
  function LinkedIssue(url: string): Option<int>
  {
    if IssuesPrefix <= url then ParseNumber(url[|IssuesPrefix|..]) else None
  }

  /** The link for a number points at that number. */
  lemma CommentUrlNumber(n: int)
    ensures LinkedIssue(CommentUrl(Num(n))) == Some(n)
  {
  }

  /** The link for a string carries the string verbatim. */
  lemma CommentUrlString(s: string)
    ensures CommentUrl(Str(s)) == GithubUrl + RepoName + "/issues/" + s
  {
  }

  /** The link built with no issue number ends in "undefined" and points at no issue. */
  lemma CommentUrlUndefined()
    ensures CommentUrl(Undefined) == GithubUrl + RepoName + "/issues/undefined"
    ensures LinkedIssue(CommentUrl(Undefined)) == None
  {
  }

  /** Characters of the class [a-zA-Z0-9-], those a GitHub user name may hold. */
  predicate IsUserChar(c: char)
  {
    ('a' <= c <= 'z') || ('A' <= c <= 'Z') || ('0' <= c <= '9') || c == '-'
  }

  /** `p` occurs in `s` at index `k`. */
  predicate OccursAt(s: string, p: string, k: nat)
  {
    k + |p| <= |s| && s[k..k + |p|] == p
  }

  /** The leftmost index at or after `k` where `p` occurs in `s`. */
  function FindFrom(s: string, p: string, k: nat): (r: Option<nat>)
    requires k <= |s|
    ensures r.Some? ==> k <= r.value && OccursAt(s, p, r.value)
    ensures r.Some? ==> forall j :: k <= j < r.value ==> !OccursAt(s, p, j)
    ensures r.None? ==> forall j :: k <= j <= |s| ==> !OccursAt(s, p, j)
    decreases |s| - k
  {
    if OccursAt(s, p, k) then Some(k)
    else if k == |s| then None
    else FindFrom(s, p, k + 1)
  }

  /** Length of the longest run of user-name characters starting at `k`. */
  function UserRun(s: string, k: nat): (n: nat)
    requires k <= |s|
    ensures k + n <= |s|
    ensures forall j :: k <= j < k + n ==> IsUserChar(s[j])
    ensures k + n == |s| || !IsUserChar(s[k + n])
    decreases |s| - k
  {
    if k == |s| || !IsUserChar(s[k]) then 0 else 1 + UserRun(s, k + 1)
  }

  /**
   * The match of /https:\/\/github\.com\/[a-zA-Z0-9\-]*\/ in `url`: the leftmost
   * occurrence of the prefix with the longest run of user-name characters after
   * it, or None (the script's `null`) when the prefix does not occur.
   */
  function MatchProfileLink(url: string): (r: Option<string>)
    ensures r.None? <==> forall j :: 0 <= j <= |url| ==> !OccursAt(url, GithubUrl, j)
    ensures r.Some? ==> GithubUrl <= r.value
    ensures r.Some? ==> forall i :: |GithubUrl| <= i < |r.value| ==> IsUserChar(r.value[i])
    ensures r.Some? ==> exists k :: LongestLeftmostAt(url, k, r.value)
  {
    match FindFrom(url, GithubUrl, 0)
    case None => None
    case Some(k) =>
      var n := UserRun(url, k + |GithubUrl|);
      var m := url[k..k + |GithubUrl| + n];
      assert m[..|GithubUrl|] == url[k..k + |GithubUrl|];
      assert forall i :: |GithubUrl| <= i < |m| ==> m[i] == url[k + i];
      assert LongestLeftmostAt(url, k, m);
      Some(m)
  }

  /**
   * `m` is the text of `url` at `k`, `k` is the leftmost occurrence of the
   * prefix, and `m` cannot be extended by another user-name character.
   */
  ghost predicate LongestLeftmostAt(url: string, k: nat, m: string)
  {
    && k + |m| <= |url|
    && url[k..k + |m|] == m
    && (forall j :: 0 <= j < k ==> !OccursAt(url, GithubUrl, j))
    && (k + |m| == |url| || !IsUserChar(url[k + |m|]))
  }
}
