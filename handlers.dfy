/**
 * The page effect of each handler, as a function of the page before it and
 * of the results of the remote calls. The widget's methods are proved to
 * produce exactly these pages; the lemmas below state what the handlers
 * promise in terms of them.
 */
module Handlers {
  import opened Wrappers
  import opened Values
  import opened Links
  import opened Rendering
  import opened Loading

  /** A remote call, as issued: the issue search, or the comments of one issue. */
  datatype Request = SearchIssues(query: string) | IssueComments(issue: Value)

  /** The page state the widget writes: container, button link and visibility, calls issued. */
  datatype Page = Page(container: seq<Fragment>, buttonHref: Option<string>, buttonVisible: bool,
                       requests: seq<Request>)

  /** A page, and whether the handler ended by throwing a TypeError. */
  datatype Outcome = Outcome(page: Page, threw: bool)

  /** The search query before URL encoding: the repository and the article id. */
  function SearchQuery(articleId: string): string
  {
    "repo:" + RepoName + " " + articleId
  }

  /** Different article ids give different search queries, so the search names its article. */
  lemma SearchQueryInjective(a: string, b: string)
    requires SearchQuery(a) == SearchQuery(b)
    ensures a == b
  {
    var n := |"repo:" + RepoName + " "|;
    assert SearchQuery(a)[n..] == a;
    assert SearchQuery(b)[n..] == b;
  }

  /** The page after the button is pointed at `issue` and made visible. */
  function WithButton(p: Page, issue: Value): Page
  {
    p.(buttonHref := Some(CommentUrl(issue)), buttonVisible := true)
  }

  /** The page after the comments call for `issue` completes with `response`. */
  function AfterLoadComments(p: Page, issue: Value, response: Response<Option<seq<Comment>>>): Outcome
  {
    var called := p.(requests := p.requests + [IssueComments(issue)]);
    match response
    case Failed =>
      var failed := called.(container := [Markup(CouldNotLoad)]);
      Outcome(if Truthy(issue) then WithButton(failed, Undefined) else failed, false)
    case Done(None) =>
      var told := WithButton(called.(container := [Markup(NoCommentsYet)]), issue);
      Outcome(WithButton(told.(container := []), issue), true)
    case Done(Some(comments)) =>
      Outcome(WithButton(called.(container := Fragments(comments)), issue), false)
  }

  /** The page after the search call completes with `search` (and, if made, the comments call with `comments`). */
  function AfterSearch(p: Page, articleId: string, search: Response<SearchData>,
                       comments: Response<Option<seq<Comment>>>): Outcome
  {
    var called := p.(requests := p.requests + [SearchIssues(SearchQuery(articleId))]);
    match SearchDecision(search)
    case ShowMessage(html, button) =>
      var shown := called.(container := [Markup(html)]);
      Outcome(if button.Some? then WithButton(shown, button.value) else shown, false)
    case TypeError => Outcome(called, true)
    case LoadComments(issue) => AfterLoadComments(called, issue, comments)
  }

  /** The page after initialisation and every call it leads to. */
  function AfterInitialize(p: Page, articleId: Option<string>, cached: Option<string>,
                           search: Response<SearchData>, comments: Response<Option<seq<Comment>>>): Outcome
  {
    match InitDecision(articleId, cached)
    case Skip => Outcome(p, false)
    case LoadCached(issue) => AfterLoadComments(p.(container := [Markup(LoadingMessage)]), issue, comments)
    case Search(id) => AfterSearch(p.(container := [Markup(LoadingMessage)]), id, search, comments)
  }

  /** The comments call is always logged, and on success the button always points at `issue`. */
  lemma LoadCommentsEffect(p: Page, issue: Value, response: Response<Option<seq<Comment>>>)
    ensures AfterLoadComments(p, issue, response).page.requests == p.requests + [IssueComments(issue)]
    ensures response.Done? ==>
      AfterLoadComments(p, issue, response).page.buttonHref == Some(CommentUrl(issue))
      && AfterLoadComments(p, issue, response).page.buttonVisible
  {
  }

  /**
   * A failed comments call leaves the generic message; the button is revealed
   * only for a truthy issue number, and then with no issue segment.
   */
  lemma LoadCommentsFailure(p: Page, issue: Value)
    ensures AfterLoadComments(p, issue, Failed).page.container == [Markup(CouldNotLoad)]
    ensures !AfterLoadComments(p, issue, Failed).threw
    ensures Truthy(issue) ==>
      AfterLoadComments(p, issue, Failed).page.buttonHref == Some(GithubUrl + RepoName + "/issues/undefined")
      && AfterLoadComments(p, issue, Failed).page.buttonVisible
    ensures !Truthy(issue) ==>
      AfterLoadComments(p, issue, Failed).page.buttonHref == p.buttonHref
      && AfterLoadComments(p, issue, Failed).page.buttonVisible == p.buttonVisible
  {
    CommentUrlUndefined();
  }

  /** A successful comments call shows one fragment per comment, in response order. */
  lemma LoadCommentsSuccess(p: Page, issue: Value, comments: seq<Comment>)
    ensures |AfterLoadComments(p, issue, Done(Some(comments))).page.container| == |comments|
    ensures forall i :: 0 <= i < |comments| ==>
      AfterLoadComments(p, issue, Done(Some(comments))).page.container[i] == CommentFragment(comments[i])
    ensures !AfterLoadComments(p, issue, Done(Some(comments))).threw
  {
  }

  /** Falsy data: the "no comments" message is cleared straight away, and reading the data throws. */
  lemma LoadCommentsFalsyData(p: Page, issue: Value)
    ensures AfterLoadComments(p, issue, Done(None)).page.container == []
    ensures AfterLoadComments(p, issue, Done(None)).threw
  {
  }

  /**
   * The search is the first call; only a search that leads to loading makes a
   * second call, for the first item's issue, and every terminal branch logs
   * the search alone.
   */
  lemma SearchCalls(p: Page, articleId: string, search: Response<SearchData>,
                    comments: Response<Option<seq<Comment>>>)
    ensures AfterSearch(p, articleId, search, comments).page.requests ==
      p.requests + [SearchIssues(SearchQuery(articleId))] +
      (if SearchDecision(search).LoadComments?
       then [IssueComments(Num(search.data.items[0].number))] else [])
  {
  }

  /** A failed search shows the generic message and makes no further call. */
  lemma SearchFailure(p: Page, articleId: string, comments: Response<Option<seq<Comment>>>)
    ensures AfterSearch(p, articleId, Failed, comments) ==
      Outcome(p.(container := [Markup(CouldNotLoad)],
                 requests := p.requests + [SearchIssues(SearchQuery(articleId))]), false)
  {
  }

  /** An open issue with no comments: the message, the visible button for that issue, and no further call. */
  lemma SearchNoComments(p: Page, articleId: string, d: SearchData, comments: Response<Option<seq<Comment>>>)
    requires d.totalCount != 0 && |d.items| > 0 && d.items[0].state == "open" && d.items[0].comments == 0
    ensures AfterSearch(p, articleId, Done(d), comments).page.container == [Markup(NoCommentsYet)]
    ensures AfterSearch(p, articleId, Done(d), comments).page.buttonHref == Some(CommentUrl(Num(d.items[0].number)))
    ensures LinkedIssue(AfterSearch(p, articleId, Done(d), comments).page.buttonHref.value) == Some(d.items[0].number)
    ensures AfterSearch(p, articleId, Done(d), comments).page.buttonVisible
    ensures !AfterSearch(p, articleId, Done(d), comments).threw
    ensures AfterSearch(p, articleId, Done(d), comments).page.requests ==
      p.requests + [SearchIssues(SearchQuery(articleId))]
  {
    CommentUrlNumber(d.items[0].number);
  }

  /** Without an article id nothing happens: no call, and the page is as it was. */
  lemma InitializeWithoutArticle(p: Page, articleId: Option<string>, cached: Option<string>,
                                 search: Response<SearchData>, comments: Response<Option<seq<Comment>>>)
    requires !Present(articleId)
    ensures AfterInitialize(p, articleId, cached, search, comments) == Outcome(p, false)
  {
  }

  /** With a cached issue number the comments are loaded for it and no search is made. */
  lemma InitializeWithCached(p: Page, articleId: Option<string>, cached: Option<string>,
                             search: Response<SearchData>, comments: Response<Option<seq<Comment>>>)
    requires Present(articleId) && Present(cached)
    ensures AfterInitialize(p, articleId, cached, search, comments).page.requests ==
      p.requests + [IssueComments(Str(cached.value))]
    ensures AfterInitialize(p, articleId, cached, search, comments) ==
      AfterInitialize(p, articleId, cached, Failed, comments)
  {
  }

  /** With an article id and no cached issue number the search comes first. */
  lemma InitializeSearches(p: Page, articleId: Option<string>, cached: Option<string>,
                           search: Response<SearchData>, comments: Response<Option<seq<Comment>>>)
    requires Present(articleId) && !Present(cached)
    ensures var out := AfterInitialize(p, articleId, cached, search, comments).page.requests;
      |out| > |p.requests| && out[|p.requests|] == SearchIssues(SearchQuery(articleId.value))
  {
  }

  /** Whichever call fails, the container ends with the generic message and nothing throws. */
  lemma InitializeFailure(p: Page, articleId: Option<string>, cached: Option<string>,
                          search: Response<SearchData>, comments: Response<Option<seq<Comment>>>)
    requires Present(articleId)
    requires Present(cached) ==> comments.Failed?
    requires !Present(cached) ==> search.Failed? || (SearchDecision(search).LoadComments? && comments.Failed?)
    ensures AfterInitialize(p, articleId, cached, search, comments).page.container == [Markup(CouldNotLoad)]
    ensures !AfterInitialize(p, articleId, cached, search, comments).threw
  {
  }
}
