/**
 * The comments widget as page state that its handlers update in place: the
 * comments container (a sequence of fragments), the "new comment" button
 * (its link and visibility) and the log of remote calls issued. Each handler
 * takes the results of its remote calls as parameters, says whether it ended
 * by throwing a TypeError, and is proved to leave exactly the page that
 * `Handlers` gives for it.
 */
module Widget {
  import opened Wrappers
  import opened Values
  import opened Links
  import opened Rendering
  import opened Loading
  import opened Handlers

  class CommentsWidget {
    var container: seq<Fragment>
    var buttonHref: Option<string>
    var buttonVisible: bool
    var requests: seq<Request>

    /** The page state as a value. */
    function Snapshot(): Page
      reads this
    {
      Page(container, buttonHref, buttonVisible, requests)
    }

    /** A page whose container holds `initial`, with the button hidden and no call made. */
    constructor (initial: seq<Fragment>)
      ensures Snapshot() == Page(initial, None, false, [])
    {
      container := initial;
      buttonHref := None;
      buttonVisible := false;
      requests := [];
    }

    /** Replaces the container's content with one piece of markup. */
    method SetHtml(html: string)
      modifies this
      ensures Snapshot() == old(Snapshot()).(container := [Markup(html)])
    {
      container := [Markup(html)];
    }

    /** Clears the container. */
    method Empty()
      modifies this
      ensures Snapshot() == old(Snapshot()).(container := [])
    {
      container := [];
    }

    /** Points the button at the issue's page and makes it visible. */
    method ShowCommentButton(issue: Value)
      modifies this
      ensures Snapshot() == WithButton(old(Snapshot()), issue)
    {
      buttonHref := Some(CommentUrl(issue));
      buttonVisible := true;
    }

    /** Appends exactly one fragment, the comment's, after the existing ones. */
    method RenderComment(c: Comment)
      modifies this
      ensures Snapshot() == old(Snapshot()).(container := old(container) + [CommentFragment(c)])
    {
      container := container + [CommentFragment(c)];
    }

    /** Fetches the comments of `issue`, whose call completes with `response`, and renders them. */
    method LoadCommentsForIssue(issue: Value, response: Response<Option<seq<Comment>>>) returns (threw: bool)
      modifies this
      ensures Outcome(Snapshot(), threw) == AfterLoadComments(old(Snapshot()), issue, response)
    {
      requests := requests + [IssueComments(issue)];
      match response
      case Failed =>
        SetHtml(CouldNotLoad);
        if Truthy(issue) {
          ShowCommentButton(Undefined);
        }
        threw := false;
      case Done(data) =>
        if data.None? {
          SetHtml(NoCommentsYet);
          ShowCommentButton(issue);
        }
        Empty();
        ShowCommentButton(issue);
        if data.None? {
          threw := true;
          return;
        }
        var comments := data.value;
        ghost var cleared := Snapshot();
        for i := 0 to |comments|
          invariant Snapshot() == cleared.(container := Fragments(comments[..i]))
        {
          RenderComment(comments[i]);
          FragmentsConcat(comments[..i], [comments[i]]);
          assert comments[..i + 1] == comments[..i] + [comments[i]];
        }
        assert comments[..|comments|] == comments;
        threw := false;
    }

    /** Searches for the article's issue and acts on the result, loading its comments when it should. */
    method SearchIssueNumber(articleId: string, search: Response<SearchData>,
                             comments: Response<Option<seq<Comment>>>) returns (threw: bool)
      modifies this
      ensures Outcome(Snapshot(), threw) == AfterSearch(old(Snapshot()), articleId, search, comments)
    {
      requests := requests + [SearchIssues(SearchQuery(articleId))];
      match SearchDecision(search)
      case ShowMessage(html, button) =>
        SetHtml(html);
        if button.Some? {
          ShowCommentButton(button.value);
        }
        threw := false;
      case TypeError =>
        threw := true;
      case LoadComments(issue) =>
        threw := LoadCommentsForIssue(issue, comments);
    }

    /** Starts the widget: nothing without an article id, else the placeholder and the first call. */
    method Initialize(articleId: Option<string>, cached: Option<string>, search: Response<SearchData>,
                      comments: Response<Option<seq<Comment>>>) returns (threw: bool)
      modifies this
      ensures Outcome(Snapshot(), threw) == AfterInitialize(old(Snapshot()), articleId, cached, search, comments)
    {
      match InitDecision(articleId, cached)
      case Skip =>
        threw := false;
      case LoadCached(issue) =>
        SetHtml(LoadingMessage);
        threw := LoadCommentsForIssue(issue, comments);
      case Search(id) =>
        SetHtml(LoadingMessage);
        threw := SearchIssueNumber(id, search, comments);
    }
  }
}
