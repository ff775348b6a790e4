/**
 * The decisions the widget takes while loading: whether initialisation runs
 * and which call it makes, and what a search result leads to. Call results
 * are inputs; the network itself is not modelled.
 */
module Loading {
  import opened Wrappers
  import opened Values

  /** The result of one remote call: a transport failure, or success with the decoded data. */
  datatype Response<T> = Failed | Done(data: T)

  /** One item of the search endpoint's result, with the fields the widget reads. */
  datatype Issue = Issue(number: int, state: string, comments: int)

  /** The search endpoint's result: `total_count` and `items`. */
  datatype SearchData = SearchData(totalCount: int, items: seq<Issue>)

  const LoadingMessage: string := "<p>Comments are loading...</p>"
  const CouldNotLoad: string := "<p>Comments could not be loaded.</p>"
  const NotOpenYet: string := "<p>Comments are not open (yet) on this article.</p>"
  const ClosedMessage: string := "<p>Comments are closed on this post.</p>"
  const NoCommentsYet: string := "<p>There are no comments yet on this post.</p>"

  /** What initialisation does. */
  datatype InitStep =
    | Skip                          // no article id: nothing at all
    | LoadCached(issue: Value)      // fetch the comments of the cached issue
    | Search(articleId: string)     // search for the article's issue

  /** Initialisation needs an article id; a cached issue number spares the search. */
  function InitDecision(articleId: Option<string>, cached: Option<string>): (step: InitStep)
    ensures step.Skip? <==> !Present(articleId)
    ensures step.LoadCached? <==> Present(articleId) && Present(cached)
    ensures step.LoadCached? ==> step.issue == Str(cached.value) && Truthy(step.issue)
    ensures step.Search? ==> articleId == Some(step.articleId) && !Present(cached)
  {
    if !Present(articleId) then Skip
    else if Present(cached) then LoadCached(Str(cached.value))
    else Search(articleId.value)
  }

  /** What the search call's completion leads to. */
  datatype SearchStep =
    | ShowMessage(html: string, button: Option<Value>)  // terminal message, maybe with the button
    | LoadComments(issue: Value)                          // the only step that makes a further call
    | TypeError                                           // `items[0]` read on an empty `items`

  /**
   * The search handler: failure, then no result, then a first item that is
   * not open, then no comments, and only then a call for the comments.
   */
  function SearchDecision(r: Response<SearchData>): (step: SearchStep)
    ensures r.Failed? ==> step == ShowMessage(CouldNotLoad, None)
    ensures step.LoadComments? <==>
      && r.Done? && r.data.totalCount != 0 && |r.data.items| > 0
      && r.data.items[0].state == "open" && r.data.items[0].comments != 0
    ensures step.LoadComments? ==> step.issue == Num(r.data.items[0].number)
    ensures step.TypeError? <==> r.Done? && r.data.totalCount != 0 && r.data.items == []
    ensures step.ShowMessage? && step.button.Some? ==>
      r.Done? && |r.data.items| > 0 && step.html == NoCommentsYet
      && step.button.value == Num(r.data.items[0].number)
  {
    match r
    case Failed => ShowMessage(CouldNotLoad, None)
    case Done(d) =>
      if d.totalCount == 0 then ShowMessage(NotOpenYet, None)
      else if d.items == [] then TypeError
      else if d.items[0].state != "open" then ShowMessage(ClosedMessage, None)
      else if d.items[0].comments == 0 then ShowMessage(NoCommentsYet, Some(Num(d.items[0].number)))
      else LoadComments(Num(d.items[0].number))
  }

  /** Each terminal message of a successful search, with the exact condition that selects it. */
  lemma SearchMessages(d: SearchData)
    ensures SearchDecision(Done(d)) == ShowMessage(NotOpenYet, None) <==> d.totalCount == 0
    ensures SearchDecision(Done(d)) == ShowMessage(ClosedMessage, None) <==>
      d.totalCount != 0 && |d.items| > 0 && d.items[0].state != "open"
    ensures SearchDecision(Done(d)).ShowMessage? && SearchDecision(Done(d)).html == NoCommentsYet <==>
      d.totalCount != 0 && |d.items| > 0 && d.items[0].state == "open" && d.items[0].comments == 0
  {
  }

  /** A zero total count decides alone: the items are not looked at. */
  lemma ZeroCountIgnoresItems(d: SearchData, e: SearchData)
    requires d.totalCount == 0 && e.totalCount == 0
    ensures SearchDecision(Done(d)) == SearchDecision(Done(e))
  {
  }

  /** A first item that is not open decides alone: its comment count is not looked at. */
  lemma ClosedIgnoresComments(d: SearchData, comments: int)
    requires d.totalCount != 0 && |d.items| > 0 && d.items[0].state != "open"
    ensures SearchDecision(Done(d)) ==
      SearchDecision(Done(d.(items := [d.items[0].(comments := comments)] + d.items[1..])))
  {
  }
}
