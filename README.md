# Verified model of the GitHub-issue comments widget

The blog page's comments widget (`assets/github-comments.js`) asks GitHub for the issue that
belongs to an article and shows the issue's comments on the page. It has no server
component. This project models the parts of it that make decisions or transform data, and
proves what they promise:

- **The HTML escaper**: the entity table and `escapeHtmlContent` (`escaping.dfy`, module
  `Escaping`). It replaces each of eight characters (ampersand, less-than, greater-than, double
  quote, single quote, slash, backquote and equals sign) by its entity and copies every other character. The proofs show that no markup-significant
  character survives, that every `&` in the output begins an entity, that escaping works
  character by character, and that it can be undone (`Unescape` is the inverse). Because
  it can be undone, escaping is injective.
- **JavaScript values** (`values.dfy`, module `Values`): an issue number as the script holds
  it (absent, a page attribute, or an API number), its truthiness, and the text a template
  literal makes of it: `"undefined"`, the attribute string itself, or the number in decimal.
- **Links** (`links.dfy`, module `Links`): the "new comment" button's URL and the profile-link filter
  `githubLinkRegex`. The filter is modelled as "leftmost occurrence of `https://github.com/`,
  then the longest run of `[a-zA-Z0-9-]`", and gives `None` (the script's `null`) when the
  prefix does not occur.
- **Comment rendering** (`rendering.dfy`, module `Rendering`): each comment becomes one
  fragment. A fragment holds the filtered profile link, the escaped login and the escaped
  body. A response becomes one fragment per comment, in response order.
- **Loading decisions** (`loading.dfy`, module `Loading`): whether `initialize` runs, and
  whether it loads a cached issue or searches. Also the ordered classification of a search
  result: failure, no result, a TypeError on an empty `items`, not open, no comments, or load.
- **Page effects** (`handlers.dfy`, module `Handlers`): what each handler leaves on the page.
  This is a pure function of the page before the handler and of the results of the remote
  calls. The page is the container's fragments, the button's link and visibility, and the
  log of calls issued.
- **The widget** (`widget.dfy`, class `Widget.CommentsWidget`): the page state as fields
  that the handler methods update in place. `renderComment` appends; `$comments.html` and
  `empty` replace or clear; `data.map(renderComment)` is a loop. Each method is proved to
  leave exactly the page that `Handlers` gives for it.

Remote calls are not made. Each call's result is a `Response` parameter: `Failed` or
`Done(data)`. The comments call's data is an `Option`, where `None` stands for a falsy
body. A handler that ends by throwing a TypeError says so in its `threw` result. For the API
shapes the model assumes (see "Left out"), the code throws in two places: `data.map` on falsy data, and `items[0]` read on an empty `items`.

Quirks of the code that the model keeps as written:
- The test `!$comments` never fires, because a jQuery object is always truthy. A missing
  container shows up only as a missing `data-article-id`.
- On falsy comment data, the "no comments yet" message and the button are shown. Right
  after that, the container is cleared and reading the data throws. So the message never
  stays on the page (`Handlers.LoadCommentsFalsyData`).
- When the comments call fails, `showCommentButton()` is called with no argument, so the
  link ends in `/issues/undefined` (`Handlers.LoadCommentsFailure`).
- If `total_count` is non-zero but `items` is empty, reading `items[0]` throws. The
  container then keeps the loading placeholder.

## Model

| member | source | states |
|---|---|---|
| `Escaping.TableCoversClass` | assets/github-comments.js:14-31 | the entity table's keys are exactly the characters of the replace pattern's class, so no lookup yields `undefined` |
| `Escaping.EntityShape` | assets/github-comments.js:14-23 | every entity starts with `&`, ends with its only `;`, contains no other `&` and no markup-significant character |
| `Escaping.EntityInjective` | assets/github-comments.js:14-23 | distinct characters have distinct entities |
| `Escaping.EntitiesPrefixFree` | assets/github-comments.js:14-23 | no entity is a prefix of another entity |
| `Escaping.EscapeHtmlContent` | assets/github-comments.js:28-32 | the output is never shorter than the input and contains none of the seven markup-significant characters of the class, that is, every character of it except `&` |
| `Escaping.EscapeConcat` | assets/github-comments.js:28-32 | escaping a concatenation is the concatenation of the escapings, so characters are processed independently and in order |
| `Escaping.EscapeChar` | assets/github-comments.js:29-31 | the replace callback for one character. Its contract is carried by `Escaping.EscapeSingle` (a class character becomes its entry, any other is copied) and, through `Escaping.EscapeHtmlContent`, by `Escaping.UnescapeEscape` |
| `Escaping.EscapeSingle` | assets/github-comments.js:14-31 | a special character becomes exactly its table entry; any other character is copied |
| `Escaping.EscapePlain` | assets/github-comments.js:28-32 | a string with no special character is returned unchanged |
| `Escaping.EscapeLength` | assets/github-comments.js:14-31 | the output has the input's length exactly when the input has no special character |
| `Escaping.EscapeAmpersands` | assets/github-comments.js:14-31 | every `&` in the output begins one of the eight entities |
| `Escaping.SameStart` | assets/github-comments.js:14-23 | two entities that both begin the same text are the same entity |
| `Escaping.MatchEntity` | assets/github-comments.js:14-23 | the table entry found, in table order, is one whose entity begins the text; when none is found, no entry's entity begins it |
| `Escaping.DecodeEntity` | assets/github-comments.js:14-23 | decoding finds an entity exactly when the text begins with one, and returns the character of that entity |
| `Escaping.DecodeAfterEntity` | assets/github-comments.js:14-23 | an entity followed by any text decodes to its own character |
| `Escaping.DecodeAfterPlain` | assets/github-comments.js:14-31 | a character outside the class, followed by any text, does not begin an entity |
| `Escaping.UnescapeEscape` | assets/github-comments.js:14-31 | escaping is reversible: turning the entities back into characters gives the original string |
| `Escaping.EscapeInjective` | assets/github-comments.js:28-32 | different strings always have different escaped forms |
| `Values.Decimal` | assets/github-comments.js:10 | a non-negative number's template text is a non-empty run of digits with no leading zero |
| `Values.DecimalRoundTrip` | assets/github-comments.js:10 | reading back that run of digits gives the number |
| `Values.NumberTextRoundTrip` | assets/github-comments.js:10 | any integer's template text, sign included, parses back to the integer |
| `Links.CommentUrl` | assets/github-comments.js:8-12 | the button link for an API number points back at that number; the link for an attribute string points at whatever number the string spells; the link built with no issue number points at no issue |
| `Links.CommentUrlNumber` | assets/github-comments.js:8-12 | the link built for an issue number points back at that number |
| `Links.CommentUrlString` | assets/github-comments.js:8-12 | the link built for an attribute string carries the string verbatim |
| `Links.CommentUrlUndefined` | assets/github-comments.js:8-12 | the link built with no argument ends in `/issues/undefined` and points at no issue |
| `Links.FindFrom` | assets/github-comments.js:36 | the index found is an occurrence of the pattern with no earlier occurrence; when none is found, the pattern does not occur |
| `Links.UserRun` | assets/github-comments.js:35-36 | the run counted holds only `[a-zA-Z0-9-]` characters and cannot be extended |
| `Links.MatchProfileLink` | assets/github-comments.js:36 | the filter gives null exactly when `https://github.com/` does not occur. Otherwise it gives the leftmost match: the prefix followed only by `[a-zA-Z0-9-]` characters, not extendable by another one |
| `Rendering.CommentFragment` | assets/github-comments.js:38-53 | a comment's fragment holds a login and a body with no markup-significant character, which unescape to the comment's own login and body. Its profile link is null exactly when the profile URL lacks the GitHub prefix, and otherwise a GitHub link followed only by user-name characters |
| `Rendering.Fragments` | assets/github-comments.js:74 | rendering a response gives one fragment per comment, the i-th being the i-th comment's, with no reordering and no deduplication |
| `Rendering.FragmentsConcat` | assets/github-comments.js:53 | rendering two runs of comments one after the other appends their fragments in that order |
| `Values.Truthy` | assets/github-comments.js:62 | JavaScript truthiness of an issue number: `undefined`, `""` and `0` are falsy. Used in the contract of `Handlers.LoadCommentsFailure` |
| `Values.Present` | assets/github-comments.js:110-116 | truthiness of a page attribute: present and not empty. Used in the contracts of `Loading.InitDecision` and the `Handlers.Initialize…` lemmas |
| `Values.Text` | assets/github-comments.js:10 | the text `${v}` makes of an issue number: `"undefined"`, the string itself, or the signed decimal. Its contract is carried by `Values.NumberTextRoundTrip` and `Links.CommentUrlUndefined` |
| `Loading.InitDecision` | assets/github-comments.js:109-123 | initialisation is skipped exactly when there is no (non-empty) article id. It loads the cached issue exactly when both the article id and the cached number are present. Otherwise it searches |
| `Loading.SearchDecision` | assets/github-comments.js:83-106 | a failure gives the generic message. Comments are loaded exactly when results exist and the first is open with comments, and then for the first item's number. A TypeError happens exactly when the count is non-zero and `items` is empty. Only "no comments yet" comes with the button, for the first item's number |
| `Loading.SearchMessages` | assets/github-comments.js:86-103 | "not open (yet)" exactly when the count is zero, "closed" exactly when the first item is not open, "no comments yet" exactly when it is open with zero comments |
| `Loading.ZeroCountIgnoresItems` | assets/github-comments.js:86-90 | a zero count decides before `items` is read |
| `Loading.ClosedIgnoresComments` | assets/github-comments.js:92-96 | a first item that is not open decides before its comment count is read |
| `Handlers.SearchQuery` | assets/github-comments.js:79 | the search query before URL encoding. Its contract is carried by `Handlers.SearchQueryInjective` |
| `Handlers.WithButton` | assets/github-comments.js:8-12 | the page after `showCommentButton`: the link for the issue, made visible, nothing else changed. Its contract is carried by `Widget.CommentsWidget.ShowCommentButton`, `Handlers.LoadCommentsEffect` and `Handlers.SearchNoComments` |
| `Handlers.AfterLoadComments` | assets/github-comments.js:56-76 | the page effect of `loadCommentsForIssue`. Its contract is carried by `Handlers.LoadCommentsEffect`, `Handlers.LoadCommentsFailure`, `Handlers.LoadCommentsSuccess` and `Handlers.LoadCommentsFalsyData` |
| `Handlers.AfterSearch` | assets/github-comments.js:78-107 | the page effect of `searchIssueNumber`. Its contract is carried by `Handlers.SearchCalls`, `Handlers.SearchFailure` and `Handlers.SearchNoComments`, with the branch choice by `Loading.SearchDecision` and `Loading.SearchMessages` |
| `Handlers.AfterInitialize` | assets/github-comments.js:109-123 | the page effect of `initialize`. Its contract is carried by `Handlers.InitializeWithoutArticle`, `Handlers.InitializeWithCached`, `Handlers.InitializeSearches` and `Handlers.InitializeFailure` |
| `Handlers.SearchQueryInjective` | assets/github-comments.js:79 | different article ids give different search queries, so the query names its article |
| `Handlers.LoadCommentsEffect` | assets/github-comments.js:56-72 | the comments call is logged for the issue; on any success the button points at that issue and is visible |
| `Handlers.LoadCommentsFailure` | assets/github-comments.js:59-64 | after a failed comments call, the container holds only the generic message. The button is revealed, with link `…/issues/undefined`, exactly when the issue number is truthy; otherwise the button is untouched |
| `Handlers.LoadCommentsSuccess` | assets/github-comments.js:65-74 | after a successful comments call, the container holds exactly one fragment per comment, in response order |
| `Handlers.LoadCommentsFalsyData` | assets/github-comments.js:66-74 | with falsy data the container ends empty (the message is lost) and the handler throws |
| `Handlers.SearchCalls` | assets/github-comments.js:81-106 | the whole call log: the search, followed by the comments call for the first item's number when the decision is to load, and by nothing otherwise. So every terminal branch logs the search alone |
| `Handlers.SearchFailure` | assets/github-comments.js:83-84 | a failed search leaves only the generic message, logs only the search, and changes nothing else |
| `Handlers.SearchNoComments` | assets/github-comments.js:98-103 | an open first item with zero comments gives "no comments yet" and a visible button whose link points at that item's number. Nothing throws, and no call follows the search |
| `Handlers.InitializeWithoutArticle` | assets/github-comments.js:110-112 | without an article id the page and the call log are left exactly as they were |
| `Handlers.InitializeWithCached` | assets/github-comments.js:116-120 | with a cached number, exactly one call is made, to that issue's comments. The search result is never consulted |
| `Handlers.InitializeSearches` | assets/github-comments.js:114-122 | with an article id and no cached number, the first call is the search for that article |
| `Handlers.InitializeFailure` | assets/github-comments.js:56-123 | whichever remote call fails, the container ends with only the generic message and nothing throws |
| `Widget.CommentsWidget.constructor` | assets/github-comments.js:4-6 | a page with the given container content, a hidden button and no call made |
| `Widget.CommentsWidget.SetHtml` | assets/github-comments.js:60 | the container holds exactly the given markup; nothing else changes |
| `Widget.CommentsWidget.Empty` | assets/github-comments.js:71 | the container is empty; nothing else changes |
| `Widget.CommentsWidget.ShowCommentButton` | assets/github-comments.js:8-12 | the button gets the issue's link and becomes visible; container and calls are unchanged |
| `Widget.CommentsWidget.RenderComment` | assets/github-comments.js:38-54 | exactly one fragment, the comment's, is appended after the existing ones; nothing else changes |
| `Widget.CommentsWidget.LoadCommentsForIssue` | assets/github-comments.js:56-76 | the page and the throw flag afterwards are exactly `Handlers.AfterLoadComments` of the page before |
| `Widget.CommentsWidget.SearchIssueNumber` | assets/github-comments.js:78-107 | the page and the throw flag afterwards are exactly `Handlers.AfterSearch` of the page before, including the comments call it may lead to |
| `Widget.CommentsWidget.Initialize` | assets/github-comments.js:109-123 | the page and the throw flag afterwards are exactly `Handlers.AfterInitialize` of the page before, with every call it leads to |

## Left out

- Network calls (`$.ajax`), their URLs and the scheduling of their callbacks are not modelled. Each call's result is a parameter. A call is logged as a `Request` value (search query, or issue), not as a URL string.
- `encodeURIComponent` on the search query is not modelled. `Handlers.SearchQuery` is the query before encoding.
- jQuery DOM calls are reduced to a fragment sequence, a button link and a visibility flag. The markup around a comment is left out. So are the avatar (`githubAvatarRegex`, whose optional group and array-to-string coercion have no clear contract) and the localised date with its unreachable `'N/A'` fallback, which depends on locale and time zone.
- `String(data)` coercion of non-string values is not modelled. The escaper takes a string.
- Dafny's `string` is a sequence of Unicode scalar values, not of UTF-16 code units. So `|s|` (for instance in `Escaping.EscapeLength`) counts code points, not the script's `.length`. Strings with lone surrogates cannot be represented.
- API values are typed. The search data is an object. `total_count` and `comments` are integers, where falsy means zero. `state` is a string. A comment always has its `user` object, with string `avatar_url` and `html_url`. A truthy comment response is a list of comments. Other shapes of JSON are not modelled, so neither are the TypeErrors they cause: `data.total_count` on null search data, `data.map` on a truthy non-array, and `.match` on a null `avatar_url` or `html_url`.
- `Values.Text` covers only whole numbers. JavaScript's exponent form for numbers of 10^21 or more, and fractional numbers, are not modelled.
- The null result of the profile-link filter is kept as `None`. Its text in the page (`"null"`) is not modelled.
- `Escaping.Unescape`, `Escaping.MatchEntity`, `Escaping.DecodeEntity`, `Links.LinkedIssue`, `Values.ParseNumber` and `Values.DigitsValue` are not in the script. They are inverses used only to state that escaping and link building lose nothing.
