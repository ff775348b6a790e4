/**
 * What one comment of the API response becomes in the comments container.
 * The container is a sequence of fragments; the markup around the escaped
 * fields, the avatar and the localised date are not part of this model.
 */
module Rendering {
  import opened Wrappers
  import opened Escaping
  import opened Values
  import opened Links

  /** One element of the comments endpoint's response, with the fields the widget reads. */
  datatype Comment = Comment(login: string, avatarUrl: string, htmlUrl: string, body: string, createdAt: string)

  /** A fragment of the container: literal markup given by the script, or a rendered comment. */
  datatype Fragment =
    | Markup(html: string)
    | Card(profileLink: Option<string>, login: string, body: string)

  /**
   * The fragment for one comment: the profile link passed through the
   * profile-link filter, the login and the body escaped.
   */
  function CommentFragment(c: Comment): (f: Fragment)
    ensures f.Card?
    ensures Inert(f.login) && Inert(f.body)
    ensures Unescape(f.login) == c.login && Unescape(f.body) == c.body
    ensures f.profileLink.Some? ==> GithubUrl <= f.profileLink.value
    ensures f.profileLink.Some? ==>
      forall i :: |GithubUrl| <= i < |f.profileLink.value| ==> IsUserChar(f.profileLink.value[i])
    ensures f.profileLink.None? <==> forall j :: 0 <= j <= |c.htmlUrl| ==> !OccursAt(c.htmlUrl, GithubUrl, j)
  {
    UnescapeEscape(c.login);
    UnescapeEscape(c.body);
    Card(MatchProfileLink(c.htmlUrl), EscapeHtmlContent(c.login), EscapeHtmlContent(c.body))
  }

  /** The fragments for a whole response: one per comment, in response order. */
  function Fragments(cs: seq<Comment>): (r: seq<Fragment>)
    ensures |r| == |cs|
    ensures forall i :: 0 <= i < |cs| ==> r[i] == CommentFragment(cs[i])
  {
    if cs == [] then []
    else [CommentFragment(cs[0])] + Fragments(cs[1..])
  }

  /** Rendering a response in two parts renders each part in turn. */
  lemma FragmentsConcat(a: seq<Comment>, b: seq<Comment>)
    ensures Fragments(a + b) == Fragments(a) + Fragments(b)
  {
    var whole, parts := Fragments(a + b), Fragments(a) + Fragments(b);
    forall i | 0 <= i < |whole|
      ensures whole[i] == parts[i]
    {
      if i < |a| {
        assert (a + b)[i] == a[i];
      } else {
        assert (a + b)[i] == b[i - |a|];
      }
    }
  }
}
