/**
 * The HTML escaper of the comments widget: every character of the class
 * [&<>"'`=/] is replaced by its entity from a fixed table of eight entries,
 * every other character is copied, left to right.
 */
module Escaping {
  import opened Wrappers

  /** The characters matched by the escaper's regular-expression class. */
  const SpecialChars: set<char> := {'&', '<', '>', '"', '\'', '`', '=', '/'}

  /** The entity table, entry by entry. */
  const EntityMap: map<char, string> := map[
    '&' := "&amp;",
    '<' := "&lt;",
    '>' := "&gt;",
    '"' := "&quot;",
    '\'' := "&#39;",
    '/' := "&#x2F;",
    '`' := "&#x60;",
    '=' := "&#x3D;"
  ]

  /** The table's keys in the order they are written. */
  const TableOrder: seq<char> := ['&', '<', '>', '"', '\'', '/', '`', '=']

  /** The characters that are significant in markup and must never survive escaping. */
  const Dangerous: set<char> := SpecialChars - {'&'}

  /** True when `t` holds no character significant in markup. */
  predicate Inert(t: string)
  {
    forall i :: 0 <= i < |t| ==> t[i] !in Dangerous
  }

  /** The table covers the whole character class, so a lookup never yields `undefined`. */
  lemma TableCoversClass()
    ensures EntityMap.Keys == SpecialChars
    ensures forall k :: 0 <= k < |TableOrder| ==> TableOrder[k] in EntityMap
    ensures forall c :: c in EntityMap ==> c in TableOrder
  {
  }

  /** Shape of the entities: each starts with `&`, ends with its only `;`, has no other `&`,
      and holds no dangerous character. */
  lemma EntityShape(c: char)
    requires c in SpecialChars
    ensures |EntityMap[c]| >= 4 && EntityMap[c][0] == '&'
    ensures EntityMap[c][|EntityMap[c]| - 1] == ';'
    ensures forall j :: 0 <= j < |EntityMap[c]| - 1 ==> EntityMap[c][j] != ';'
    ensures forall j :: 0 <= j < |EntityMap[c]| ==> EntityMap[c][j] !in Dangerous
    ensures forall j :: 0 < j < |EntityMap[c]| ==> EntityMap[c][j] != '&'
  {
  }

  /** Different characters have different entities. */
  lemma EntityInjective(c: char, d: char)
    requires c in SpecialChars && d in SpecialChars && EntityMap[c] == EntityMap[d]
    ensures c == d
  {
  }

  /** No entity is a prefix of a different entity. */
  lemma EntitiesPrefixFree(c: char, d: char)
    requires c in SpecialChars && d in SpecialChars && EntityMap[c] <= EntityMap[d]
    ensures c == d
  {
    EntityShape(c);
    EntityShape(d);
    var n := |EntityMap[c]|;
    assert EntityMap[d][n - 1] == ';';
    assert n == |EntityMap[d]|;
    assert EntityMap[c] == EntityMap[d];
    EntityInjective(c, d);
  }

  /** Two entities that both begin the same string are the same entity. */
  lemma SameStart(c: char, d: char, t: string)
    requires c in SpecialChars && d in SpecialChars
    requires EntityMap[c] <= t && EntityMap[d] <= t
    ensures c == d
  {
    if |EntityMap[c]| <= |EntityMap[d]| {
      assert EntityMap[c] <= EntityMap[d];
      EntitiesPrefixFree(c, d);
    } else {
      assert EntityMap[d] <= EntityMap[c];
      EntitiesPrefixFree(d, c);
    }
  }

  /** What one character becomes: its entity when it is in the class, itself otherwise. */
  function EscapeChar(c: char): string
  {
    if c in SpecialChars then EntityMap[c] else [c]
  }

  /** The escaper, applied to the string form of its argument. */
  function EscapeHtmlContent(s: string): (r: string)
    ensures |r| >= |s|
    ensures Inert(r)
  {
    if s == [] then []
    else
      var head := EscapeChar(s[0]);
      var tail := EscapeHtmlContent(s[1..]);
      assert forall j :: 0 <= j < |head| ==> head[j] !in Dangerous by {
        if s[0] in SpecialChars { EntityShape(s[0]); }
      }
      assert forall i :: 0 <= i < |head + tail| ==>
        (head + tail)[i] == if i < |head| then head[i] else tail[i - |head|];
      head + tail
  }

  /** Escaping works character by character: it distributes over concatenation. */
  lemma {:induction false} EscapeConcat(a: string, b: string)
    ensures EscapeHtmlContent(a + b) == EscapeHtmlContent(a) + EscapeHtmlContent(b)
  {
    if a == [] {
      assert a + b == b;
    } else {
      assert (a + b)[0] == a[0];
      assert (a + b)[1..] == a[1..] + b;
      EscapeConcat(a[1..], b);
    }
  }

  /** A single character becomes exactly its table entry, or itself when outside the class. */
  lemma EscapeSingle(c: char)
    ensures c in SpecialChars ==> EscapeHtmlContent([c]) == EntityMap[c]
    ensures c !in SpecialChars ==> EscapeHtmlContent([c]) == [c]
  {
  }

  /** A string with no character of the class is copied unchanged. */
  lemma {:induction false} EscapePlain(s: string)
    requires forall i :: 0 <= i < |s| ==> s[i] !in SpecialChars
    ensures EscapeHtmlContent(s) == s
  {
    if s != [] {
      EscapePlain(s[1..]);
      assert s == [s[0]] + s[1..];
    }
  }

  /** The output is as long as the input exactly when the input has no character of the class. */
  lemma {:induction false} EscapeLength(s: string)
    ensures |EscapeHtmlContent(s)| == |s| <==> forall i :: 0 <= i < |s| ==> s[i] !in SpecialChars
  {
    if s != [] {
      EscapeLength(s[1..]);
      if s[0] in SpecialChars { EntityShape(s[0]); }
      assert forall i :: 1 <= i < |s| ==> s[i] == s[1..][i - 1];
    }
  }

  /** True when `t` begins with one of the eight entities. */
  ghost predicate BeginsEntity(t: string)
  {
    exists c :: c in SpecialChars && EntityMap[c] <= t
  }

  /** Every `&` in the output begins one of the eight entities. */
  lemma {:induction false} EscapeAmpersands(s: string)
    ensures forall i :: 0 <= i < |EscapeHtmlContent(s)| && EscapeHtmlContent(s)[i] == '&' ==>
      BeginsEntity(EscapeHtmlContent(s)[i..])
  {
    if s != [] {
      var head := EscapeChar(s[0]);
      var tail := EscapeHtmlContent(s[1..]);
      var r := EscapeHtmlContent(s);
      assert r == head + tail;
      EscapeAmpersands(s[1..]);
      forall i | 0 <= i < |r| && r[i] == '&'
        ensures BeginsEntity(r[i..])
      {
        if i < |head| {
          assert head[i] == '&';
          assert s[0] in SpecialChars;
          EntityShape(s[0]);
          assert i == 0;
          assert EntityMap[s[0]] <= r[i..];
        } else {
          assert tail[i - |head|] == '&';
          assert r[i..] == tail[i - |head|..];
        }
      }
    }
  }

  /** The first table entry, in table order, whose entity begins `t`. */
  function MatchEntity(t: string, keys: seq<char>): (r: Option<char>)
    requires forall k :: 0 <= k < |keys| ==> keys[k] in SpecialChars
    ensures r.Some? ==> r.value in SpecialChars && EntityMap[r.value] <= t
    ensures r.None? ==> forall k :: 0 <= k < |keys| ==> !(EntityMap[keys[k]] <= t)
  {
    if keys == [] then None
    else if EntityMap[keys[0]] <= t then Some(keys[0])
    else MatchEntity(t, keys[1..])
  }

  /** Decodes the entity at the start of `t`, if there is one. */
  function DecodeEntity(t: string): (r: Option<char>)
    ensures r.Some? ==> r.value in SpecialChars && EntityMap[r.value] <= t
    ensures r.None? <==> !BeginsEntity(t)
  {
    TableCoversClass();
    var r := MatchEntity(t, TableOrder);
    assert r.None? ==> !BeginsEntity(t);
    r
  }

  /** The inverse of the escaper: each entity is turned back into its character. */
  function Unescape(t: string): string
    decreases |t|
  {
    if t == [] then []
    else
      match DecodeEntity(t)
      case Some(c) =>
        EntityShape(c);
        [c] + Unescape(t[|EntityMap[c]|..])
      case None => [t[0]] + Unescape(t[1..])
  }

  /** An entity followed by anything decodes to the character it stands for. */
  lemma DecodeAfterEntity(c: char, rest: string)
    requires c in SpecialChars
    ensures DecodeEntity(EntityMap[c] + rest) == Some(c)
  {
    var t := EntityMap[c] + rest;
    assert EntityMap[c] <= t;
    var r := DecodeEntity(t);
    assert BeginsEntity(t);
    SameStart(c, r.value, t);
  }

  /** A plain character followed by anything does not begin an entity. */
  lemma DecodeAfterPlain(c: char, rest: string)
    requires c !in SpecialChars
    ensures DecodeEntity([c] + rest) == None
  {
    var t := [c] + rest;
    forall d | d in SpecialChars
      ensures !(EntityMap[d] <= t)
    {
      EntityShape(d);
      assert t[0] == c;
    }
  }

  /** Escaping is reversible: unescaping the output gives back the input. */
  lemma {:induction false} UnescapeEscape(s: string)
    ensures Unescape(EscapeHtmlContent(s)) == s
  {
    if s != [] {
      var c := s[0];
      var tail := EscapeHtmlContent(s[1..]);
      UnescapeEscape(s[1..]);
      if c in SpecialChars {
        EntityShape(c);
        DecodeAfterEntity(c, tail);
        assert (EntityMap[c] + tail)[|EntityMap[c]|..] == tail;
      } else {
        DecodeAfterPlain(c, tail);
        assert ([c] + tail)[1..] == tail;
      }
      assert s == [c] + s[1..];
    }
  }

  /** Two strings with the same escaped form are equal. */
  lemma EscapeInjective(a: string, b: string)
    requires EscapeHtmlContent(a) == EscapeHtmlContent(b)
    ensures a == b
  {
    UnescapeEscape(a);
    UnescapeEscape(b);
  }
}
