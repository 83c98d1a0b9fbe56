/** `escapeHtml`: each of the five characters that are significant in HTML text and attribute
    values is replaced by a character reference (named references `&amp;`, `&lt;`, `&gt;`,
    `&quot;` and the decimal numeric reference `&#39;`, as in section 13.1.4 "Character
    references" of the WHATWG HTML Living Standard); every other character is kept. */
module Escape {
  import opened Strings

  /** The characters `escapeHtml` rewrites. */
  predicate IsSpecial(c: char) {
    c == '&' || c == '<' || c == '>' || c == '"' || c == '\''
  }

  /** A markup character that may never appear raw in escaped text (`&` may, as the start of a reference). */
  predicate IsRawMarkup(c: char) {
    c == '<' || c == '>' || c == '"' || c == '\''
  }

  /** `t` begins with one of the five references `escapeHtml` produces. */
  predicate StartsWithReference(t: string) {
    exists ref :: ref in References && StartsWith(t, ref)
  }

  /** The five references `escapeHtml` produces, which already differ in their second character. */
  const References: set<string> := {"&amp;", "&lt;", "&gt;", "&quot;", "&#39;"}

  /** Every `&` in `r` begins a reference. */
  predicate AmpersandsStartReferences(r: string) {
    forall i :: 0 <= i < |r| && r[i] == '&' ==> StartsWithReference(r[i..])
  }

  /** The replacement for one character. */
  function EscapeChar(c: char): (r: string)
    ensures IsSpecial(c) <==> r != [c]
    ensures IsSpecial(c) ==> |r| >= 4 && StartsWithReference(r) && forall i :: 1 <= i < |r| ==> r[i] != '&'
    ensures forall i :: 0 <= i < |r| ==> !IsRawMarkup(r[i])
  {
    match c
    case '&' => "&amp;"
    case '<' => "&lt;"
    case '>' => "&gt;"
    case '"' => "&quot;"
    case '\'' => "&#39;"
    case _ => [c]
  }

  /** `escapeHtml(s)`: the replacements of the characters of `s`, in order. */
  function EscapeHtml(s: string): (r: string)
    ensures forall i :: 0 <= i < |r| ==> !IsRawMarkup(r[i])
    ensures |r| >= |s|
  {
    if s == [] then [] else EscapeChar(s[0]) + EscapeHtml(s[1..])
  }

  /** Decoding the five references (and keeping all other text), as an HTML parser reads them. */
  function Unescape(r: string): (s: string)
    ensures |s| <= |r|
    decreases |r|
  {
    if r == [] then []
    else if StartsWith(r, "&amp;") then "&" + Unescape(r[5..])
    else if StartsWith(r, "&lt;") then "<" + Unescape(r[4..])
    else if StartsWith(r, "&gt;") then ">" + Unescape(r[4..])
    else if StartsWith(r, "&quot;") then "\"" + Unescape(r[6..])
    else if StartsWith(r, "&#39;") then "'" + Unescape(r[5..])
    else [r[0]] + Unescape(r[1..])
  }

  /** Escaping works character by character, so it distributes over concatenation. */
  lemma {:induction false} EscapeHtmlAppend(a: string, b: string)
    ensures EscapeHtml(a + b) == EscapeHtml(a) + EscapeHtml(b)
  {
    if a == [] {
      assert a + b == b;
    } else {
      assert (a + b)[0] == a[0];
      assert (a + b)[1..] == a[1..] + b;
      EscapeHtmlAppend(a[1..], b);
      calc {
        EscapeHtml(a + b);
        EscapeChar(a[0]) + EscapeHtml(a[1..] + b);
        EscapeChar(a[0]) + (EscapeHtml(a[1..]) + EscapeHtml(b));
        (EscapeChar(a[0]) + EscapeHtml(a[1..])) + EscapeHtml(b);
      }
    }
  }

  /** Escaping leaves a string unchanged exactly when none of its characters is special. */
  lemma {:induction false} EscapeHtmlFixedPoint(s: string)
    ensures EscapeHtml(s) == s <==> forall i :: 0 <= i < |s| ==> !IsSpecial(s[i])
  {
    if s != [] {
      EscapeHtmlFixedPoint(s[1..]);
      var e := EscapeChar(s[0]);
      if IsSpecial(s[0]) {
        assert |EscapeHtml(s)| >= |e| + |s| - 1 > |s|;
      } else {
        assert e == [s[0]];
        if EscapeHtml(s) == s {
          assert EscapeHtml(s)[1..] == EscapeHtml(s[1..]);
        }
        assert (forall i :: 0 <= i < |s| ==> !IsSpecial(s[i])) <==>
               (forall i :: 0 <= i < |s[1..]| ==> !IsSpecial(s[1..][i]));
        assert s == [s[0]] + s[1..];
      }
    }
  }

  /** Every `&` in escaped text begins one of the five references: together with the
      postcondition of `EscapeHtml`, no raw `& < > " '` is left outside a reference. */
  lemma {:induction false} EscapeHtmlAmpersandsStartReferences(s: string)
    ensures AmpersandsStartReferences(EscapeHtml(s))
  {
    if s != [] {
      EscapeHtmlAmpersandsStartReferences(s[1..]);
      var e, rest := EscapeChar(s[0]), EscapeHtml(s[1..]);
      var r := e + rest;
      forall i | 0 <= i < |r| && r[i] == '&'
        ensures StartsWithReference(r[i..])
      {
        if i < |e| {
          assert i == 0 && IsSpecial(s[0]);
          assert e in References;
          assert r[i..] == r;
          ReferencePrefix(e, rest);
          assert StartsWithReference(r[i..]);
        } else {
          var j := i - |e|;
          assert r[i] == rest[j] && r[i..] == rest[j..];
          assert 0 <= j < |rest| && rest[j] == '&';
          assert StartsWithReference(rest[j..]);
        }
      }
    }
  }

  /** A text that begins with the replacement of a special character begins with a reference. */
  lemma ReferencePrefix(e: string, t: string)
    requires e in References
    ensures StartsWithReference(e + t)
  {
    assert (e + t)[..|e|] == e;
  }

  /** A text that begins with one reference does not begin with another. */
  lemma NotOtherReference(ref: string, other: string, t: string)
    requires ref in References && other in References && ref != other
    ensures !StartsWith(ref + t, other)
  {
    assert (ref + t)[1] == ref[1];
  }

  /** Decoding a text that begins with a reference: the reference's character, then the rest. */
  lemma UnescapeReference(ref: string, c: char, t: string)
    requires ref in References && EscapeChar(c) == ref
    ensures Unescape(ref + t) == [c] + Unescape(t)
  {
    var r := ref + t;
    assert r[..|ref|] == ref && r[|ref|..] == t;
    forall other | other in References && other != ref
      ensures !StartsWith(r, other)
    {
      NotOtherReference(ref, other, t);
    }
  }

  /** Decoding one escaped character. */
  lemma UnescapeEscapeChar(c: char, t: string)
    ensures Unescape(EscapeChar(c) + t) == [c] + Unescape(t)
  {
    var e := EscapeChar(c);
    if IsSpecial(c) {
      assert e in References;
      UnescapeReference(e, c, t);
    } else {
      var r := e + t;
      assert r[0] == c && r[1..] == t;
      assert !StartsWithReference(r);
    }
  }

  /** Round trip: decoding the escaped text gives back the original string. */
  lemma {:induction false} UnescapeEscapeHtml(s: string)
    ensures Unescape(EscapeHtml(s)) == s
  {
    if s != [] {
      UnescapeEscapeHtml(s[1..]);
      UnescapeEscapeChar(s[0], EscapeHtml(s[1..]));
      assert s == [s[0]] + s[1..];
    }
  }

  /** Consequence of the round trip: distinct strings escape to distinct strings. */
  lemma EscapeHtmlInjective(a: string, b: string)
    requires EscapeHtml(a) == EscapeHtml(b)
    ensures a == b
  {
    UnescapeEscapeHtml(a);
    UnescapeEscapeHtml(b);
  }
}
