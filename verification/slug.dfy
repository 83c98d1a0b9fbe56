/** `humanizeSlug`, which turns an activity slug into a page title:
    whitespace runs become `-`, the text is lower-cased, everything but `a-z`, `0-9` and `-` is
    dropped, the rest is split on `-`, empty pieces are dropped, each piece is capitalised and
    the pieces are joined with single spaces. */
module Slug {
  import opened Strings
  import opened Seqs

  /** A character matched by `\s` in a JavaScript regular expression. */
  predicate IsJsWhitespace(c: char) {
    c == ' ' || c == '\t' || c == '\n' || c == '\r' || c == '\U{000B}' || c == '\U{000C}' ||
    c == '\U{00A0}' || c == '\U{1680}' || ('\U{2000}' <= c <= '\U{200A}') ||
    c == '\U{2028}' || c == '\U{2029}' || c == '\U{202F}' || c == '\U{205F}' ||
    c == '\U{3000}' || c == '\U{FEFF}'
  }

  predicate IsLowerAscii(c: char) { 'a' <= c <= 'z' }
  predicate IsUpperAscii(c: char) { 'A' <= c <= 'Z' }
  predicate IsDigit(c: char) { '0' <= c <= '9' }

  /** The characters the second `replace` keeps: `[a-z0-9\-]`. */
  predicate IsSlugChar(c: char) { IsLowerAscii(c) || IsDigit(c) || c == '-' }

  /** `s` with its leading whitespace removed. */
  function DropWhitespace(s: string): (r: string)
    ensures r == [] || !IsJsWhitespace(r[0])
    ensures |r| <= |s|
  {
    if s != [] && IsJsWhitespace(s[0]) then DropWhitespace(s[1..]) else s
  }

  /** `s.replace(/\s+/g, '-')`: every maximal run of whitespace becomes one `-`. */
  function HyphenateWhitespace(s: string): (r: string)
    ensures forall i :: 0 <= i < |r| ==> !IsJsWhitespace(r[i])
    decreases |s|
  {
    if s == [] then []
    else if IsJsWhitespace(s[0]) then "-" + HyphenateWhitespace(DropWhitespace(s[1..]))
    else [s[0]] + HyphenateWhitespace(s[1..])
  }

  /** A run of whitespace followed by text that does not start with whitespace is dropped whole. */
  lemma {:induction false} DropWhitespaceRun(w: string, b: string)
    requires forall i :: 0 <= i < |w| ==> IsJsWhitespace(w[i])
    requires b == [] || !IsJsWhitespace(b[0])
    ensures DropWhitespace(w + b) == b
  {
    if w == [] {
      assert w + b == b;
    } else {
      assert (w + b)[1..] == w[1..] + b;
      DropWhitespaceRun(w[1..], b);
    }
  }

  /** Text without whitespace is kept as it is. */
  lemma {:induction false} HyphenateKeepsPlainText(s: string)
    requires forall i :: 0 <= i < |s| ==> !IsJsWhitespace(s[i])
    ensures HyphenateWhitespace(s) == s
  {
    HyphenateAppend(s, []);
    assert s + [] == s;
  }

  /** A maximal run of whitespace becomes exactly one `-`; the text before it is kept. */
  lemma {:induction false} HyphenateRun(a: string, w: string, b: string)
    requires forall i :: 0 <= i < |a| ==> !IsJsWhitespace(a[i])
    requires w != [] && forall i :: 0 <= i < |w| ==> IsJsWhitespace(w[i])
    requires b == [] || !IsJsWhitespace(b[0])
    ensures HyphenateWhitespace(a + w + b) == a + "-" + HyphenateWhitespace(b)
  {
    var hb := HyphenateWhitespace(b);
    calc {
      HyphenateWhitespace(a + w + b);
      { assert a + w + b == a + (w + b); }
      HyphenateWhitespace(a + (w + b));
      { HyphenateAppend(a, w + b); }
      a + HyphenateWhitespace(w + b);
      { HyphenateLeadingRun(w, b); }
      a + ("-" + hb);
    }
  }

  /** A leading run of whitespace becomes one `-`. */
  lemma {:induction false} HyphenateLeadingRun(w: string, b: string)
    requires w != [] && forall i :: 0 <= i < |w| ==> IsJsWhitespace(w[i])
    requires b == [] || !IsJsWhitespace(b[0])
    ensures HyphenateWhitespace(w + b) == "-" + HyphenateWhitespace(b)
  {
    var wb := w + b;
    assert wb[0] == w[0] && wb[1..] == w[1..] + b;
    DropWhitespaceRun(w[1..], b);
  }

  /** `toLowerCase()` of one character. Besides `A`-`Z`, only the Kelvin sign and the capital I
      with dot above lower-case to text containing ASCII letters; every other character is kept
      here, which differs from JavaScript only on characters the next step removes anyway
      (their lower-case forms are not ASCII). */
  function LowerChar(c: char): (r: string)
    ensures IsUpperAscii(c) ==> r == [c - 'A' + 'a']
    ensures !IsUpperAscii(c) && c != '\U{212A}' && c != '\U{0130}' ==> r == [c]
  {
    if IsUpperAscii(c) then [c - 'A' + 'a']
    else if c == '\U{212A}' then "k"
    else if c == '\U{0130}' then "i\U{0307}"
    else [c]
  }

  /** `toLowerCase()` */
  function Lower(s: string): string {
    if s == [] then [] else LowerChar(s[0]) + Lower(s[1..])
  }

  /** Lower-cased text holds no upper-case ASCII letter. */
  lemma {:induction false} LowerHasNoUpperCase(s: string)
    ensures forall i :: 0 <= i < |Lower(s)| ==> !IsUpperAscii(Lower(s)[i])
  {
    if s != [] {
      LowerHasNoUpperCase(s[1..]);
      var c, r := LowerChar(s[0]), Lower(s[1..]);
      assert Lower(s) == c + r;
      forall i | 0 <= i < |c + r| ensures !IsUpperAscii((c + r)[i]) {
        if i >= |c| { assert (c + r)[i] == r[i - |c|]; }
      }
    }
  }

  /** `w.charAt(0).toUpperCase() + w.slice(1)` for a piece made of `[a-z0-9]`. */
  function Capitalize(w: string): (r: string)
    ensures |r| == |w|
    ensures |w| > 0 ==> r[0] == (if IsLowerAscii(w[0]) then w[0] - 'a' + 'A' else w[0]) && r[1..] == w[1..]
  {
    if w == [] then []
    else [if IsLowerAscii(w[0]) then w[0] - 'a' + 'A' else w[0]] + w[1..]
  }

  /** `.map(w => ...)` with `Capitalize`. */
  function CapitalizeAll(ws: seq<string>): (r: seq<string>)
    ensures |r| == |ws| && forall i :: 0 <= i < |ws| ==> r[i] == Capitalize(ws[i])
  {
    if ws == [] then [] else [Capitalize(ws[0])] + CapitalizeAll(ws[1..])
  }

  /** `Boolean` used as a filter on strings. */
  predicate NonEmpty(w: string) { w != "" }

  /** The non-empty pieces of the slug, each made of `[a-z0-9]`. */
  function Words(s: string): (ws: seq<string>)
    ensures forall w :: w in ws ==> IsSlugWord(w)
  {
    var kept := Filter(IsSlugChar, Lower(HyphenateWhitespace(s)));
    var ws := Filter(NonEmpty, Split(kept, '-'));
    assert forall w :: w in ws ==> IsSlugWord(w) by {
      forall w | w in ws ensures IsSlugWord(w) {
        var parts := Split(kept, '-');
        var i :| 0 <= i < |parts| && parts[i] == w;
        assert forall j :: 0 <= j < |w| ==> w[j] in kept by {
          forall j | 0 <= j < |w| ensures w[j] in kept { SplitPieceChars(kept, '-', i, j); }
        }
      }
    }
    ws
  }

  /** A piece of a split is made of characters of the split string. */
  lemma {:induction false} SplitPieceChars(s: string, sep: char, i: nat, j: nat)
    requires i < |Split(s, sep)| && j < |Split(s, sep)[i]|
    ensures Split(s, sep)[i][j] in s
  {
    if s != [] {
      var rest := Split(s[1..], sep);
      if s[0] == sep {
        assert Split(s, sep) == [""] + rest;
        SplitPieceChars(s[1..], sep, i - 1, j);
      } else if i == 0 && j == 0 {
      } else if i == 0 {
        SplitPieceChars(s[1..], sep, 0, j - 1);
      } else {
        SplitPieceChars(s[1..], sep, i, j);
      }
    }
  }

  /** A word of a slug after the character filter: non-empty, made of `[a-z0-9]`. */
  predicate IsSlugWord(w: string) {
    w != [] && forall i :: 0 <= i < |w| ==> IsLowerAscii(w[i]) || IsDigit(w[i])
  }

  /** `humanizeSlug(s)` */
  function HumanizeSlug(s: string): (r: string)
    ensures IsTitle(r)
  {
    var ws := Words(s);
    CapitalizedWordsAreTitle(ws);
    Join(CapitalizeAll(ws), " ")
  }

  /** What a humanized slug looks like: only ASCII letters, digits and spaces; no leading,
      trailing or doubled space; each word begins with an upper-case letter or a digit and
      continues with lower-case letters and digits. */
  predicate IsTitle(r: string) {
    && (forall i :: 0 <= i < |r| ==> IsUpperAscii(r[i]) || IsLowerAscii(r[i]) || IsDigit(r[i]) || r[i] == ' ')
    && (r != [] ==> r[0] != ' ' && r[|r| - 1] != ' ' && !IsLowerAscii(r[0]))
    && (forall i :: 0 < i < |r| && r[i] == ' ' ==> r[i - 1] != ' ')
    && (forall i :: 0 < i < |r| && r[i - 1] == ' ' ==> !IsLowerAscii(r[i]))
    && (forall i :: 0 < i < |r| && r[i - 1] != ' ' ==> !IsUpperAscii(r[i]))
  }

  /** A capitalised slug word is a one-word title. */
  predicate IsTitleWord(w: string) {
    w != [] && IsTitle(w) && forall i :: 0 <= i < |w| ==> w[i] != ' '
  }

  lemma {:induction false} CapitalizeIsTitleWord(w: string)
    requires IsSlugWord(w)
    ensures IsTitleWord(Capitalize(w))
  {
    var c := Capitalize(w);
    assert IsLowerAscii(w[0]) || IsDigit(w[0]);
    assert IsUpperAscii(c[0]) || IsDigit(c[0]);
    assert forall i :: 0 < i < |c| ==> IsLowerAscii(c[i]) || IsDigit(c[i]) by {
      forall i | 0 < i < |c| ensures IsLowerAscii(c[i]) || IsDigit(c[i]) {
        assert c[i] == c[1..][i - 1] == w[1..][i - 1] == w[i];
      }
    }
    assert forall i :: 0 <= i < |c| ==> c[i] != ' ';
    assert forall i :: 0 <= i < |c| ==> IsUpperAscii(c[i]) || IsLowerAscii(c[i]) || IsDigit(c[i]);
  }

  /** The characters of `w + " " + t`, by position. */
  lemma SpaceJoinAt(w: string, t: string)
    ensures var r := w + " " + t;
      |r| == |w| + 1 + |t| &&
      forall i :: 0 <= i < |r| ==> r[i] == (if i < |w| then w[i] else if i == |w| then ' ' else t[i - |w| - 1])
  {
  }

  /** A title word, a space and a non-empty title form a title. */
  lemma SpaceJoinTitle(w: string, t: string)
    requires IsTitleWord(w) && IsTitle(t) && t != []
    ensures IsTitle(w + " " + t)
  {
    var r := w + " " + t;
    SpaceJoinAt(w, t);
    forall i | 0 < i < |r| && r[i - 1] == ' ' ensures !IsLowerAscii(r[i]) {
      if i > |w| + 1 {
        assert r[i] == t[i - |w| - 1] && r[i - 1] == t[i - |w| - 2];
      }
    }
    forall i | 0 < i < |r| && r[i - 1] != ' ' ensures !IsUpperAscii(r[i]) {
      if i > |w| + 1 {
        assert r[i] == t[i - |w| - 1] && r[i - 1] == t[i - |w| - 2];
      }
    }
    forall i | 0 < i < |r| && r[i] == ' ' ensures r[i - 1] != ' ' {
      if i > |w| + 1 {
        assert r[i] == t[i - |w| - 1] && r[i - 1] == t[i - |w| - 2];
      }
    }
  }

  /** Joining title words with single spaces gives a title. */
  lemma {:induction false} JoinTitleWords(ws: seq<string>)
    requires forall i :: 0 <= i < |ws| ==> IsTitleWord(ws[i])
    ensures IsTitle(Join(ws, " "))
  {
    if |ws| > 1 {
      JoinTitleWords(ws[1..]);
      var t := Join(ws[1..], " ");
      assert t != [] by { assert |ws[1..]| > 1 ==> t == ws[1] + " " + Join(ws[2..], " "); }
      SpaceJoinTitle(ws[0], t);
    }
  }

  lemma CapitalizedWordsAreTitle(ws: seq<string>)
    requires forall w :: w in ws ==> IsSlugWord(w)
    ensures IsTitle(Join(CapitalizeAll(ws), " "))
  {
    var cs := CapitalizeAll(ws);
    forall i | 0 <= i < |cs| ensures IsTitleWord(cs[i]) {
      assert ws[i] in ws;
      CapitalizeIsTitleWord(ws[i]);
    }
    JoinTitleWords(cs);
  }

  /** `humanizeSlug(s) || 'Activity'`: the title of an activity page. */
  function ActivityTitle(slug: string): (title: string)
    ensures title != [] && IsTitle(title)
    ensures HumanizeSlug(slug) != [] ==> title == HumanizeSlug(slug)
    ensures HumanizeSlug(slug) == [] ==> title == "Activity"
  {
    var h := HumanizeSlug(slug);
    assert "Activity" == Capitalize("activity");
    assert IsSlugWord("activity") by {
      var a := "activity";
      assert forall i :: 0 <= i < |a| ==> IsLowerAscii(a[i]) by {
        forall i | 0 <= i < |a| ensures IsLowerAscii(a[i]) {
          assert a[i] in {'a', 'c', 't', 'i', 'v', 'y'};
        }
      }
    }
    CapitalizeIsTitleWord("activity");
    if h == [] then "Activity" else h
  }

  // ------------------------------------------------ words of a canonical slug, idempotence

  lemma {:induction false} HyphenateAppend(a: string, b: string)
    requires forall i :: 0 <= i < |a| ==> !IsJsWhitespace(a[i])
    ensures HyphenateWhitespace(a + b) == a + HyphenateWhitespace(b)
  {
    if a == [] {
      assert a + b == b;
    } else {
      HyphenateAppend(a[1..], b);
      assert (a + b)[1..] == a[1..] + b;
      assert a == [a[0]] + a[1..];
    }
  }

  /** Single spaces between non-empty words without whitespace become hyphens. */
  lemma {:induction false} HyphenateJoin(cs: seq<string>)
    requires forall i :: 0 <= i < |cs| ==> cs[i] != [] && forall j :: 0 <= j < |cs[i]| ==> !IsJsWhitespace(cs[i][j])
    ensures HyphenateWhitespace(Join(cs, " ")) == Join(cs, "-")
  {
    if |cs| == 1 {
      HyphenateAppend(cs[0], []);
      assert cs[0] + [] == cs[0];
    } else if |cs| > 1 {
      var t := Join(cs[1..], " ");
      HyphenateJoin(cs[1..]);
      assert t != [] && t[0] == cs[1][0] by {
        if |cs| > 2 { assert t == cs[1] + " " + Join(cs[2..], " "); }
      }
      assert (" " + t)[1..] == t;
      assert HyphenateWhitespace(" " + t) == "-" + HyphenateWhitespace(t);
      HyphenateAppend(cs[0], " " + t);
      assert Join(cs, " ") == cs[0] + (" " + t);
    }
  }

  lemma {:induction false} LowerAppend(a: string, b: string)
    ensures Lower(a + b) == Lower(a) + Lower(b)
  {
    if a == [] {
      assert a + b == b;
    } else {
      var ab := a + b;
      assert ab != [] && ab[0] == a[0] && ab[1..] == a[1..] + b;
      LowerAppend(a[1..], b);
      var c, x, y := LowerChar(a[0]), Lower(a[1..]), Lower(b);
      assert Lower(ab) == c + Lower(ab[1..]);
      assert Lower(ab[1..]) == x + y;
      assert Lower(a) == c + x;
      assert c + (x + y) == (c + x) + y;
    }
  }

  /** Text made of slug characters is already lower case. */
  lemma {:induction false} LowerSlugText(x: string)
    requires forall i :: 0 <= i < |x| ==> IsSlugChar(x[i])
    ensures Lower(x) == x
  {
    if x != [] {
      LowerSlugText(x[1..]);
      assert x == [x[0]] + x[1..];
    }
  }

  /** Lower-casing a capitalised slug word gives the word back. */
  lemma {:induction false} LowerCapitalized(w: string)
    requires IsSlugWord(w)
    ensures Lower(Capitalize(w)) == w
  {
    var c := Capitalize(w);
    LowerSlugText(w[1..]);
    assert c[1..] == w[1..];
    assert w == [w[0]] + w[1..];
  }

  /** Lower-casing two pieces joined by a hyphen lower-cases each piece. */
  lemma {:induction false} LowerHyphenated(a: string, b: string)
    ensures Lower(a + ("-" + b)) == Lower(a) + "-" + Lower(b)
  {
    assert Lower("-") == "-" by { assert "-"[0] == '-' && "-"[1..] == []; }
    LowerAppend("-", b);
    LowerAppend(a, "-" + b);
  }

  /** A join of at least two pieces: the first piece, the separator, then the join of the rest. */
  lemma JoinCons(parts: seq<string>, sep: string)
    requires |parts| > 1
    ensures Join(parts, sep) == parts[0] + (sep + Join(parts[1..], sep))
  {
  }

  lemma {:induction false} LowerJoinCapitalized(ws: seq<string>)
    requires forall w :: w in ws ==> IsSlugWord(w)
    ensures Lower(Join(CapitalizeAll(ws), "-")) == Join(ws, "-")
  {
    if ws != [] {
      var cs := CapitalizeAll(ws);
      assert Lower(cs[0]) == ws[0] by { assert ws[0] in ws; LowerCapitalized(ws[0]); }
      if |ws| > 1 {
        var tail := Join(cs[1..], "-");
        assert cs[1..] == CapitalizeAll(ws[1..]);
        assert Lower(tail) == Join(ws[1..], "-") by { LowerJoinCapitalized(ws[1..]); }
        JoinCons(cs, "-");
        JoinCons(ws, "-");
        LowerHyphenated(cs[0], tail);
      }
    }
  }

  /** Every character of a hyphen-joined list of slug words is a slug character. */
  lemma {:induction false} JoinSlugChars(ws: seq<string>)
    requires forall w :: w in ws ==> IsSlugWord(w)
    ensures forall i :: 0 <= i < |Join(ws, "-")| ==> IsSlugChar(Join(ws, "-")[i])
  {
    if |ws| == 1 {
      assert ws[0] in ws;
    } else if |ws| > 1 {
      assert ws[0] in ws;
      JoinSlugChars(ws[1..]);
      var w, t := ws[0], Join(ws[1..], "-");
      assert forall i :: 0 <= i < |w + "-" + t| ==>
        (w + "-" + t)[i] == (if i < |w| then w[i] else if i == |w| then '-' else t[i - |w| - 1]);
    }
  }

  /** When the first two steps give the hyphen-joined words, the words come back out. */
  lemma WordsFromJoin(x: string, ws: seq<string>)
    requires forall w :: w in ws ==> IsSlugWord(w)
    requires Lower(HyphenateWhitespace(x)) == Join(ws, "-")
    ensures Words(x) == ws
  {
    var joined := Join(ws, "-");
    JoinSlugChars(ws);
    FilterAll(IsSlugChar, joined);
    if ws == [] {
      assert Split(joined, '-') == [""];
    } else {
      forall i | 0 <= i < |ws| ensures '-' !in ws[i] {
        assert ws[i] in ws;
      }
      SplitJoin(ws, '-');
      FilterAll(NonEmpty, ws);
    }
  }

  /** A slug already written as lower-case words joined by hyphens humanizes to those words,
      capitalised and joined by spaces. */
  lemma HumanizeCanonicalSlug(ws: seq<string>)
    requires forall w :: w in ws ==> IsSlugWord(w)
    ensures HumanizeSlug(Join(ws, "-")) == Join(CapitalizeAll(ws), " ")
  {
    var x := Join(ws, "-");
    JoinSlugChars(ws);
    forall i | 0 <= i < |x| ensures !IsJsWhitespace(x[i]) { assert IsSlugChar(x[i]); }
    HyphenateAppend(x, []);
    assert x + [] == x;
    LowerSlugText(x);
    WordsFromJoin(x, ws);
  }

  /** ASCII letters and digits are not whitespace. */
  lemma AlphanumericNotWhitespace(c: char)
    requires IsUpperAscii(c) || IsLowerAscii(c) || IsDigit(c)
    ensures !IsJsWhitespace(c)
  {
  }

  /** Capitalised slug words are non-empty and hold no whitespace. */
  lemma CapitalizedWordsHaveNoWhitespace(ws: seq<string>)
    requires forall w :: w in ws ==> IsSlugWord(w)
    ensures forall i :: 0 <= i < |CapitalizeAll(ws)| ==> CapitalizeAll(ws)[i] != []
    ensures forall i, j :: 0 <= i < |CapitalizeAll(ws)| && 0 <= j < |CapitalizeAll(ws)[i]| ==>
      !IsJsWhitespace(CapitalizeAll(ws)[i][j])
  {
    var cs := CapitalizeAll(ws);
    forall i, j | 0 <= i < |cs| && 0 <= j < |cs[i]|
      ensures cs[i] != [] && !IsJsWhitespace(cs[i][j])
    {
      assert ws[i] in ws;
      CapitalizeIsTitleWord(ws[i]);
      AlphanumericNotWhitespace(cs[i][j]);
    }
    forall i | 0 <= i < |cs| ensures cs[i] != [] {
      assert ws[i] in ws;
    }
  }

  /** The words of a title are its words lower-cased: "Rain Forest" gives `rain`, `forest`. */
  lemma {:induction false} WordsOfTitle(ws: seq<string>)
    requires forall w :: w in ws ==> IsSlugWord(w)
    ensures Words(Join(CapitalizeAll(ws), " ")) == ws
  {
    var cs := CapitalizeAll(ws);
    CapitalizedWordsHaveNoWhitespace(ws);
    HyphenateJoin(cs);
    LowerJoinCapitalized(ws);
    WordsFromJoin(Join(cs, " "), ws);
  }

  /** Slug words separated by spaces give back those words: "rain forest" gives `rain`, `forest`. */
  lemma {:induction false} WordsOfSpacedWords(ws: seq<string>)
    requires forall w :: w in ws ==> IsSlugWord(w)
    ensures Words(Join(ws, " ")) == ws
  {
    forall i, j | 0 <= i < |ws| && 0 <= j < |ws[i]| ensures !IsJsWhitespace(ws[i][j]) {
      assert ws[i] in ws;
    }
    forall i | 0 <= i < |ws| ensures ws[i] != [] {
      assert ws[i] in ws;
    }
    HyphenateJoin(ws);
    JoinSlugChars(ws);
    LowerSlugText(Join(ws, "-"));
    WordsFromJoin(Join(ws, " "), ws);
  }

  /** Humanizing a title produced by `HumanizeSlug` changes nothing. */
  lemma HumanizeSlugIdempotent(s: string)
    ensures HumanizeSlug(HumanizeSlug(s)) == HumanizeSlug(s)
  {
    WordsOfTitle(Words(s));
  }
}
