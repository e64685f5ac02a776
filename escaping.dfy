/** The two escaping rules of the application: HTML entities (used on the project title
    read from `index.html`) and the escaping of values written into an Inno Setup script. */
module Escaping {
  import opened Text

  // ---------------------------------------------------------------------------
  // HTML

  /** `escape_html`: five chained replacements, `&` first. */
  function EscapeHtml(s: string): string
  {
    Replace(Replace(Replace(Replace(Replace(s, "&", "&amp;"), ">", "&gt;"), "<", "&lt;"), "'", "&apos;"), "\"", "&quot;")
  }

  /** `unescape_html`: five chained replacements, `&amp;` last. */
  function UnescapeHtml(s: string): string
  {
    Replace(Replace(Replace(Replace(Replace(s, "&quot;", "\""), "&apos;", "'"), "&lt;", "<"), "&gt;", ">"), "&amp;", "&")
  }

  /** What escaping makes of one character. */
  function HtmlEscapeOf(c: char): (r: string)
    ensures r != [] && r[0] == if c in "&><'\"" then '&' else c
  {
    if c == '&' then "&amp;"
    else if c == '>' then "&gt;"
    else if c == '<' then "&lt;"
    else if c == '\'' then "&apos;"
    else if c == '"' then "&quot;"
    else [c]
  }

  /** The per-character reading of `escape_html`: each character replaced by its entity. */
  function HtmlEscaped(s: string): string
  {
    if s == [] then [] else HtmlEscapeOf(s[0]) + HtmlEscaped(s[1..])
  }

  /** The chain applied to a single character yields that character's entity. */
  lemma EscapeHtmlOneChar(c: char)
    ensures EscapeHtml([c]) == HtmlEscapeOf(c)
  {
    if c == '&' {
      EscapeAmpersand();
    } else if c == '>' {
      ReplaceCharAbsent([c], '&', "&amp;");
      ReplaceCharSingle(c, '>', "&gt;");
      EntityUnchanged("&gt;");
    } else if c == '<' {
      ReplaceCharAbsent([c], '&', "&amp;");
      ReplaceCharAbsent([c], '>', "&gt;");
      ReplaceCharSingle(c, '<', "&lt;");
      ReplaceCharAbsent("&lt;", '\'', "&apos;");
      ReplaceCharAbsent("&lt;", '"', "&quot;");
    } else if c == '\'' {
      ReplaceCharAbsent([c], '&', "&amp;");
      ReplaceCharAbsent([c], '>', "&gt;");
      ReplaceCharAbsent([c], '<', "&lt;");
      ReplaceCharSingle(c, '\'', "&apos;");
      ReplaceCharAbsent("&apos;", '"', "&quot;");
    } else {
      ReplaceCharAbsent([c], '&', "&amp;");
      ReplaceCharAbsent([c], '>', "&gt;");
      ReplaceCharAbsent([c], '<', "&lt;");
      ReplaceCharAbsent([c], '\'', "&apos;");
      ReplaceCharSingle(c, '"', "&quot;");
    }
  }

  lemma EscapeAmpersand()
    ensures EscapeHtml("&") == "&amp;"
  {
    ReplaceCharSingle('&', '&', "&amp;");
    ReplaceCharAbsent("&amp;", '>', "&gt;");
    EntityUnchanged("&amp;");
  }

  /** An entity goes through the last three replacements untouched. */
  lemma EntityUnchanged(e: string)
    requires e == "&amp;" || e == "&gt;"
    ensures Replace(Replace(Replace(e, "<", "&lt;"), "'", "&apos;"), "\"", "&quot;") == e
  {
    ReplaceCharAbsent(e, '<', "&lt;");
    ReplaceCharAbsent(e, '\'', "&apos;");
    ReplaceCharAbsent(e, '"', "&quot;");
  }

  /** `escape_html` works on the two halves of a string independently. */
  lemma EscapeHtmlAppend(a: string, b: string)
    ensures EscapeHtml(a + b) == EscapeHtml(a) + EscapeHtml(b)
  {
    var a1, b1 := Replace(a, "&", "&amp;"), Replace(b, "&", "&amp;");
    ReplaceCharAppend(a, b, '&', "&amp;");
    var a2, b2 := Replace(a1, ">", "&gt;"), Replace(b1, ">", "&gt;");
    ReplaceCharAppend(a1, b1, '>', "&gt;");
    var a3, b3 := Replace(a2, "<", "&lt;"), Replace(b2, "<", "&lt;");
    ReplaceCharAppend(a2, b2, '<', "&lt;");
    var a4, b4 := Replace(a3, "'", "&apos;"), Replace(b3, "'", "&apos;");
    ReplaceCharAppend(a3, b3, '\'', "&apos;");
    ReplaceCharAppend(a4, b4, '"', "&quot;");
  }

  /** `escape_html` replaces each character by its entity, independently of its neighbours. */
  lemma {:induction false} EscapeHtmlIsPerChar(s: string)
    ensures EscapeHtml(s) == HtmlEscaped(s)
  {
    if s == [] {
      assert EscapeHtml(s) == [];
    } else {
      assert s == [s[0]] + s[1..];
      EscapeHtmlAppend([s[0]], s[1..]);
      EscapeHtmlOneChar(s[0]);
      EscapeHtmlIsPerChar(s[1..]);
    }
  }

  /** The escaped text holds none of the four characters that are special inside HTML markup. */
  lemma {:induction false} EscapeHtmlRemovesSpecials(s: string)
    ensures var r := EscapeHtml(s); '<' !in r && '>' !in r && '"' !in r && '\'' !in r
  {
    EscapeHtmlIsPerChar(s);
    HtmlEscapedRemovesSpecials(s);
  }

  lemma {:induction false} HtmlEscapedRemovesSpecials(s: string)
    ensures var r := HtmlEscaped(s); '<' !in r && '>' !in r && '"' !in r && '\'' !in r
  {
    if s != [] {
      HtmlEscapedRemovesSpecials(s[1..]);
      var r := HtmlEscaped(s);
      assert r == HtmlEscapeOf(s[0]) + HtmlEscaped(s[1..]);
      forall x | x in "<>\"'"
        ensures x !in r
      {
        assert x !in HtmlEscapeOf(s[0]);
      }
    }
  }

  // The round trip goes through the intermediate strings of `unescape_html`: after its
  // first k replacements, the characters whose entities those steps decode are back as
  // themselves and all others are still escaped.

  /** The step of `unescape_html` that decodes the entity of `c` (1 to 5), or 0. */
  function UnescapeRank(c: char): nat
  {
    if c == '"' then 1
    else if c == '\'' then 2
    else if c == '<' then 3
    else if c == '>' then 4
    else if c == '&' then 5
    else 0
  }

  /** The character whose entity step `k` of `unescape_html` decodes. */
  function UnescapeTarget(k: nat): (c: char)
    requires 1 <= k <= 5
    ensures UnescapeRank(c) == k
  {
    if k == 1 then '"' else if k == 2 then '\'' else if k == 3 then '<' else if k == 4 then '>' else '&'
  }

  function PartlyUnescapedChar(k: nat, c: char): string
  {
    if k < UnescapeRank(c) then HtmlEscapeOf(c) else [c]
  }

  /** The escape of `s` after the first `k` steps of `unescape_html`. */
  function PartlyUnescaped(k: nat, s: string): string
  {
    if s == [] then [] else PartlyUnescapedChar(k, s[0]) + PartlyUnescaped(k, s[1..])
  }

  /** Step `k + 1` of `unescape_html`, the replacement of one entity by its character. */
  function UnescapeStep(k: nat, s: string): string
    requires k < 5
  {
    Replace(s, HtmlEscapeOf(UnescapeTarget(k + 1)), [UnescapeTarget(k + 1)])
  }

  /** Why the order matters: every piece left at stage `k` either is the entity that step
      `k + 1` decodes, or starts with something other than it and holds no `&` further on. */
  lemma PieceFacts(k: nat, c: char, rest: string)
    requires k < 5
    ensures var p, pat := PartlyUnescapedChar(k, c), HtmlEscapeOf(UnescapeTarget(k + 1));
      && p != []
      && (forall i :: 1 <= i < |p| ==> p[i] != pat[0])
      && (p == pat || !(pat <= p + rest))
      && (if p == pat then [UnescapeTarget(k + 1)] else p) == PartlyUnescapedChar(k + 1, c)
  {
    var d := UnescapeTarget(k + 1);
    var p, pat := PartlyUnescapedChar(k, c), HtmlEscapeOf(d);
    var q := p + rest;
    assert pat[0] == '&';
    if UnescapeRank(c) <= k {
      assert p == [c] && c != '&';
      assert q[0] != pat[0];
    } else if UnescapeRank(c) == k + 1 {
      assert c == d && p == pat;
    } else {
      assert p == HtmlEscapeOf(c) && c != d;
      assert q[..|p|] == p;
      if c == '&' && d == '\'' {
        assert q[2] != pat[2];
      } else {
        assert q[1] != pat[1];
      }
    }
  }

  lemma {:induction false} UnescapeStepAdvances(k: nat, s: string)
    requires k < 5
    ensures UnescapeStep(k, PartlyUnescaped(k, s)) == PartlyUnescaped(k + 1, s)
  {
    if s != [] {
      var d := UnescapeTarget(k + 1);
      var rest := PartlyUnescaped(k, s[1..]);
      PieceFacts(k, s[0], rest);
      ReplacePiece(PartlyUnescapedChar(k, s[0]), rest, HtmlEscapeOf(d), [d]);
      UnescapeStepAdvances(k, s[1..]);
    }
  }

  lemma {:induction false} PartlyUnescapedBounds(s: string)
    ensures PartlyUnescaped(0, s) == HtmlEscaped(s)
    ensures PartlyUnescaped(5, s) == s
  {
    if s != [] {
      PartlyUnescapedBounds(s[1..]);
      assert s == [s[0]] + s[1..];
    }
  }

  /** `unescape_html` undoes `escape_html` on every string: `&` is escaped first and
      `&amp;` decoded last, so no entity is produced or decoded twice. */
  lemma EscapeHtmlRoundTrip(s: string)
    ensures UnescapeHtml(EscapeHtml(s)) == s
  {
    EscapeHtmlIsPerChar(s);
    PartlyUnescapedBounds(s);
    UnescapeStepAdvances(0, s);
    UnescapeStepAdvances(1, s);
    UnescapeStepAdvances(2, s);
    UnescapeStepAdvances(3, s);
    UnescapeStepAdvances(4, s);
  }

  // ---------------------------------------------------------------------------
  // Inno Setup

  /** `escape_inno_value`: every `{` doubled, then every `"` removed. */
  function EscapeInnoValue(s: string): string
  {
    Replace(Replace(s, "{", "{{"), "\"", "")
  }

  /** What `escape_inno_value` makes of one character. */
  function InnoEscapeOf(c: char): string
  {
    if c == '{' then "{{" else if c == '"' then "" else [c]
  }

  /** The per-character reading of `escape_inno_value`. */
  function InnoEscaped(s: string): string
  {
    if s == [] then [] else InnoEscapeOf(s[0]) + InnoEscaped(s[1..])
  }

  /** `s` with every `"` left out. */
  function RemoveQuotes(s: string): (r: string)
  {
    if s == [] then [] else (if s[0] == '"' then [] else [s[0]]) + RemoveQuotes(s[1..])
  }

  /** How Inno Setup reads a value in a field that expands constants: `{{` stands for `{`. */
  function ReadInnoValue(t: string): string
  {
    Replace(t, "{{", "{")
  }

  lemma EscapeInnoValueAppend(a: string, b: string)
    ensures EscapeInnoValue(a + b) == EscapeInnoValue(a) + EscapeInnoValue(b)
  {
    ReplaceCharAppend(a, b, '{', "{{");
    ReplaceCharAppend(Replace(a, "{", "{{"), Replace(b, "{", "{{"), '"', "");
  }

  lemma EscapeInnoValueOneChar(c: char)
    ensures EscapeInnoValue([c]) == InnoEscapeOf(c)
  {
    ReplaceCharSingle(c, '{', "{{");
    if c == '{' {
      ReplaceCharAbsent("{{", '"', "");
    } else {
      ReplaceCharSingle(c, '"', "");
    }
  }

  /** `escape_inno_value` works one character at a time: `{` becomes `{{`, `"` is dropped and
      every other character is kept, in order. */
  lemma {:induction false} EscapeInnoValueIsPerChar(s: string)
    ensures EscapeInnoValue(s) == InnoEscaped(s)
  {
    if s == [] {
      assert EscapeInnoValue(s) == [];
    } else {
      assert s == [s[0]] + s[1..];
      EscapeInnoValueAppend([s[0]], s[1..]);
      EscapeInnoValueOneChar(s[0]);
      EscapeInnoValueIsPerChar(s[1..]);
    }
  }

  lemma {:induction false} InnoEscapedHasNoQuote(s: string)
    ensures '"' !in InnoEscaped(s)
  {
    if s != [] {
      InnoEscapedHasNoQuote(s[1..]);
      assert '"' !in InnoEscapeOf(s[0]);
    }
  }

  /** No `"` survives escaping, so an escaped value cannot end the quoted string it is put in;
      the empty string stays empty. */
  lemma EscapeInnoValueHasNoQuote(s: string)
    ensures '"' !in EscapeInnoValue(s)
    ensures EscapeInnoValue([]) == []
  {
    EscapeInnoValueIsPerChar(s);
    InnoEscapedHasNoQuote(s);
    EscapeInnoValueIsPerChar([]);
  }

  lemma {:induction false} InnoEscapedReadsBack(s: string)
    ensures ReadInnoValue(InnoEscaped(s)) == RemoveQuotes(s)
  {
    if s != [] {
      var c, rest := s[0], InnoEscaped(s[1..]);
      InnoEscapedReadsBack(s[1..]);
      if c == '{' {
        ReplaceHit(rest, "{{", "{");
      } else if c == '"' {
        assert InnoEscaped(s) == rest;
      } else {
        ReplaceSkip([c], rest, "{{", "{");
      }
    }
  }

  /** Inno Setup reads back exactly the value that was escaped, less its quotes. */
  lemma EscapeInnoValueRoundTrip(s: string)
    ensures ReadInnoValue(EscapeInnoValue(s)) == RemoveQuotes(s)
  {
    EscapeInnoValueIsPerChar(s);
    InnoEscapedReadsBack(s);
  }

  lemma {:induction false} RemoveQuotesShortens(s: string)
    ensures |RemoveQuotes(s)| + Count('"', s) == |s|
    ensures '"' !in s ==> RemoveQuotes(s) == s
  {
    if s != [] {
      RemoveQuotesShortens(s[1..]);
    }
  }

  /** A value reaches Inno Setup intact exactly when it holds no `"`. */
  lemma EscapeInnoValueLossless(s: string)
    ensures ReadInnoValue(EscapeInnoValue(s)) == s <==> '"' !in s
  {
    EscapeInnoValueRoundTrip(s);
    RemoveQuotesShortens(s);
    CountZero('"', s);
  }

  lemma {:induction false} InnoEscapedCounts(s: string)
    ensures Count('{', InnoEscaped(s)) == 2 * Count('{', s)
    ensures |InnoEscaped(s)| + Count('"', s) == |s| + Count('{', s)
  {
    if s != [] {
      InnoEscapedCounts(s[1..]);
      CountAppend('{', InnoEscapeOf(s[0]), InnoEscaped(s[1..]));
    }
  }

  /** The escaped text is the value itself exactly when the value holds neither `{` nor `"`. */
  lemma EscapeInnoValueUnchanged(s: string)
    ensures EscapeInnoValue(s) == s <==> '{' !in s && '"' !in s
  {
    EscapeInnoValueIsPerChar(s);
    InnoEscapedCounts(s);
    CountZero('{', s);
    CountZero('"', s);
    if '{' !in s && '"' !in s {
      InnoEscapedIdentity(s);
    }
  }

  lemma {:induction false} InnoEscapedIdentity(s: string)
    requires '{' !in s && '"' !in s
    ensures InnoEscaped(s) == s
  {
    if s != [] {
      InnoEscapedIdentity(s[1..]);
      assert s == [s[0]] + s[1..];
    }
  }
}
