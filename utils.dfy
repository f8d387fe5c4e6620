/** The two string helpers of js/utils.js the normalizers depend on:
    HTML escaping and "trimmed text or a fallback". */
module Utils {

  // ---------------------------------------------------------------------
  // escapeHtml

  /** The entity that one character becomes. */
  function EscapeChar(c: char): (r: string)
    ensures |r| >= 1
  {
    if c == '&' then "&amp;"
    else if c == '<' then "&lt;"
    else if c == '>' then "&gt;"
    else if c == '"' then "&quot;"
    else if c == '\'' then "&#39;"
    else [c]
  }

  predicate IsHtmlSpecial(c: char)
  {
    c == '&' || c == '<' || c == '>' || c == '"' || c == '\''
  }

  /** escapeHtml as a per-character map. */
  function EscapeHtml(s: string): (r: string)
  {
    if s == [] then [] else EscapeChar(s[0]) + EscapeHtml(s[1..])
  }

  /** `str.replace(/c/g, rep)` for a one-character pattern. */
  function ReplaceChar(s: string, c: char, rep: string): (r: string)
  {
    if s == [] then []
    else (if s[0] == c then rep else [s[0]]) + ReplaceChar(s[1..], c, rep)
  }

  /** escapeHtml as the source writes it: five global replacements, the
      ampersand first. */
  function EscapeHtmlChain(s: string): string
  {
    var a := ReplaceChar(s, '&', "&amp;");
    var b := ReplaceChar(a, '<', "&lt;");
    var c := ReplaceChar(b, '>', "&gt;");
    var d := ReplaceChar(c, '"', "&quot;");
    ReplaceChar(d, '\'', "&#39;")
  }

  lemma {:induction false} ReplaceCharAppend(s: string, t: string, c: char, rep: string)
    ensures ReplaceChar(s + t, c, rep) == ReplaceChar(s, c, rep) + ReplaceChar(t, c, rep)
  {
    if s == [] {
      assert s + t == t;
    } else {
      assert (s + t)[1..] == s[1..] + t;
      ReplaceCharAppend(s[1..], t, c, rep);
    }
  }

  lemma {:induction false} ReplaceCharAbsent(s: string, c: char, rep: string)
    requires c !in s
    ensures ReplaceChar(s, c, rep) == s
  {
    if s != [] {
      assert s == [s[0]] + s[1..];
      ReplaceCharAbsent(s[1..], c, rep);
    }
  }

  lemma EscapeHtmlChainAppend(s: string, t: string)
    ensures EscapeHtmlChain(s + t) == EscapeHtmlChain(s) + EscapeHtmlChain(t)
  {
    var a1, a2 := ReplaceChar(s, '&', "&amp;"), ReplaceChar(t, '&', "&amp;");
    ReplaceCharAppend(s, t, '&', "&amp;");
    var b1, b2 := ReplaceChar(a1, '<', "&lt;"), ReplaceChar(a2, '<', "&lt;");
    ReplaceCharAppend(a1, a2, '<', "&lt;");
    var c1, c2 := ReplaceChar(b1, '>', "&gt;"), ReplaceChar(b2, '>', "&gt;");
    ReplaceCharAppend(b1, b2, '>', "&gt;");
    var d1, d2 := ReplaceChar(c1, '"', "&quot;"), ReplaceChar(c2, '"', "&quot;");
    ReplaceCharAppend(c1, c2, '"', "&quot;");
    ReplaceCharAppend(d1, d2, '\'', "&#39;");
  }

  lemma ReplaceCharSingle(x: char, c: char, rep: string)
    ensures ReplaceChar([x], c, rep) == if x == c then rep else [x]
  {
    assert [x][1..] == [];
  }

  // The steps after the one that produced an entity leave it alone: it
  // holds none of the characters they replace.

  lemma AfterAmp(e: string)
    requires '<' !in e && '>' !in e && '"' !in e && '\'' !in e
    ensures ReplaceChar(ReplaceChar(ReplaceChar(ReplaceChar(e, '<', "&lt;"),
              '>', "&gt;"), '"', "&quot;"), '\'', "&#39;") == e
  {
    ReplaceCharAbsent(e, '<', "&lt;");
    AfterLt(e);
  }

  lemma AfterLt(e: string)
    requires '>' !in e && '"' !in e && '\'' !in e
    ensures ReplaceChar(ReplaceChar(ReplaceChar(e, '>', "&gt;"), '"', "&quot;"), '\'', "&#39;") == e
  {
    ReplaceCharAbsent(e, '>', "&gt;");
    AfterGt(e);
  }

  lemma AfterGt(e: string)
    requires '"' !in e && '\'' !in e
    ensures ReplaceChar(ReplaceChar(e, '"', "&quot;"), '\'', "&#39;") == e
  {
    ReplaceCharAbsent(e, '"', "&quot;");
    ReplaceCharAbsent(e, '\'', "&#39;");
  }

  /** On one character, the chain of replacements gives that character's
      entity: no replacement ever rewrites the output of an earlier one. */
  lemma EscapeHtmlChainChar(x: char)
    ensures EscapeHtmlChain([x]) == EscapeChar(x)
  {
    ReplaceCharSingle(x, '&', "&amp;");
    if x == '&' {
      AfterAmp("&amp;");
    } else {
      ReplaceCharSingle(x, '<', "&lt;");
      if x == '<' {
        AfterLt("&lt;");
      } else {
        ReplaceCharSingle(x, '>', "&gt;");
        if x == '>' {
          AfterGt("&gt;");
        } else {
          ReplaceCharSingle(x, '"', "&quot;");
          if x == '"' {
            ReplaceCharAbsent("&quot;", '\'', "&#39;");
          } else {
            ReplaceCharSingle(x, '\'', "&#39;");
          }
        }
      }
    }
  }

  /** Because `&` is replaced first, the chain of replacements equals the
      per-character map: nothing is escaped twice. */
  lemma {:induction false} EscapeHtmlChainIsMap(s: string)
    ensures EscapeHtmlChain(s) == EscapeHtml(s)
  {
    if s != [] {
      assert s == [s[0]] + s[1..];
      EscapeHtmlChainAppend([s[0]], s[1..]);
      EscapeHtmlChainChar(s[0]);
      EscapeHtmlChainIsMap(s[1..]);
    }
  }

  /** Escaping distributes over concatenation. */
  lemma {:induction false} EscapeHtmlAppend(s: string, t: string)
    ensures EscapeHtml(s + t) == EscapeHtml(s) + EscapeHtml(t)
  {
    if s == [] {
      assert s + t == t;
    } else {
      assert (s + t)[1..] == s[1..] + t;
      EscapeHtmlAppend(s[1..], t);
    }
  }

  /** No entity holds a markup-significant character other than `&`. */
  lemma EscapeCharSafe(c: char)
    ensures forall i :: 0 <= i < |EscapeChar(c)| ==> !IsHtmlSpecial(EscapeChar(c)[i]) || EscapeChar(c)[i] == '&'
  {
  }

  /** The escaped text holds no markup-significant character except the
      ampersands of its entities, and is never shorter than the input. */
  lemma {:induction false} EscapeHtmlSafe(s: string)
    ensures forall i :: 0 <= i < |EscapeHtml(s)| ==> !IsHtmlSpecial(EscapeHtml(s)[i]) || EscapeHtml(s)[i] == '&'
    ensures |EscapeHtml(s)| >= |s|
  {
    if s != [] {
      var e, r := EscapeChar(s[0]), EscapeHtml(s[1..]);
      EscapeHtmlSafe(s[1..]);
      EscapeCharSafe(s[0]);
      assert EscapeHtml(s) == e + r;
      forall i | 0 <= i < |e + r| ensures !IsHtmlSpecial((e + r)[i]) || (e + r)[i] == '&' {
        if i < |e| { assert (e + r)[i] == e[i]; } else { assert (e + r)[i] == r[i - |e|]; }
      }
    }
  }

  /** Text without any of `& < > " '` is left as it is. */
  lemma {:induction false} EscapeHtmlIdentity(s: string)
    requires forall i :: 0 <= i < |s| ==> !IsHtmlSpecial(s[i])
    ensures EscapeHtml(s) == s
  {
    if s != [] {
      EscapeHtmlIdentity(s[1..]);
      assert s == [s[0]] + s[1..];
    }
  }

  /** Decoding of the five entities escapeHtml produces (an independent
      reference: escaping loses nothing). */
  function UnescapeHtml(s: string): string
  {
    if s == [] then []
    else if |s| >= 5 && s[..5] == "&amp;" then "&" + UnescapeHtml(s[5..])
    else if |s| >= 4 && s[..4] == "&lt;" then "<" + UnescapeHtml(s[4..])
    else if |s| >= 4 && s[..4] == "&gt;" then ">" + UnescapeHtml(s[4..])
    else if |s| >= 6 && s[..6] == "&quot;" then "\"" + UnescapeHtml(s[6..])
    else if |s| >= 5 && s[..5] == "&#39;" then "'" + UnescapeHtml(s[5..])
    else [s[0]] + UnescapeHtml(s[1..])
  }

  lemma UnescapeEntity(c: char, t: string)
    ensures UnescapeHtml(EscapeChar(c) + t) == [c] + UnescapeHtml(t)
  {
    if c == '&' {
      UnescapeAmp(t);
    } else if c == '<' {
      UnescapeLt(t);
    } else if c == '>' {
      UnescapeGt(t);
    } else if c == '"' {
      UnescapeQuot(t);
    } else if c == '\'' {
      UnescapeApos(t);
    } else {
      UnescapePlain(c, t);
    }
  }

  lemma UnescapeAmp(t: string)
    ensures UnescapeHtml("&amp;" + t) == "&" + UnescapeHtml(t)
  {
    var s := "&amp;" + t;
    assert s[..5] == "&amp;" && s[5..] == t;
  }

  lemma UnescapeLt(t: string)
    ensures UnescapeHtml("&lt;" + t) == "<" + UnescapeHtml(t)
  {
    var s := "&lt;" + t;
    assert |s| >= 5 ==> s[..5] != "&amp;" by { assert s[1] == 'l'; }
    assert s[..4] == "&lt;" && s[4..] == t;
  }

  lemma UnescapeGt(t: string)
    ensures UnescapeHtml("&gt;" + t) == ">" + UnescapeHtml(t)
  {
    var s := "&gt;" + t;
    assert (|s| >= 5 ==> s[..5] != "&amp;") && s[..4] != "&lt;" by { assert s[1] == 'g'; }
    assert s[..4] == "&gt;" && s[4..] == t;
  }

  lemma UnescapeQuot(t: string)
    ensures UnescapeHtml("&quot;" + t) == "\"" + UnescapeHtml(t)
  {
    var s := "&quot;" + t;
    assert s[..5] != "&amp;" && s[..4] != "&lt;" && s[..4] != "&gt;" by { assert s[1] == 'q'; }
    assert s[..6] == "&quot;" && s[6..] == t;
  }

  lemma UnescapeApos(t: string)
    ensures UnescapeHtml("&#39;" + t) == "'" + UnescapeHtml(t)
  {
    var s := "&#39;" + t;
    assert s[..5] != "&amp;" && s[..4] != "&lt;" && s[..4] != "&gt;" by { assert s[1] == '#'; }
    assert |s| >= 6 ==> s[..6] != "&quot;" by { assert s[1] == '#'; }
    assert s[..5] == "&#39;" && s[5..] == t;
  }

  lemma UnescapePlain(c: char, t: string)
    requires c != '&'
    ensures UnescapeHtml([c] + t) == [c] + UnescapeHtml(t)
  {
    var s := [c] + t;
    assert s[0] == c && s[1..] == t;
    assert |s| >= 5 ==> s[..5][0] != '&';
    assert |s| >= 4 ==> s[..4][0] != '&';
    assert |s| >= 6 ==> s[..6][0] != '&';
  }

  /** Escaping is undone by decoding the entities. */
  lemma {:induction false} UnescapeEscape(s: string)
    ensures UnescapeHtml(EscapeHtml(s)) == s
  {
    if s != [] {
      UnescapeEntity(s[0], EscapeHtml(s[1..]));
      UnescapeEscape(s[1..]);
      assert s == [s[0]] + s[1..];
    }
  }

  // ---------------------------------------------------------------------
  // trim and safeText

  /** The characters `String.prototype.trim` removes: ECMAScript
      WhiteSpace and LineTerminator code points. */
  predicate IsJsWhitespace(c: char)
  {
    c == '\t' || c == '\n' || c == '\U{B}' || c == '\U{C}' || c == '\r' || c == ' '
    || c == '\U{A0}' || c == '\U{1680}' || ('\U{2000}' <= c <= '\U{200A}')
    || c == '\U{2028}' || c == '\U{2029}' || c == '\U{202F}' || c == '\U{205F}'
    || c == '\U{3000}' || c == '\U{FEFF}'
  }

  predicate AllWhitespace(s: string)
  {
    forall i :: 0 <= i < |s| ==> IsJsWhitespace(s[i])
  }

  /** `s.trimStart()`. */
  function TrimStart(s: string): string
  {
    if s == [] || !IsJsWhitespace(s[0]) then s else TrimStart(s[1..])
  }

  /** `s.trimEnd()`. */
  function TrimEnd(s: string): string
  {
    if s == [] || !IsJsWhitespace(s[|s| - 1]) then s else TrimEnd(s[..|s| - 1])
  }

  /** `s.trim()`: the input with whitespace removed at both ends. */
  function Trim(s: string): string
  {
    TrimEnd(TrimStart(s))
  }

  /** `trimStart` drops a whitespace prefix and stops at the first other
      character. */
  lemma {:induction false} TrimStartSpec(s: string)
    ensures var r := TrimStart(s);
            && |r| <= |s| && r == s[|s| - |r|..]
            && AllWhitespace(s[..|s| - |r|])
            && (r != [] ==> !IsJsWhitespace(r[0]))
    decreases |s|
  {
    if s != [] && IsJsWhitespace(s[0]) {
      var r := TrimStart(s[1..]);
      TrimStartSpec(s[1..]);
      var k := |s| - |r|;
      assert s[1..][|s| - 1 - |r|..] == s[k..];
      assert s[..k] == [s[0]] + s[1..][..k - 1];
    }
  }

  /** `trimEnd` drops a whitespace suffix and stops at the last other
      character. */
  lemma {:induction false} TrimEndSpec(s: string)
    ensures var r := TrimEnd(s);
            && |r| <= |s| && r == s[..|r|]
            && AllWhitespace(s[|r|..])
            && (r != [] ==> !IsJsWhitespace(r[|r| - 1]))
    decreases |s|
  {
    if s != [] && IsJsWhitespace(s[|s| - 1]) {
      var r := TrimEnd(s[..|s| - 1]);
      TrimEndSpec(s[..|s| - 1]);
      assert s[..|s| - 1][..|r|] == s[..|r|];
      assert s[|r|..] == s[..|s| - 1][|r|..] + [s[|s| - 1]];
    }
  }

  /** A trimmed string starts and ends with non-whitespace, and is empty
      exactly for an all-whitespace input. */
  lemma TrimSpec(s: string)
    ensures var r := Trim(s);
            && (r != [] ==> !IsJsWhitespace(r[0]) && !IsJsWhitespace(r[|r| - 1]))
            && (r == [] <==> AllWhitespace(s))
  {
    var a := TrimStart(s);
    TrimStartSpec(s);
    TrimEndSpec(a);
    var r := TrimEnd(a);
    if r != [] {
      assert r[0] == a[0];
    }
    if r == [] {
      assert a[|r|..] == a;
      assert s == s[..|s| - |a|] + a;
    } else {
      assert !IsJsWhitespace(s[|s| - |a| + |r| - 1]);
    }
  }

  /** What `trim` removes is whitespace, and only from the two ends. */
  lemma TrimIsSubstring(s: string)
    ensures exists i, j :: 0 <= i <= j <= |s| && Trim(s) == s[i..j]
              && AllWhitespace(s[..i]) && AllWhitespace(s[j..])
  {
    var a := TrimStart(s);
    TrimStartSpec(s);
    TrimEndSpec(a);
    var r := TrimEnd(a);
    var i := |s| - |a|;
    var j := i + |r|;
    assert r == s[i..j];
    assert s[j..] == a[|r|..];
  }

  /** Trimming twice is trimming once. */
  lemma TrimIdempotent(s: string)
    ensures Trim(Trim(s)) == Trim(s)
  {
    var t := Trim(s);
    TrimSpec(s);
    if t != [] {
      assert TrimStart(t) == t;
      assert TrimEnd(t) == t;
    }
  }

  /** Whitespace around a string whose ends are not whitespace is exactly
      what `trim` removes. */
  lemma {:induction false} TrimPadded(w1: string, t: string, w2: string)
    requires AllWhitespace(w1) && AllWhitespace(w2)
    requires t != [] && !IsJsWhitespace(t[0]) && !IsJsWhitespace(t[|t| - 1])
    ensures Trim(w1 + t + w2) == t
  {
    TrimStartPadded(w1, t + w2);
    assert w1 + t + w2 == w1 + (t + w2);
    TrimEndPadded(t, w2);
  }

  lemma {:induction false} TrimStartPadded(w: string, s: string)
    requires AllWhitespace(w) && s != [] && !IsJsWhitespace(s[0])
    ensures TrimStart(w + s) == s
    decreases |w|
  {
    if w == [] {
      assert w + s == s;
    } else {
      assert (w + s)[1..] == w[1..] + s;
      TrimStartPadded(w[1..], s);
    }
  }

  lemma {:induction false} TrimEndPadded(s: string, w: string)
    requires AllWhitespace(w) && s != [] && !IsJsWhitespace(s[|s| - 1])
    ensures TrimEnd(s + w) == s
    decreases |w|
  {
    if w == [] {
      assert s + w == s;
    } else {
      assert (s + w)[..|s + w| - 1] == s + w[..|w| - 1];
      TrimEndPadded(s, w[..|w| - 1]);
    }
  }

  /** `safeText(text, fallback)`: the trimmed text unless it is empty.
      The source's `text || ""` for a missing text is the caller's
      `GetOr("")`. */
  function SafeText(text: string, fallback: string): string
  {
    var value := Trim(text);
    if |value| > 0 then value else fallback
  }

  /** A blank text gives the fallback; any other text gives a non-empty
      string with no whitespace at either end, so a non-empty fallback
      guarantees a non-empty result. */
  lemma SafeTextCases(text: string, fallback: string)
    ensures AllWhitespace(text) ==> SafeText(text, fallback) == fallback
    ensures !AllWhitespace(text) ==> var r := SafeText(text, fallback);
              r != [] && !IsJsWhitespace(r[0]) && !IsJsWhitespace(r[|r| - 1])
    ensures fallback != [] ==> SafeText(text, fallback) != []
  {
    var t := Trim(text);
    TrimSpec(text);
    if AllWhitespace(text) {
      assert t == [];
    } else {
      assert t != [] && SafeText(text, fallback) == t;
    }
  }

  /** safeText is idempotent for a fallback with nothing to trim. */
  lemma SafeTextIdempotent(text: string, fallback: string)
    requires Trim(fallback) == fallback
    ensures SafeText(SafeText(text, fallback), fallback) == SafeText(text, fallback)
  {
    TrimIdempotent(text);
  }

  /** A string that is already trimmed and non-empty comes back unchanged. */
  lemma SafeTextOfTrimmed(text: string, fallback: string)
    requires text != [] && !IsJsWhitespace(text[0]) && !IsJsWhitespace(text[|text| - 1])
    ensures SafeText(text, fallback) == text
  {
    assert TrimStart(text) == text;
    assert TrimEnd(text) == text;
  }

  // ---------------------------------------------------------------------
  // filename.replace(/\.[^.]+$/, "")

  /** Index of the last `.` in `s`, or -1. */
  function LastDot(s: string): (k: int)
    ensures -1 <= k < |s|
    ensures k >= 0 ==> s[k] == '.'
    ensures forall i :: k < i < |s| ==> s[i] != '.'
  {
    if s == [] then -1
    else if s[|s| - 1] == '.' then |s| - 1
    else LastDot(s[..|s| - 1])
  }

  /** Drops the last extension: a final `.` followed by one or more
      characters that are not `.`. A name ending in `.` keeps its dot. */
  function StripExtension(name: string): (r: string)
    ensures r == name || (|r| < |name| && name[|r|] == '.' && r == name[..|r|])
    ensures r != name ==> |name| - |r| >= 2 && '.' !in name[|r| + 1..]
    ensures r == name ==> LastDot(name) == -1 || LastDot(name) == |name| - 1
  {
    var k := LastDot(name);
    if k >= 0 && k < |name| - 1 then name[..k] else name
  }
}
