/** The plain-text importer (js/normalize-txt.js): a line-by-line state
    machine that turns heading-marked text into chapters of paragraphs,
    followed by the assembly of the table of contents and the section
    markup.

    The source keeps its state in closure variables that the helpers
    `flushParagraph` and `startChapter` update; here they are the fields
    of a `TxtBuilder` object. Its methods are specified by the functions
    `Flush`, `Start` and `Step` over `ParseState`, and the lemmas at the
    end connect the resulting chapters to an independent description of
    the input: chapters start at `# ` lines, paragraphs are maximal runs
    of non-blank lines. */
module NormalizeTxt {
  import opened Common
  import opened Utils
  import opened BookModel

  // ---------------------------------------------------------------------
  // Line endings and lines

  /** `replace(/\r\n/g, "\n")`. */
  function ReplaceCrLf(s: string): (r: string)
    decreases |s|
  {
    if s == [] then []
    else if |s| >= 2 && s[0] == '\r' && s[1] == '\n' then "\n" + ReplaceCrLf(s[2..])
    else [s[0]] + ReplaceCrLf(s[1..])
  }

  /** `text.replace(/\r\n/g, "\n").replace(/\r/g, "\n")`. */
  function NormalizeNewlines(text: string): (r: string)
  {
    ReplaceChar(ReplaceCrLf(text), '\r', "\n")
  }

  lemma {:induction false} ReplaceCharRemoves(s: string, c: char, rep: string)
    requires c !in rep
    ensures c !in ReplaceChar(s, c, rep)
  {
    if s != [] {
      ReplaceCharRemoves(s[1..], c, rep);
    }
  }

  /** No carriage return survives normalisation. */
  lemma NormalizeNewlinesNoCr(text: string)
    ensures '\r' !in NormalizeNewlines(text)
  {
    ReplaceCharRemoves(ReplaceCrLf(text), '\r', "\n");
  }

  /** Index of the first `c` in `s`. */
  function IndexOf(s: string, c: char): (k: nat)
    requires c in s
    ensures k < |s| && s[k] == c && c !in s[..k]
  {
    if s[0] == c then 0
    else
      assert s == [s[0]] + s[1..];
      var k := IndexOf(s[1..], c);
      assert s[..k + 1] == [s[0]] + s[1..][..k];
      k + 1
  }

  /** `s.split("\n")`: never empty; `""` gives `[""]`. */
  function SplitLines(s: string): (lines: seq<string>)
    ensures |lines| >= 1
    ensures forall i :: 0 <= i < |lines| ==> '\n' !in lines[i]
    decreases |s|
  {
    if '\n' !in s then [s]
    else
      var k := IndexOf(s, '\n');
      [s[..k]] + SplitLines(s[k + 1..])
  }

  /** `lines.join(sep)`. */
  function Join(parts: seq<string>, sep: string): (r: string)
  {
    if parts == [] then ""
    else if |parts| == 1 then parts[0]
    else parts[0] + sep + Join(parts[1..], sep)
  }

  lemma JoinCons(a: string, rest: seq<string>, sep: string)
    requires rest != []
    ensures Join([a] + rest, sep) == a + sep + Join(rest, sep)
  {
    var p := [a] + rest;
    assert p[0] == a && p[1..] == rest;
  }

  /** Splitting loses nothing: joining the lines back gives the text. */
  lemma {:induction false} JoinSplitLines(s: string)
    ensures Join(SplitLines(s), "\n") == s
    decreases |s|, 1
  {
    if '\n' in s {
      JoinSplitLinesAt(s);
    }
  }

  lemma {:induction false} JoinSplitLinesAt(s: string)
    requires '\n' in s
    ensures Join(SplitLines(s), "\n") == s
    decreases |s|, 0
  {
    var k := IndexOf(s, '\n');
    var head, tail := s[..k], s[k + 1..];
    var rest := SplitLines(tail);
    assert SplitLines(s) == [head] + rest;
    JoinSplitLines(tail);
    JoinCons(head, rest, "\n");
    assert s == head + [s[k]] + tail;
  }

  /** A line without a newline, a newline and the rest split into that
      line followed by the rest's lines. */
  lemma SplitLinesCons(a: string, b: string)
    requires '\n' !in a
    ensures SplitLines(a + "\n" + b) == [a] + SplitLines(b)
  {
    var s := a + "\n" + b;
    assert s[|a|] == '\n';
    var k := IndexOf(s, '\n');
    assert s[..k] == a && s[k + 1..] == b;
  }

  /** Joining lines without newlines and splitting again gives the lines
      back. */
  lemma {:induction false} SplitJoinLines(parts: seq<string>)
    requires parts != []
    requires forall i :: 0 <= i < |parts| ==> '\n' !in parts[i]
    ensures SplitLines(Join(parts, "\n")) == parts
    decreases |parts|
  {
    if |parts| > 1 {
      var rest := parts[1..];
      SplitJoinLines(rest);
      SplitLinesCons(parts[0], Join(rest, "\n"));
      assert parts == [parts[0]] + rest;
    }
  }

  // ---------------------------------------------------------------------
  // Ruby annotations: `/｜(.+?)《(.+?)》/g`

  /** What the regular expression's `.` does not match. */
  predicate IsLineTerminator(c: char)
  {
    c == '\n' || c == '\r' || c == '\U{2028}' || c == '\U{2029}'
  }

  /** The lazy second group scanning from `m`: the first `》` reached
      before a line terminator. */
  function ScanClose(s: string, m: nat): (r: Option<nat>)
    ensures r.Some? ==> m <= r.value < |s| && s[r.value] == '》'
    ensures r.Some? ==> forall q :: m <= q < r.value ==> !IsLineTerminator(s[q])
    decreases |s| - m
  {
    if m >= |s| then None
    else if s[m] == '》' then Some(m)
    else if IsLineTerminator(s[m]) then None
    else ScanClose(s, m + 1)
  }

  /** Group 2 starting at `j`: at least one character, then up to the
      first `》`. Returns the index of that `》`. */
  function CloseAt(s: string, j: nat): (r: Option<nat>)
    ensures r.Some? ==> j < r.value < |s| && s[r.value] == '》'
    ensures r.Some? ==> forall q :: j <= q < r.value ==> !IsLineTerminator(s[q])
  {
    if j >= |s| || IsLineTerminator(s[j]) then None else ScanClose(s, j + 1)
  }

  /** The lazy first group, already holding `s[i+1..k]`: stop at the first
      `《` after which group 2 matches, otherwise take one more character. */
  function ScanOpen(s: string, k: nat): (r: Option<(nat, nat)>)
    ensures r.Some? ==> k <= r.value.0 < r.value.1 < |s|
    ensures r.Some? ==> s[r.value.0] == '《' && s[r.value.1] == '》'
    ensures r.Some? ==> forall q :: k <= q < r.value.0 ==> !IsLineTerminator(s[q])
    ensures r.Some? ==> forall q :: r.value.0 < q < r.value.1 ==> !IsLineTerminator(s[q])
    ensures r.Some? ==> r.value.1 >= r.value.0 + 2
    decreases |s| - k
  {
    if k >= |s| then None
    else if s[k] == '《' && CloseAt(s, k + 1).Some? then Some((k, CloseAt(s, k + 1).value))
    else if IsLineTerminator(s[k]) then None
    else ScanOpen(s, k + 1)
  }

  /** The match the regular expression finds at the start of `s`, as the
      positions of its `《` and `》`. */
  function MatchAt(s: string): (r: Option<(nat, nat)>)
    ensures r.Some? ==> |s| >= 2 && s[0] == '｜' && 2 <= r.value.0 && r.value.0 + 2 <= r.value.1 < |s|
    ensures r.Some? ==> s[r.value.0] == '《' && s[r.value.1] == '》'
    ensures r.Some? ==> forall q :: 1 <= q < r.value.1 && q != r.value.0 ==> !IsLineTerminator(s[q])
  {
    if |s| >= 2 && s[0] == '｜' && !IsLineTerminator(s[1]) then ScanOpen(s, 2) else None
  }

  /** `replace(/｜(.+?)《(.+?)》/g, "<ruby>$1<rt>$2</rt></ruby>")`: matches
      are taken left to right, and scanning resumes after each match. */
  function RubyRewrite(s: string): (r: string)
    decreases |s|
  {
    if s == [] then []
    else match MatchAt(s)
      case Some((k, m)) =>
        "<ruby>" + s[1..k] + "<rt>" + s[k + 1..m] + "</rt></ruby>" + RubyRewrite(s[m + 1..])
      case None => [s[0]] + RubyRewrite(s[1..])
  }

  /** Where the pattern occurs nowhere, the text is left as it is. */
  lemma {:induction false} RubyRewriteNoMatch(s: string)
    requires forall i :: 0 <= i < |s| ==> MatchAt(s[i..]).None?
    ensures RubyRewrite(s) == s
    decreases |s|
  {
    if s != [] {
      assert s[0..] == s;
      forall i | 0 <= i < |s| - 1 ensures MatchAt(s[1..][i..]).None? {
        assert s[1..][i..] == s[i + 1..];
      }
      RubyRewriteNoMatch(s[1..]);
      assert s == [s[0]] + s[1..];
    }
  }

  /** In particular text without a `｜` gets no ruby markup. */
  lemma RubyRewriteWithoutBar(s: string)
    requires '｜' !in s
    ensures RubyRewrite(s) == s
  {
    forall i | 0 <= i < |s| ensures MatchAt(s[i..]).None? {
      assert s[i..][0] == s[i];
    }
    RubyRewriteNoMatch(s);
  }

  /** A text that starts with a well-formed annotation gets it rewritten. */
  lemma RubyRewriteSimple(base: string, reading: string, rest: string)
    requires |base| >= 1 && |reading| >= 1
    requires '《' !in base && '》' !in reading
    requires forall i :: 0 <= i < |base| ==> !IsLineTerminator(base[i])
    requires forall i :: 0 <= i < |reading| ==> !IsLineTerminator(reading[i])
    ensures RubyRewrite("｜" + base + "《" + reading + "》" + rest)
         == "<ruby>" + base + "<rt>" + reading + "</rt></ruby>" + RubyRewrite(rest)
  {
    var s := "｜" + base + "《" + reading + "》" + rest;
    var k := |base| + 1;
    var m := k + 1 + |reading|;
    forall q | 1 <= q < k ensures s[q] == base[q - 1] { }
    forall q | k < q < m ensures s[q] == reading[q - k - 1] { }
    assert s[k] == '《' && s[m] == '》';
    MatchAtFinds(s, k, m);
    assert s[1..k] == base && s[k + 1..m] == reading && s[m + 1..] == rest;
  }

  /** The pattern matches at the start of `s` with its `《` at `k` and its
      `》` at `m` when group 1 holds no `《` and group 2 no `》`. */
  lemma MatchAtFinds(s: string, k: nat, m: nat)
    requires 2 <= k && k + 2 <= m < |s|
    requires s[0] == '｜' && s[k] == '《' && s[m] == '》'
    requires forall q :: 1 <= q < k ==> s[q] != '《' && !IsLineTerminator(s[q])
    requires forall q :: k < q < m ==> s[q] != '》' && !IsLineTerminator(s[q])
    ensures MatchAt(s) == Some((k, m))
  {
    ScanCloseFinds(s, k + 2, m);
    ScanOpenFinds(s, 2, k, m);
  }

  lemma {:induction false} ScanCloseFinds(s: string, from: nat, m: nat)
    requires from <= m < |s| && s[m] == '》'
    requires forall q :: from <= q < m ==> s[q] != '》' && !IsLineTerminator(s[q])
    ensures ScanClose(s, from) == Some(m)
    decreases m - from
  {
    if from < m {
      ScanCloseFinds(s, from + 1, m);
    }
  }

  lemma {:induction false} ScanOpenFinds(s: string, from: nat, k: nat, m: nat)
    requires from <= k < m < |s| && s[k] == '《' && CloseAt(s, k + 1) == Some(m)
    requires forall q :: from <= q < k ==> s[q] != '《' && !IsLineTerminator(s[q])
    ensures ScanOpen(s, from) == Some((k, m))
    decreases k - from
  {
    if from < k {
      ScanOpenFinds(s, from + 1, k, m);
    }
  }

  // ---------------------------------------------------------------------
  // The state machine

  const Implicit := "本文"

  /** The title of chapter `n` opened with `text`: the trimmed text, or
      `章n` when nothing is left of it. */
  function ChapterTitle(text: string, n: nat): string
  {
    SafeText(text, ChapterLabel(n))
  }

  /** Escape, then ruby, then `<br>` for each newline. */
  function RenderParagraph(lines: seq<string>): string
  {
    ReplaceChar(RubyRewrite(EscapeHtml(Join(lines, "\n"))), '\n', "<br>")
  }

  /** The two places where the importer produces text of its own: the
      paragraph a run of lines becomes, and the title a chapter gets. The
      state machine and the description of its result below are stated
      for any such pair, so that the reasoning about chapters does not
      depend on the markup; `Html` is the pair the importer uses. */
  datatype Markup = Markup(paragraph: seq<string> -> string, title: (string, nat) -> string)

  const Html := Markup(RenderParagraph, ChapterTitle)

  predicate IsHeading(line: string)
  {
    |line| >= 2 && line[0] == '#' && line[1] == ' '
  }

  /** `line.trim() === ""`. */
  predicate IsBlank(line: string)
  {
    Trim(line) == []
  }

  datatype TxtChapter = TxtChapter(title: string, paragraphs: seq<string>)

  /** The closure state of the source, without `current` (always the last
      chapter once there is one) and `chapterIndex` (always the number of
      chapters). */
  datatype ParseState = ParseState(chapters: seq<TxtChapter>, pending: seq<string>)

  const Init := ParseState([], [])

  /** `flushParagraph`: moves the pending lines, if any, into the current
      chapter as one paragraph. Without a current chapter nothing happens. */
  function Flush(st: ParseState, mk: Markup): (r: ParseState)
    ensures |r.chapters| == |st.chapters|
  {
    if |st.chapters| == 0 || |st.pending| == 0 then st
    else
      var n := |st.chapters|;
      var last := st.chapters[n - 1];
      ParseState(st.chapters[..n - 1]
                 + [last.(paragraphs := last.paragraphs + [mk.paragraph(st.pending)])], [])
  }

  /** `startChapter(title)`: flush, then open chapter number N + 1. */
  function Start(st: ParseState, title: string, mk: Markup): (r: ParseState)
    ensures |r.chapters| == |st.chapters| + 1
  {
    var f := Flush(st, mk);
    ParseState(f.chapters + [TxtChapter(mk.title(title, |f.chapters| + 1), [])], f.pending)
  }

  /** One iteration of the loop over lines. */
  function Step(st: ParseState, line: string, mk: Markup): ParseState
  {
    if IsHeading(line) then Start(st, line[2..], mk)
    else
      var s1 := if |st.chapters| == 0 then Start(st, Implicit, mk) else st;
      if IsBlank(line) then Flush(s1, mk) else ParseState(s1.chapters, s1.pending + [line])
  }

  function Run(st: ParseState, lines: seq<string>, mk: Markup): ParseState
    decreases |lines|
  {
    if lines == [] then st else Run(Step(st, lines[0], mk), lines[1..], mk)
  }

  /** The chapters at the end: a last flush, and the `本文` fallback for a
      document that produced none. */
  function CollectChapters(lines: seq<string>): (chapters: seq<TxtChapter>)
    ensures |chapters| >= 1
  {
    var f := Flush(Run(Init, lines, Html), Html);
    if |f.chapters| == 0 then Start(f, Implicit, Html).chapters else f.chapters
  }

  /** The closure state of `normalizeTxtToBook`. */
  class TxtBuilder {
    var chapters: seq<TxtChapter>
    var paragraphLines: seq<string>
    var chapterIndex: nat

    ghost predicate Valid()
      reads this
    {
      chapterIndex == |chapters|
    }

    function State(): ParseState
      reads this
    {
      ParseState(chapters, paragraphLines)
    }

    constructor ()
      ensures Valid() && State() == Init
    {
      chapters, paragraphLines, chapterIndex := [], [], 0;
    }

    method FlushParagraph()
      requires Valid()
      modifies this
      ensures Valid() && State() == Flush(old(State()), Html)
    {
      if |chapters| == 0 { return; }
      if |paragraphLines| == 0 { return; }
      var raw := Join(paragraphLines, "\n");
      var escaped := EscapeHtml(raw);
      var rubyApplied := RubyRewrite(escaped);
      var withBreaks := ReplaceChar(rubyApplied, '\n', "<br>");
      var current := chapters[|chapters| - 1];
      chapters := chapters[..|chapters| - 1]
                  + [current.(paragraphs := current.paragraphs + [withBreaks])];
      paragraphLines := [];
    }

    method StartChapter(title: string)
      requires Valid()
      modifies this
      ensures Valid() && State() == Start(old(State()), title, Html)
    {
      FlushParagraph();
      chapterIndex := chapterIndex + 1;
      chapters := chapters + [TxtChapter(SafeText(title, ChapterLabel(chapterIndex)), [])];
    }
  }

  /** The id every chapter gets, the toc built from it, and the markup of
      one chapter. */
  function TocOf(chapters: seq<TxtChapter>): (toc: seq<TocEntry>)
    ensures |toc| == |chapters|
    ensures forall i :: 0 <= i < |toc| ==>
              toc[i].chapterId == ChapterId(i + 1) && toc[i].title == chapters[i].title
  {
    seq(|chapters|, i requires 0 <= i < |chapters| => TocEntry(ChapterId(i + 1), chapters[i].title))
  }

  function ParagraphsHtml(paragraphs: seq<string>): seq<string>
  {
    seq(|paragraphs|, i requires 0 <= i < |paragraphs| => "<p>" + paragraphs[i] + "</p>")
  }

  function SectionHtml(chapterId: string, ch: TxtChapter): string
  {
    "\n<section class=\"chapter\" data-chapter=\"" + chapterId + "\" id=\"" + chapterId + "\">\n  <h1>"
    + EscapeHtml(ch.title) + "</h1>\n  " + Join(ParagraphsHtml(ch.paragraphs), "\n") + "\n</section>"
  }

  function SectionsOf(chapters: seq<TxtChapter>): (sections: seq<string>)
    ensures |sections| == |chapters|
    ensures forall i :: 0 <= i < |chapters| ==> sections[i] == SectionHtml(ChapterId(i + 1), chapters[i])
  {
    seq(|chapters|, i requires 0 <= i < |chapters| => SectionHtml(ChapterId(i + 1), chapters[i]))
  }

  /** No two chapters share an id, so every toc link has one target. */
  lemma TocIdsDistinct(chapters: seq<TxtChapter>, i: nat, j: nat)
    requires i < |chapters| && j < |chapters|
    requires TocOf(chapters)[i].chapterId == TocOf(chapters)[j].chapterId
    ensures i == j
  {
    TocIdAt(chapters, i);
    TocIdAt(chapters, j);
    ChapterIdInjective(i + 1, j + 1);
  }

  /** `normalizeTxtToBook(text, filename)`. */
  method NormalizeTxtToBook(text: string, filename: string) returns (book: Book)
    ensures var chapters := CollectChapters(SplitLines(NormalizeNewlines(text)));
            book.toc == TocOf(chapters) && book.html == Join(SectionsOf(chapters), "\n")
    ensures |book.toc| >= 1
    ensures book.title == SafeText(StripExtension(filename), "Untitled") && book.title != []
    ensures book.meta.None? && book.settings.None? && book.progress.None?
  {
    var lines := SplitLines(NormalizeNewlines(text));
    var b := new TxtBuilder();
    for i := 0 to |lines|
      invariant b.Valid()
      invariant Run(b.State(), lines[i..], Html) == Run(Init, lines, Html)
    {
      ghost var before := b.State();
      var line := lines[i];
      if IsHeading(line) {
        b.StartChapter(line[2..]);
      } else {
        if |b.chapters| == 0 {
          b.StartChapter(Implicit);
        }
        if IsBlank(line) {
          b.FlushParagraph();
        } else {
          b.paragraphLines := b.paragraphLines + [line];
        }
      }
      assert b.State() == Step(before, line, Html);
      assert lines[i..][0] == line && lines[i..][1..] == lines[i + 1..];
    }
    assert lines[|lines|..] == [];
    b.FlushParagraph();
    if |b.chapters| == 0 {
      b.StartChapter(Implicit);
    }
    var chapters := b.chapters;
    book := Book(SafeText(StripExtension(filename), "Untitled"),
                 Join(SectionsOf(chapters), "\n"), TocOf(chapters), None, None, None);
  }

  // ---------------------------------------------------------------------
  // An independent description of the chapters

  /** Length of the longest prefix without a `# ` line. */
  function HeadingFreePrefix(lines: seq<string>): (n: nat)
    ensures n <= |lines|
    ensures forall i :: 0 <= i < n ==> !IsHeading(lines[i])
    ensures n < |lines| ==> IsHeading(lines[n])
  {
    if lines == [] || IsHeading(lines[0]) then 0 else 1 + HeadingFreePrefix(lines[1..])
  }

  /** Length of the longest prefix of non-blank lines. */
  function NonBlankPrefix(lines: seq<string>): (n: nat)
    ensures n <= |lines|
    ensures forall i :: 0 <= i < n ==> !IsBlank(lines[i])
    ensures n < |lines| ==> IsBlank(lines[n])
  {
    if lines == [] || IsBlank(lines[0]) then 0 else 1 + NonBlankPrefix(lines[1..])
  }

  /** The maximal runs of non-blank lines, in order. */
  function Runs(lines: seq<string>): (runs: seq<seq<string>>)
    decreases |lines|
  {
    if lines == [] then []
    else if IsBlank(lines[0]) then Runs(lines[1..])
    else
      var n := NonBlankPrefix(lines);
      [lines[..n]] + Runs(lines[n..])
  }

  /** Each run rendered as one paragraph. */
  function RenderAll(runs: seq<seq<string>>, mk: Markup): (ps: seq<string>)
    ensures |ps| == |runs|
  {
    if runs == [] then [] else [mk.paragraph(runs[0])] + RenderAll(runs[1..], mk)
  }

  /** The paragraphs of a chapter body. */
  function Paragraphs(body: seq<string>, mk: Markup): seq<string>
  {
    RenderAll(Runs(body), mk)
  }

  /** The chapter a `# ` line opens, with the lines up to the next one;
      `n` chapters precede it. */
  function HeadChapter(lines: seq<string>, n: nat, mk: Markup): TxtChapter
    requires lines != [] && IsHeading(lines[0])
  {
    var b := HeadingFreePrefix(lines[1..]);
    TxtChapter(mk.title(lines[0][2..], n + 1), Paragraphs(lines[1..1 + b], mk))
  }

  /** What follows that chapter: nothing, or the next `# ` line on. */
  function NextSection(lines: seq<string>): (tail: seq<string>)
    requires lines != []
    ensures |tail| < |lines|
    ensures tail == [] || IsHeading(tail[0])
  {
    var b := HeadingFreePrefix(lines[1..]);
    assert lines[1 + b..] == [] || lines[1 + b..][0] == lines[1..][b];
    lines[1 + HeadingFreePrefix(lines[1..])..]
  }

  /** Chapters opened by `# ` lines; `lines` is empty or starts with one,
      and `n` chapters precede them. */
  function SectionsFrom(lines: seq<string>, n: nat, mk: Markup): seq<TxtChapter>
    requires lines == [] || IsHeading(lines[0])
    decreases |lines|
  {
    if lines == [] then []
    else [HeadChapter(lines, n, mk)] + SectionsFrom(NextSection(lines), n + 1, mk)
  }

  /** The chapters of a document: an implicit `本文` chapter holding any
      lines before the first `# ` line, then one chapter per `# ` line
      holding the lines up to the next one. */
  function BookChapters(lines: seq<string>, mk: Markup): seq<TxtChapter>
  {
    var b := HeadingFreePrefix(lines);
    if b == 0 then SectionsFrom(lines, 0, mk)
    else [TxtChapter(Implicit, Paragraphs(lines[..b], mk))] + SectionsFrom(lines[b..], 1, mk)
  }

  // Lemmas about the runs.

  predicate AllNonBlank(p: seq<string>)
  {
    forall i :: 0 <= i < |p| ==> !IsBlank(p[i])
  }

  lemma {:induction false} NonBlankPrefixOf(p: seq<string>, rest: seq<string>)
    requires AllNonBlank(p)
    requires rest == [] || IsBlank(rest[0])
    ensures NonBlankPrefix(p + rest) == |p|
    decreases |p|
  {
    if p == [] {
      assert p + rest == rest;
    } else {
      assert (p + rest)[0] == p[0] && (p + rest)[1..] == p[1..] + rest;
      NonBlankPrefixOf(p[1..], rest);
    }
  }

  lemma RunsWhole(p: seq<string>)
    requires p != [] && AllNonBlank(p)
    ensures Runs(p) == [p]
  {
    NonBlankPrefixOf(p, []);
    assert p + [] == p;
    assert p[|p|..] == [];
  }

  lemma RunsSplit(p: seq<string>, body: seq<string>)
    requires p != [] && AllNonBlank(p) && body != [] && IsBlank(body[0])
    ensures Runs(p + body) == [p] + Runs(body[1..])
  {
    var s := p + body;
    NonBlankPrefixOf(p, body);
    assert s[..|p|] == p;
    assert s[|p|..] == body;
  }

  lemma RenderAllCons(p: seq<string>, runs: seq<seq<string>>, mk: Markup)
    ensures RenderAll([p] + runs, mk) == [mk.paragraph(p)] + RenderAll(runs, mk)
  {
    assert ([p] + runs)[1..] == runs;
  }

  lemma ParagraphsOfRun(p: seq<string>, mk: Markup)
    requires AllNonBlank(p)
    ensures Paragraphs(p, mk) == if p == [] then [] else [mk.paragraph(p)]
  {
    if p != [] {
      RunsWhole(p);
      RenderAllCons(p, [], mk);
      assert [p] + [] == [p];
    }
  }

  /** Flushing pending non-blank lines adds their paragraph, if any. */
  lemma FlushPending(cs: seq<TxtChapter>, c: TxtChapter, p: seq<string>, mk: Markup)
    requires AllNonBlank(p)
    ensures Flush(ParseState(cs + [c], p), mk)
         == ParseState(cs + [c.(paragraphs := c.paragraphs + Paragraphs(p, mk))], [])
  {
    ParagraphsOfRun(p, mk);
    assert (cs + [c])[..|cs|] == cs;
    if p == [] {
      assert c.paragraphs + [] == c.paragraphs;
    }
  }

  /** A blank line closes the paragraph that the pending lines form. */
  lemma BlankParagraphs(p: seq<string>, body: seq<string>, mk: Markup)
    requires AllNonBlank(p) && body != [] && IsBlank(body[0])
    ensures Paragraphs(p + body, mk) == Paragraphs(p, mk) + Paragraphs(body[1..], mk)
  {
    ParagraphsOfRun(p, mk);
    var pr := Paragraphs(body[1..], mk);
    if p == [] {
      assert p + body == body;
      assert [] + pr == pr;
    } else {
      RunsSplit(p, body);
      RenderAllCons(p, Runs(body[1..]), mk);
    }
  }

  /** A chapter body processed line by line, starting with the pending
      non-blank lines `p`, ends up as the paragraphs of `p + body`. */
  lemma {:induction false} BodyRun(cs: seq<TxtChapter>, c: TxtChapter, p: seq<string>, body: seq<string>, mk: Markup)
    requires AllNonBlank(p)
    requires forall i :: 0 <= i < |body| ==> !IsHeading(body[i])
    ensures Flush(Run(ParseState(cs + [c], p), body, mk), mk)
         == ParseState(cs + [c.(paragraphs := c.paragraphs + Paragraphs(p + body, mk))], [])
    decreases |body|, 1
  {
    if body == [] {
      FlushPending(cs, c, p, mk);
      assert p + body == p;
    } else if IsBlank(body[0]) {
      BodyRunBlank(cs, c, p, body, mk);
    } else {
      BodyRunLine(cs, c, p, body, mk);
    }
  }

  lemma {:induction false} BodyRunBlank(cs: seq<TxtChapter>, c: TxtChapter, p: seq<string>, body: seq<string>, mk: Markup)
    requires AllNonBlank(p) && body != [] && IsBlank(body[0])
    requires forall i :: 0 <= i < |body| ==> !IsHeading(body[i])
    ensures Flush(Run(ParseState(cs + [c], p), body, mk), mk)
         == ParseState(cs + [c.(paragraphs := c.paragraphs + Paragraphs(p + body, mk))], [])
    decreases |body|, 0
  {
    var st := ParseState(cs + [c], p);
    var rest := body[1..];
    var c' := c.(paragraphs := c.paragraphs + Paragraphs(p, mk));
    assert Run(st, body, mk) == Run(Step(st, body[0], mk), rest, mk);
    BlankStep(cs, c, p, body[0], mk);
    BodyRun(cs, c', [], rest, mk);
    BlankBody(c, p, body, mk);
  }

  /** A blank line inside a chapter flushes the pending lines. */
  lemma BlankStep(cs: seq<TxtChapter>, c: TxtChapter, p: seq<string>, l: string, mk: Markup)
    requires AllNonBlank(p) && IsBlank(l) && !IsHeading(l)
    ensures Step(ParseState(cs + [c], p), l, mk)
         == ParseState(cs + [c.(paragraphs := c.paragraphs + Paragraphs(p, mk))], [])
  {
    FlushPending(cs, c, p, mk);
  }

  /** The paragraphs of a body starting with a blank line, split there. */
  lemma BlankBody(c: TxtChapter, p: seq<string>, body: seq<string>, mk: Markup)
    requires AllNonBlank(p) && body != [] && IsBlank(body[0])
    ensures c.paragraphs + Paragraphs(p, mk) + Paragraphs([] + body[1..], mk)
         == c.paragraphs + Paragraphs(p + body, mk)
  {
    var rest := body[1..];
    assert [] + rest == rest;
    BlankParagraphs(p, body, mk);
    AppendAssoc(c.paragraphs, Paragraphs(p, mk), Paragraphs(rest, mk));
  }

  lemma {:induction false} BodyRunLine(cs: seq<TxtChapter>, c: TxtChapter, p: seq<string>, body: seq<string>, mk: Markup)
    requires AllNonBlank(p) && body != [] && !IsBlank(body[0])
    requires forall i :: 0 <= i < |body| ==> !IsHeading(body[i])
    ensures Flush(Run(ParseState(cs + [c], p), body, mk), mk)
         == ParseState(cs + [c.(paragraphs := c.paragraphs + Paragraphs(p + body, mk))], [])
    decreases |body|, 0
  {
    var st := ParseState(cs + [c], p);
    var l, rest := body[0], body[1..];
    assert Run(st, body, mk) == Run(Step(st, l, mk), rest, mk);
    assert Step(st, l, mk) == ParseState(cs + [c], p + [l]);
    assert AllNonBlank(p + [l]);
    BodyRun(cs, c, p + [l], rest, mk);
    assert body == [l] + rest;
    AppendAssoc(p, [l], rest);
  }

  lemma {:induction false} RunAppend(st: ParseState, a: seq<string>, b: seq<string>, mk: Markup)
    ensures Run(st, a + b, mk) == Run(Run(st, a, mk), b, mk)
    decreases |a|
  {
    if a == [] {
      assert a + b == b;
    } else {
      assert (a + b)[0] == a[0] && (a + b)[1..] == a[1..] + b;
      RunAppend(Step(st, a[0], mk), a[1..], b, mk);
    }
  }

  lemma FlushIdempotent(st: ParseState, mk: Markup)
    ensures Flush(Flush(st, mk), mk) == Flush(st, mk)
  {
  }

  /** Before a `# ` line, or at the end, pending lines are flushed anyway. */
  lemma FlushBeforeHeading(st: ParseState, rest: seq<string>, mk: Markup)
    requires rest == [] || IsHeading(rest[0])
    ensures Flush(Run(st, rest, mk), mk) == Flush(Run(Flush(st, mk), rest, mk), mk)
  {
    FlushIdempotent(st, mk);
    if rest != [] {
      assert Step(st, rest[0], mk) == Step(Flush(st, mk), rest[0], mk);
    }
  }

  /** One `# ` line followed by its body adds one complete chapter. */
  lemma ChapterRun(st: ParseState, h: string, body: seq<string>, mk: Markup)
    requires st.pending == [] && IsHeading(h)
    requires forall i :: 0 <= i < |body| ==> !IsHeading(body[i])
    ensures Flush(Run(st, [h] + body, mk), mk)
         == ParseState(st.chapters + [TxtChapter(mk.title(h[2..], |st.chapters| + 1), Paragraphs(body, mk))], [])
  {
    var c0 := TxtChapter(mk.title(h[2..], |st.chapters| + 1), []);
    var y0 := ParseState(st.chapters + [c0], []);
    assert Step(st, h, mk) == y0;
    assert ([h] + body)[0] == h && ([h] + body)[1..] == body;
    assert Run(st, [h] + body, mk) == Run(y0, body, mk);
    BodyRun(st.chapters, c0, [], body, mk);
    assert [] + body == body;
    var ps := Paragraphs(body, mk);
    assert [] + ps == ps;
  }

  /** A heading-led block is its `# ` line, the heading-free body after
      it, and the rest. */
  lemma Decompose(lines: seq<string>)
    requires lines != [] && IsHeading(lines[0])
    ensures var body := lines[1..1 + HeadingFreePrefix(lines[1..])];
            && lines == [lines[0]] + body + NextSection(lines)
            && forall i :: 0 <= i < |body| ==> !IsHeading(body[i])
  {
    var rest := lines[1..];
    var b := HeadingFreePrefix(rest);
    var body := lines[1..1 + b];
    assert lines == [lines[0]] + body + lines[1 + b..];
    forall i | 0 <= i < |body| ensures !IsHeading(body[i]) {
      assert body[i] == rest[i];
    }
  }

  /** The first chapter of a heading-led block, and where the rest starts. */
  lemma ChunkRun(st: ParseState, h: string, body: seq<string>, tail: seq<string>, mk: Markup)
    requires st.pending == [] && IsHeading(h)
    requires forall i :: 0 <= i < |body| ==> !IsHeading(body[i])
    requires tail == [] || IsHeading(tail[0])
    ensures Flush(Run(st, [h] + body + tail, mk), mk)
         == Flush(Run(ParseState(st.chapters + [TxtChapter(mk.title(h[2..], |st.chapters| + 1),
                                                           Paragraphs(body, mk))], []), tail, mk), mk)
  {
    RunAppend(st, [h] + body, tail, mk);
    ChapterRun(st, h, body, mk);
    FlushBeforeHeading(Run(st, [h] + body, mk), tail, mk);
  }

  lemma {:induction false} SectionsRun(st: ParseState, lines: seq<string>, mk: Markup)
    requires st.pending == []
    requires lines == [] || IsHeading(lines[0])
    ensures Flush(Run(st, lines, mk), mk).chapters == st.chapters + SectionsFrom(lines, |st.chapters|, mk)
    decreases |lines|, 1
  {
    if lines == [] {
      assert st.chapters + [] == st.chapters;
    } else {
      SectionsRunCons(st, lines, mk);
    }
  }

  lemma {:induction false} SectionsRunCons(st: ParseState, lines: seq<string>, mk: Markup)
    requires st.pending == []
    requires lines != [] && IsHeading(lines[0])
    ensures Flush(Run(st, lines, mk), mk).chapters == st.chapters + SectionsFrom(lines, |st.chapters|, mk)
    decreases |lines|, 0
  {
    var n := |st.chapters|;
    var body := lines[1..1 + HeadingFreePrefix(lines[1..])];
    var tail := NextSection(lines);
    Decompose(lines);
    ChunkRun(st, lines[0], body, tail, mk);
    var ch := HeadChapter(lines, n, mk);
    SectionsRun(ParseState(st.chapters + [ch], []), tail, mk);
    AppendAssoc(st.chapters, [ch], SectionsFrom(tail, n + 1, mk));
  }

  /** The importer's title for the implicit chapter is `本文` itself. */
  lemma ImplicitTitle()
    ensures Html.title(Implicit, 1) == Implicit
  {
    SafeTextOfTrimmed(Implicit, ChapterLabel(1));
  }

  /** Runs that agree after their first step agree. */
  lemma RunSameAfterFirst(s1: ParseState, s2: ParseState, xs: seq<string>, mk: Markup)
    requires xs != [] && Step(s1, xs[0], mk) == Step(s2, xs[0], mk)
    ensures Run(s1, xs, mk) == Run(s2, xs, mk)
  {
  }

  /** A first line that is not a `# ` line opens the `本文` chapter. */
  lemma ImplicitFirstStep(l: string, mk: Markup)
    requires !IsHeading(l) && mk.title(Implicit, 1) == Implicit
    ensures Step(Init, l, mk) == Step(ParseState([TxtChapter(Implicit, [])], []), l, mk)
  {
    assert [] + [TxtChapter(Implicit, [])] == [TxtChapter(Implicit, [])];
  }

  lemma ImplicitStart(pre: seq<string>, mk: Markup)
    requires pre != [] && !IsHeading(pre[0]) && mk.title(Implicit, 1) == Implicit
    ensures Run(Init, pre, mk) == Run(ParseState([TxtChapter(Implicit, [])], []), pre, mk)
  {
    ImplicitFirstStep(pre[0], mk);
    RunSameAfterFirst(Init, ParseState([TxtChapter(Implicit, [])], []), pre, mk);
  }

  lemma ImplicitBody(pre: seq<string>, mk: Markup)
    requires forall i :: 0 <= i < |pre| ==> !IsHeading(pre[i])
    ensures Flush(Run(ParseState([TxtChapter(Implicit, [])], []), pre, mk), mk)
         == ParseState([TxtChapter(Implicit, Paragraphs(pre, mk))], [])
  {
    var c0 := TxtChapter(Implicit, []);
    BodyRun([], c0, [], pre, mk);
    assert [] + pre == pre;
    var ps := Paragraphs(pre, mk);
    assert [] + ps == ps;
    var c1 := TxtChapter(Implicit, ps);
    assert c0.(paragraphs := c0.paragraphs + ps) == c1;
    assert [] + [c1] == [c1];
    assert [] + [c0] == [c0];
  }

  /** Lines before the first `# ` line form the implicit `本文` chapter. */
  lemma ImplicitRun(pre: seq<string>, mk: Markup)
    requires pre != [] && mk.title(Implicit, 1) == Implicit
    requires forall i :: 0 <= i < |pre| ==> !IsHeading(pre[i])
    ensures Flush(Run(Init, pre, mk), mk) == ParseState([TxtChapter(Implicit, Paragraphs(pre, mk))], [])
  {
    ImplicitStart(pre, mk);
    ImplicitBody(pre, mk);
  }

  /** The state machine builds exactly the chapters the description gives,
      whatever the markup, provided the implicit chapter keeps its name. */
  lemma RunMatchesBookChapters(lines: seq<string>, mk: Markup)
    requires mk.title(Implicit, 1) == Implicit
    ensures Flush(Run(Init, lines, mk), mk).chapters == BookChapters(lines, mk)
  {
    var b := HeadingFreePrefix(lines);
    if b == 0 {
      SectionsRun(Init, lines, mk);
      assert [] + SectionsFrom(lines, 0, mk) == SectionsFrom(lines, 0, mk);
    } else {
      var pre, tail := lines[..b], lines[b..];
      assert lines == pre + tail;
      RunAppend(Init, pre, tail, mk);
      ImplicitRun(pre, mk);
      var y := Run(Init, pre, mk);
      FlushBeforeHeading(y, tail, mk);
      SectionsRun(Flush(y, mk), tail, mk);
    }
  }

  /** The final flush always leaves a chapter, so the `本文` fallback for
      an empty document never fires: even `""` is one (blank) line. */
  lemma CollectChaptersIsBookChapters(text: string)
    ensures var lines := SplitLines(NormalizeNewlines(text));
            CollectChapters(lines) == BookChapters(lines, Html) && |BookChapters(lines, Html)| >= 1
  {
    var lines := SplitLines(NormalizeNewlines(text));
    ImplicitTitle();
    RunMatchesBookChapters(lines, Html);
    ChapterCount(lines, Html);
  }

  // Counting chapters and reading their titles.

  function CountHeadings(lines: seq<string>): (n: nat)
    ensures n <= |lines|
  {
    if lines == [] then 0 else (if IsHeading(lines[0]) then 1 else 0) + CountHeadings(lines[1..])
  }

  /** The `# ` lines' remainders, in order. */
  function HeadingTexts(lines: seq<string>): (ts: seq<string>)
    ensures |ts| == CountHeadings(lines)
  {
    if lines == [] then []
    else (if IsHeading(lines[0]) then [lines[0][2..]] else []) + HeadingTexts(lines[1..])
  }

  lemma {:induction false} HeadingTextsAppend(a: seq<string>, b: seq<string>)
    ensures HeadingTexts(a + b) == HeadingTexts(a) + HeadingTexts(b)
    decreases |a|
  {
    if a == [] {
      assert a + b == b;
    } else {
      assert (a + b)[0] == a[0] && (a + b)[1..] == a[1..] + b;
      HeadingTextsAppend(a[1..], b);
    }
  }

  lemma {:induction false} HeadingTextsFree(a: seq<string>)
    requires forall i :: 0 <= i < |a| ==> !IsHeading(a[i])
    ensures HeadingTexts(a) == []
    decreases |a|
  {
    if a != [] {
      HeadingTextsFree(a[1..]);
    }
  }

  /** The titles of a list of chapters. */
  function Titles(chs: seq<TxtChapter>): (ts: seq<string>)
    ensures |ts| == |chs|
  {
    if chs == [] then [] else [chs[0].title] + Titles(chs[1..])
  }

  /** Titles made from heading texts, the first of them being chapter `k`. */
  function HeadingTitles(texts: seq<string>, k: nat, mk: Markup): (ts: seq<string>)
    ensures |ts| == |texts|
  {
    if texts == [] then [] else [mk.title(texts[0], k)] + HeadingTitles(texts[1..], k + 1, mk)
  }

  lemma HeadingTitlesCons(t: string, ts: seq<string>, k: nat, mk: Markup)
    ensures HeadingTitles([t] + ts, k, mk) == [mk.title(t, k)] + HeadingTitles(ts, k + 1, mk)
  {
    assert ([t] + ts)[0] == t && ([t] + ts)[1..] == ts;
  }

  lemma TitlesCons(c: TxtChapter, cs: seq<TxtChapter>)
    ensures Titles([c] + cs) == [c.title] + Titles(cs)
  {
    assert ([c] + cs)[0] == c && ([c] + cs)[1..] == cs;
  }

  /** The `i`-th heading text titles chapter `k + i`. */
  lemma {:induction false} HeadingTitlesAt(texts: seq<string>, k: nat, i: nat, mk: Markup)
    requires i < |texts|
    ensures HeadingTitles(texts, k, mk)[i] == mk.title(texts[i], k + i)
    decreases i
  {
    if i > 0 {
      var rest := HeadingTitles(texts[1..], k + 1, mk);
      assert HeadingTitles(texts, k, mk)[i] == rest[i - 1];
      HeadingTitlesAt(texts[1..], k + 1, i - 1, mk);
      assert texts[1..][i - 1] == texts[i] && k + 1 + (i - 1) == k + i;
    }
  }

  lemma {:induction false} TitlesAppend(a: seq<TxtChapter>, b: seq<TxtChapter>)
    ensures Titles(a + b) == Titles(a) + Titles(b)
    decreases |a|
  {
    if a == [] {
      assert a + b == b;
    } else {
      assert (a + b)[0] == a[0] && (a + b)[1..] == a[1..] + b;
      TitlesAppend(a[1..], b);
    }
  }

  /** The heading texts of a block: its own `# ` line's, then the rest's. */
  lemma HeadingTextsChunk(h: string, body: seq<string>, tail: seq<string>)
    requires IsHeading(h)
    requires forall i :: 0 <= i < |body| ==> !IsHeading(body[i])
    ensures HeadingTexts([h] + body + tail) == [h[2..]] + HeadingTexts(tail)
  {
    HeadingTextsAppend([h] + body, tail);
    HeadingTextsAppend([h], body);
    HeadingTextsFree(body);
    assert [h][1..] == [];
    var ht := [h[2..]];
    assert HeadingTexts([h]) == ht;
    assert ht + [] == ht;
  }

  /** Chapter titles of a heading-led block come from its `# ` lines. */
  lemma {:induction false} SectionsFromTitles(lines: seq<string>, n: nat, mk: Markup)
    requires lines == [] || IsHeading(lines[0])
    ensures Titles(SectionsFrom(lines, n, mk)) == HeadingTitles(HeadingTexts(lines), n + 1, mk)
    decreases |lines|, 1
  {
    if lines != [] {
      SectionsFromTitlesCons(lines, n, mk);
    }
  }

  lemma {:induction false} SectionsFromTitlesCons(lines: seq<string>, n: nat, mk: Markup)
    requires lines != [] && IsHeading(lines[0])
    ensures Titles(SectionsFrom(lines, n, mk)) == HeadingTitles(HeadingTexts(lines), n + 1, mk)
    decreases |lines|, 0
  {
    var body := lines[1..1 + HeadingFreePrefix(lines[1..])];
    var tail := NextSection(lines);
    Decompose(lines);
    HeadingTextsChunk(lines[0], body, tail);
    HeadingTitlesCons(lines[0][2..], HeadingTexts(tail), n + 1, mk);
    SectionsFromTitles(tail, n + 1, mk);
    TitlesCons(HeadChapter(lines, n, mk), SectionsFrom(tail, n + 1, mk));
  }

  /** Chapter count and titles: one chapter per `# ` line, titled from
      it, preceded by the implicit `本文` chapter when the first line is
      not a `# ` line. */
  lemma ChapterTitles(lines: seq<string>, mk: Markup)
    ensures |lines| > 0 && !IsHeading(lines[0]) ==>
              Titles(BookChapters(lines, mk)) == [Implicit] + HeadingTitles(HeadingTexts(lines), 2, mk)
    ensures !(|lines| > 0 && !IsHeading(lines[0])) ==>
              Titles(BookChapters(lines, mk)) == HeadingTitles(HeadingTexts(lines), 1, mk)
  {
    if HeadingFreePrefix(lines) == 0 {
      NoLeadChapterTitles(lines, mk);
    } else {
      LeadChapterTitles(lines, mk);
    }
  }

  lemma NoLeadChapterTitles(lines: seq<string>, mk: Markup)
    requires HeadingFreePrefix(lines) == 0
    ensures Titles(BookChapters(lines, mk)) == HeadingTitles(HeadingTexts(lines), 1, mk)
  {
    assert lines == [] || IsHeading(lines[0]);
    SectionsFromTitles(lines, 0, mk);
  }

  lemma LeadChapterTitles(lines: seq<string>, mk: Markup)
    requires HeadingFreePrefix(lines) > 0
    ensures Titles(BookChapters(lines, mk)) == [Implicit] + HeadingTitles(HeadingTexts(lines), 2, mk)
  {
    var b := HeadingFreePrefix(lines);
    var tail := lines[b..];
    assert lines == lines[..b] + tail;
    HeadingTextsAppend(lines[..b], tail);
    HeadingTextsFree(lines[..b]);
    var ht := HeadingTexts(tail);
    assert [] + ht == ht;
    SectionsFromTitles(tail, 1, mk);
    var c0 := TxtChapter(Implicit, Paragraphs(lines[..b], mk));
    var later := SectionsFrom(tail, 1, mk);
    assert BookChapters(lines, mk) == [c0] + later;
    TitlesCons(c0, later);
  }

  lemma ChapterCount(lines: seq<string>, mk: Markup)
    ensures var lead := if |lines| > 0 && !IsHeading(lines[0]) then 1 else 0;
            |BookChapters(lines, mk)| == CountHeadings(lines) + lead
    ensures |lines| >= 1 ==> |BookChapters(lines, mk)| >= 1
  {
    ChapterTitles(lines, mk);
  }


  // What the paragraphs hold.

  function NonBlankLines(lines: seq<string>): seq<string>
  {
    if lines == [] then []
    else (if IsBlank(lines[0]) then [] else [lines[0]]) + NonBlankLines(lines[1..])
  }

  function Flatten(runs: seq<seq<string>>): seq<string>
  {
    if runs == [] then [] else runs[0] + Flatten(runs[1..])
  }

  lemma {:induction false} NonBlankLinesAppend(a: seq<string>, b: seq<string>)
    ensures NonBlankLines(a + b) == NonBlankLines(a) + NonBlankLines(b)
    decreases |a|
  {
    if a == [] {
      assert a + b == b;
    } else {
      assert (a + b)[0] == a[0] && (a + b)[1..] == a[1..] + b;
      NonBlankLinesAppend(a[1..], b);
    }
  }

  lemma {:induction false} NonBlankLinesAll(a: seq<string>)
    requires AllNonBlank(a)
    ensures NonBlankLines(a) == a
    decreases |a|
  {
    if a != [] {
      NonBlankLinesAll(a[1..]);
      assert a == [a[0]] + a[1..];
    }
  }

  /** Paragraph runs are never empty, hold no blank line, and together
      hold every non-blank line of the body exactly once, in order. */
  lemma {:induction false} RunsPartitionBody(body: seq<string>)
    ensures forall i :: 0 <= i < |Runs(body)| ==> Runs(body)[i] != [] && AllNonBlank(Runs(body)[i])
    ensures Flatten(Runs(body)) == NonBlankLines(body)
    decreases |body|
  {
    if body != [] {
      if IsBlank(body[0]) {
        RunsPartitionBody(body[1..]);
      } else {
        var n := NonBlankPrefix(body);
        RunsPartitionBody(body[n..]);
        assert body == body[..n] + body[n..];
        NonBlankLinesAppend(body[..n], body[n..]);
        NonBlankLinesAll(body[..n]);
        assert Runs(body)[1..] == Runs(body[n..]);
      }
    }
  }

  // ---------------------------------------------------------------------
  // Proof helpers: facts about sequences and strings that the proofs
  // above use; they have no counterpart in the source.

  lemma AppendAssoc<T>(a: seq<T>, b: seq<T>, c: seq<T>)
    ensures a + b + c == a + (b + c)
  {
  }

  lemma TocIdAt(chapters: seq<TxtChapter>, i: nat)
    requires i < |chapters|
    ensures TocOf(chapters)[i].chapterId == ChapterId(i + 1)
  {
  }
}
