/** The import helpers of js/library.js: counting replacement characters,
    choosing between the UTF-8 and the Shift_JIS decoding of a text file,
    the debug report of that choice, and the normalisation of an HTML
    document into chapters.

    `TextDecoder`, the file reader and `DOMParser` are not modelled as
    code: the two decodings and the parsed document are inputs. */
module Library {
  import opened Common
  import opened Utils
  import opened BookModel
  import opened NormalizeTxt
  import opened Storage

  // ---------------------------------------------------------------------
  // Decoding a text file

  /** U+FFFD, what a non-fatal decoder puts where the bytes make no sense. */
  const ReplacementChar := '\U{FFFD}'

  /** How many characters of a decoding could not be decoded. */
  function Score(text: string): nat
  {
    multiset(text)[ReplacementChar]
  }

  /** `countReplacement`: the loop over the characters of the text. */
  method CountReplacement(text: string) returns (n: nat)
    ensures n == Score(text)
  {
    n := 0;
    for i := 0 to |text|
      invariant n == multiset(text[..i])[ReplacementChar]
    {
      assert text[..i + 1] == text[..i] + [text[i]];
      if text[i] == ReplacementChar {
        n := n + 1;
      }
    }
    assert text[..|text|] == text;
  }

  /** A score is zero exactly when no character is a replacement. */
  lemma ScoreZero(text: string)
    ensures Score(text) == 0 <==> ReplacementChar !in text
  {
    assert ReplacementChar in text <==> ReplacementChar in multiset(text);
  }

  /** `replace(/^\uFEFF/, "")`: one leading byte order mark is dropped. */
  function StripBom(s: string): (r: string)
    ensures |s| >= 1 && s[0] == '\U{FEFF}' ==> r == s[1..]
    ensures !(|s| >= 1 && s[0] == '\U{FEFF}') ==> r == s
  {
    if |s| >= 1 && s[0] == '\U{FEFF}' then s[1..] else s
  }

  /** `replace(/\r\n?/g, "\n")`: a carriage return and the line feed that
      may follow it become one line feed. */
  function ReplaceCrLfOrCr(s: string): string
    decreases |s|
  {
    if s == [] then []
    else if s[0] == '\r' then
      "\n" + ReplaceCrLfOrCr(if |s| >= 2 && s[1] == '\n' then s[2..] else s[1..])
    else [s[0]] + ReplaceCrLfOrCr(s[1..])
  }

  /** A decoding as `decodeTxtAuto` cleans it. */
  function CleanDecoded(decoded: string): string
  {
    ReplaceCrLfOrCr(StripBom(decoded))
  }

  /** The single regular expression of the decoder does what the two
      passes of the plain-text importer do. */
  lemma {:induction false} ReplaceCrLfOrCrIsNormalizeNewlines(s: string)
    ensures ReplaceCrLfOrCr(s) == NormalizeNewlines(s)
    decreases |s|
  {
    if s != [] {
      var crLf := |s| >= 2 && s[0] == '\r' && s[1] == '\n';
      var rest := if crLf then s[2..] else s[1..];
      var head := if crLf then "\n" else [s[0]];
      assert ReplaceCrLf(s) == head + ReplaceCrLf(rest);
      ReplaceCharAppend(head, ReplaceCrLf(rest), '\r', "\n");
      if !crLf {
        ReplaceCharSingle(s[0], '\r', "\n");
      } else {
        ReplaceCharSingle('\n', '\r', "\n");
      }
      ReplaceCrLfOrCrIsNormalizeNewlines(rest);
    }
  }

  lemma {:induction false} ReplaceCrLfNoCr(s: string)
    requires '\r' !in s
    ensures ReplaceCrLf(s) == s
    decreases |s|
  {
    if s != [] {
      assert s[0] != '\r';
      ReplaceCrLfNoCr(s[1..]);
    }
  }

  /** A cleaned decoding holds no carriage return, so the plain-text
      importer's own newline normalisation leaves it unchanged. */
  lemma CleanDecodedIsNormal(decoded: string)
    ensures CleanDecoded(decoded) == NormalizeNewlines(StripBom(decoded))
    ensures '\r' !in CleanDecoded(decoded)
    ensures NormalizeNewlines(CleanDecoded(decoded)) == CleanDecoded(decoded)
  {
    var t := CleanDecoded(decoded);
    ReplaceCrLfOrCrIsNormalizeNewlines(StripBom(decoded));
    NormalizeNewlinesNoCr(StripBom(decoded));
    ReplaceCrLfNoCr(t);
    ReplaceCharAbsent(t, '\r', "\n");
  }

  /** `(text || "").slice(0, 200)`, counted in characters. */
  function Head(text: string): (h: string)
    ensures h <= text
    ensures |h| == if |text| <= 200 then |text| else 200
  {
    if |text| <= 200 then text else text[..200]
  }

  /** The middle line of the debug report; a Shift_JIS score of `None`
      stands for the `Infinity` of a decoder that failed. */
  function ScoreLine(utf8Score: nat, sjScore: Option<nat>): string
  {
    "score utf: " + NatToString(utf8Score) + " / sjis: "
      + (if sjScore.None? then "N/A" else NatToString(sjScore.value))
  }

  /** The two decodings `decodeTxtAuto` chooses between. */
  datatype Encoding = Utf8 | ShiftJis

  /** The name an encoding goes by in the result and in the report. */
  function EncodingName(e: Encoding): (name: string)
    ensures '\n' !in name
  {
    match e
    case Utf8 => "utf-8"
    case ShiftJis => "shift_jis"
  }

  /** What the encoding selector's value asks for: the two encoding names
      force that decoding, anything else (`auto`) lets the scores decide. */
  datatype Mode = Auto | Forced(encoding: Encoding)

  function ModeOf(value: string): (m: Mode)
    ensures m == Forced(Utf8) <==> value == EncodingName(Utf8)
    ensures m == Forced(ShiftJis) <==> value == EncodingName(ShiftJis)
  {
    if value == "utf-8" then Forced(Utf8)
    else if value == "shift_jis" then Forced(ShiftJis)
    else Auto
  }

  /** `formatDebug`, and the report built in place at the end of
      `decodeTxtAuto`, which is the same three lines. */
  function FormatDebug(picked: Encoding, utf8Score: nat, sjScore: Option<nat>, text: string): string
  {
    Join(["picked: " + EncodingName(picked), ScoreLine(utf8Score, sjScore), "head: " + Head(text)], "\n")
  }

  /** What `decodeTxtAuto` resolves to. */
  datatype Decoded = Decoded(text: string, encoding: Encoding, debug: string)

  /** `shiftJis` is truthy: the decoder succeeded and left some text. */
  predicate SjUsable(sjDecoded: Option<string>)
  {
    sjDecoded.Some? && CleanDecoded(sjDecoded.value) != []
  }

  /** The Shift_JIS score as the report shows it; `None` stands for the
      `Infinity` of a decoder that failed. */
  function SjScore(sjDecoded: Option<string>): Option<nat>
  {
    if sjDecoded.Some? then Some(Score(CleanDecoded(sjDecoded.value))) else None
  }

  /** `decodeTxtAuto` given both decodings of the file's bytes; the
      Shift_JIS one is `None` when that decoder throws. `mode` is the
      encoding selector's value. */
  function DecodeTxtAuto(utf8Decoded: string, sjDecoded: Option<string>, mode: string): Decoded
  {
    var utf8 := CleanDecoded(utf8Decoded);
    var utf8Score := Score(utf8);
    var sjScore := SjScore(sjDecoded);
    var usable := SjUsable(sjDecoded);
    var m := ModeOf(mode);
    if m == Forced(Utf8) then
      Decoded(utf8, Utf8, FormatDebug(Utf8, utf8Score, sjScore, utf8))
    else if m == Forced(ShiftJis) && usable then
      var shiftJis := CleanDecoded(sjDecoded.value);
      Decoded(shiftJis, ShiftJis, FormatDebug(ShiftJis, utf8Score, sjScore, shiftJis))
    else
      var picked := if usable && sjScore.value < utf8Score then ShiftJis else Utf8;
      var chosen := if picked == ShiftJis then CleanDecoded(sjDecoded.value) else utf8;
      Decoded(chosen, picked, FormatDebug(picked, utf8Score, sjScore, chosen))
  }

  /** The returned text is the cleaned decoding named by the returned
      encoding; `utf-8` forces UTF-8, `shift_jis` forces Shift_JIS when it
      decoded to something, and otherwise Shift_JIS is picked exactly
      when it decoded to something with fewer replacement characters. */
  lemma DecodeTxtAutoChoice(utf8Decoded: string, sjDecoded: Option<string>, mode: string)
    ensures var d := DecodeTxtAuto(utf8Decoded, sjDecoded, mode);
            && (d.encoding == Utf8 ==> d.text == CleanDecoded(utf8Decoded))
            && (d.encoding == ShiftJis ==> SjUsable(sjDecoded) && d.text == CleanDecoded(sjDecoded.value))
            && (mode == "utf-8" ==> d.encoding == Utf8)
            && (mode == "shift_jis" && SjUsable(sjDecoded) ==> d.encoding == ShiftJis)
            && (mode != "utf-8" && !(mode == "shift_jis" && SjUsable(sjDecoded)) ==>
                  (d.encoding == ShiftJis <==>
                     SjUsable(sjDecoded)
                     && Score(CleanDecoded(sjDecoded.value)) < Score(CleanDecoded(utf8Decoded))))
            && '\r' !in d.text
  {
    CleanDecodedIsNormal(utf8Decoded);
    if sjDecoded.Some? {
      CleanDecodedIsNormal(sjDecoded.value);
    }
  }

  /** Unless Shift_JIS is forced, the automatic choice never has more
      replacement characters than either usable candidate, and a UTF-8
      decoding without any is always kept. */
  lemma DecodeTxtAutoBest(utf8Decoded: string, sjDecoded: Option<string>, mode: string)
    requires mode != "shift_jis"
    ensures var d := DecodeTxtAuto(utf8Decoded, sjDecoded, mode);
            && (mode != "utf-8" ==> Score(d.text) <= Score(CleanDecoded(utf8Decoded)))
            && (mode != "utf-8" && SjUsable(sjDecoded) ==>
                  Score(d.text) <= Score(CleanDecoded(sjDecoded.value)))
            && (ReplacementChar !in CleanDecoded(utf8Decoded) ==> d.encoding == Utf8)
  {
    ScoreZero(CleanDecoded(utf8Decoded));
  }

  /** The score line reads `N/A` at its end exactly when the Shift_JIS
      decoder failed, and it holds no line break. */
  lemma ScoreLineShape(utf8Score: nat, sjScore: Option<nat>)
    ensures var l := ScoreLine(utf8Score, sjScore);
            && (|l| >= 3 && l[|l| - 3..] == "N/A" <==> sjScore.None?)
            && forall i :: 0 <= i < |l| ==> l[i] != '\n'
  {
    var l := ScoreLine(utf8Score, sjScore);
    var u := NatToString(utf8Score);
    var tail := if sjScore.None? then "N/A" else NatToString(sjScore.value);
    var front := "score utf: " + u + " / sjis: ";
    assert l == front + tail;
    NatToStringNoNewline(utf8Score);
    assert forall i :: 0 <= i < |front| ==> front[i] != '\n' by {
      forall i | 0 <= i < |front|
        ensures front[i] != '\n'
      {
        if 11 <= i < 11 + |u| {
          assert front[i] == u[i - 11];
        }
      }
    }
    if sjScore.Some? {
      NatToStringNoNewline(sjScore.value);
      assert l[|l| - 1] == tail[|tail| - 1];
      assert '0' <= l[|l| - 1] <= '9';
      assert |l| >= 3 ==> l[|l| - 3..][2] == l[|l| - 1];
    } else {
      assert l[|l| - 3..] == tail;
    }
    forall i | 0 <= i < |l|
      ensures l[i] != '\n'
    {
      if i >= |front| {
        assert l[i] == tail[i - |front|];
      }
    }
  }

  /** The report reads back line by line: the first line names the
      encoding, the second is the score line, and the rest, rejoined, is
      the head of the text. */
  lemma PickedLineNoNewline(picked: string)
    requires '\n' !in picked
    ensures '\n' !in "picked: " + picked
  {
    var a := "picked: " + picked;
    forall i | 0 <= i < |a|
      ensures a[i] != '\n'
    {
      if i >= 8 {
        assert a[i] == picked[i - 8];
      }
    }
  }

  lemma JoinThree(a: string, b: string, c: string)
    ensures Join([a, b, c], "\n") == a + "\n" + (b + "\n" + c)
  {
    JoinCons(b, [c], "\n");
    assert [b, c] == [b] + [c];
    JoinCons(a, [b, c], "\n");
    assert [a, b, c] == [a] + [b, c];
  }

  lemma SplitTwoLines(a: string, b: string, c: string)
    requires '\n' !in a && '\n' !in b
    ensures var lines := SplitLines(a + "\n" + (b + "\n" + c));
            |lines| >= 3 && lines[0] == a && lines[1] == b && lines[2..] == SplitLines(c)
  {
    var rest := SplitLines(c);
    SplitLinesCons(b, c);
    SplitLinesCons(a, b + "\n" + c);
    DropTwo(a, b, rest);
  }

  lemma SplitThreeLines(a: string, b: string, c: string)
    requires '\n' !in a && '\n' !in b
    ensures var lines := SplitLines(Join([a, b, c], "\n"));
            |lines| >= 3 && lines[0] == a && lines[1] == b && Join(lines[2..], "\n") == c
  {
    JoinThree(a, b, c);
    SplitTwoLines(a, b, c);
    JoinSplitLines(c);
  }

  lemma FormatDebugLines(picked: Encoding, utf8Score: nat, sjScore: Option<nat>, text: string)
    ensures var lines := SplitLines(FormatDebug(picked, utf8Score, sjScore, text));
            && |lines| >= 3
            && lines[0] == "picked: " + EncodingName(picked)
            && lines[1] == ScoreLine(utf8Score, sjScore)
            && Join(lines[2..], "\n") == "head: " + Head(text)
  {
    PickedLineNoNewline(EncodingName(picked));
    ScoreLineShape(utf8Score, sjScore);
    SplitThreeLines("picked: " + EncodingName(picked), ScoreLine(utf8Score, sjScore), "head: " + Head(text));
  }

  /** The report of a decoding names the encoding picked, shows `N/A`
      exactly when Shift_JIS could not be decoded, and ends with the first
      200 characters of the text returned. */
  lemma DecodeTxtAutoDebug(utf8Decoded: string, sjDecoded: Option<string>, mode: string)
    ensures var d := DecodeTxtAuto(utf8Decoded, sjDecoded, mode);
            var lines := SplitLines(d.debug);
            && |lines| >= 3
            && lines[0] == "picked: " + EncodingName(d.encoding)
            && (|lines[1]| >= 3 && lines[1][|lines[1]| - 3..] == "N/A" <==> sjDecoded.None?)
            && Join(lines[2..], "\n") == "head: " + Head(d.text)
  {
    var d := DecodeTxtAuto(utf8Decoded, sjDecoded, mode);
    var utf8Score := Score(CleanDecoded(utf8Decoded));
    DecodeTxtAutoReport(utf8Decoded, sjDecoded, mode);
    FormatDebugLines(d.encoding, utf8Score, SjScore(sjDecoded), d.text);
    ScoreLineShape(utf8Score, SjScore(sjDecoded));
  }

  lemma DecodeTxtAutoReport(utf8Decoded: string, sjDecoded: Option<string>, mode: string)
    ensures var d := DecodeTxtAuto(utf8Decoded, sjDecoded, mode);
            d.debug == FormatDebug(d.encoding, Score(CleanDecoded(utf8Decoded)), SjScore(sjDecoded), d.text)
  {
  }

  // ---------------------------------------------------------------------
  // Normalising an HTML document

  /** The chapter `normalizeHtmlToBook` builds when the document has
      none: a heading with the given title followed by what the body held. */
  function WrappedChapter(title: string, body: seq<Node>): HtmlChapter
  {
    HtmlChapter(None, None, Some(title), [Heading(title)] + body)
  }

  /** The chapter at `index` once its attributes are set and, when it had
      no `h1`, a `章N` heading is put in front of its content. */
  function NormalizeChapter(ch: HtmlChapter, index: nat): HtmlChapter
  {
    var id := ChapterIdOf(ch, index);
    var withId := ch.(id := Some(id), dataChapter := Some(id));
    if ch.firstH1.Some? then withId
    else withId.(firstH1 := Some(ChapterLabel(index + 1)),
                 children := [Heading(ChapterLabel(index + 1))] + ch.children)
  }

  function NormalizedChapters(chapters: seq<HtmlChapter>): (r: seq<HtmlChapter>)
    ensures |r| == |chapters|
  {
    seq(|chapters|, i requires 0 <= i < |chapters| => NormalizeChapter(chapters[i], i))
  }

  /** A parsed document as `normalizeHtmlToBook` sees it: its
      `section.chapter` elements in document order, and the child nodes of
      its body, which only matter when there is no chapter. */
  class HtmlDocument {
    var chapters: seq<HtmlChapter>
    var body: seq<Node>

    constructor (chapters: seq<HtmlChapter>, body: seq<Node>)
      ensures this.chapters == chapters && this.body == body
    {
      this.chapters := chapters;
      this.body := body;
    }

    /** A new `section.chapter` takes a heading and every node of the
        body, and becomes the body's only content. */
    method WrapBody(title: string)
      modifies this
      ensures chapters == [WrappedChapter(title, old(body))]
      ensures body == []
    {
      chapters := [WrappedChapter(title, body)];
      body := [];
    }

    /** `setAttribute("id", id)` and `setAttribute("data-chapter", id)`. */
    method SetChapterId(i: nat, id: string)
      requires i < |chapters|
      modifies this
      ensures chapters == old(chapters)[i := old(chapters)[i].(id := Some(id), dataChapter := Some(id))]
      ensures body == old(body)
    {
      chapters := chapters[i := chapters[i].(id := Some(id), dataChapter := Some(id))];
    }

    /** `chapter.prepend(newH1)`: the new heading is now the chapter's
        first `h1`. */
    method PrependHeading(i: nat, text: string)
      requires i < |chapters|
      modifies this
      ensures chapters == old(chapters)[i := old(chapters)[i].(
                firstH1 := Some(text), children := [Heading(text)] + old(chapters)[i].children)]
      ensures body == old(body)
    {
      chapters := chapters[i := chapters[i].(firstH1 := Some(text), children := [Heading(text)] + chapters[i].children)];
    }
  }

  /** The chapters normalisation works on: the document's own, or the one
      wrapped around the whole body when it has none. */
  function ChaptersToNormalize(chapters: seq<HtmlChapter>, body: seq<Node>, filename: string): (r: seq<HtmlChapter>)
    ensures |r| >= 1
  {
    if chapters == [] then [WrappedChapter(SafeText(StripExtension(filename), "本文"), body)]
    else chapters
  }

  /** A normalised chapter carries its toc entry's id in both attributes
      and has a first heading whose trimmed text is the entry's title;
      the table of contents read off it is the one read off the chapter
      before. */
  lemma NormalizeChapterToc(ch: HtmlChapter, index: nat)
    ensures var n, e := NormalizeChapter(ch, index), TocEntryOf(ch, index);
            && n.id == Some(e.chapterId) && n.dataChapter == Some(e.chapterId)
            && n.firstH1.Some?
            && SafeText(n.firstH1.value, ChapterLabel(index + 1)) == e.title
            && TocEntryOf(n, index) == e
  {
    ChapterIdShape(index + 1);
  }

  /** Normalising twice changes nothing more. */
  lemma NormalizeChapterIdempotent(ch: HtmlChapter, index: nat)
    ensures NormalizeChapter(NormalizeChapter(ch, index), index) == NormalizeChapter(ch, index)
  {
    ChapterIdShape(index + 1);
  }

  /** The toc of the normalised chapters is the toc of the originals. */
  lemma NormalizedToc(chapters: seq<HtmlChapter>)
    ensures GenerateTocFromHtml(NormalizedChapters(chapters)) == GenerateTocFromHtml(chapters)
  {
    forall i | 0 <= i < |chapters|
      ensures GenerateTocFromHtml(NormalizedChapters(chapters))[i] == GenerateTocFromHtml(chapters)[i]
    {
      NormalizeChapterToc(chapters[i], i);
    }
  }

  lemma TocPrefixStep(chapters: seq<HtmlChapter>, i: nat)
    requires i < |chapters|
    ensures GenerateTocFromHtml(chapters[..i + 1])
            == GenerateTocFromHtml(chapters[..i]) + [TocEntryOf(chapters[i], i)]
  {
  }

  /** `chapters.map(chapter => chapter.outerHTML).join("\n")`. */
  function ChaptersHtml(chapters: seq<HtmlChapter>, outerHtml: HtmlChapter -> string): string
  {
    Join(seq(|chapters|, i requires 0 <= i < |chapters| => outerHtml(chapters[i])), "\n")
  }

  /** The callback `chapters.map` runs on the chapter at `i`: it sets the
      chapter's attributes, gives it a heading when it has none, and
      returns its toc entry. */
  method NormalizeChapterAt(doc: HtmlDocument, i: nat) returns (entry: TocEntry)
    requires i < |doc.chapters|
    modifies doc
    ensures doc.chapters == old(doc.chapters)[i := NormalizeChapter(old(doc.chapters)[i], i)]
    ensures doc.body == old(doc.body)
    ensures entry == TocEntryOf(old(doc.chapters)[i], i)
  {
    var chapter := doc.chapters[i];
    var chapterId := if chapter.id.Some? && chapter.id.value != [] then chapter.id.value else ChapterId(i + 1);
    doc.SetChapterId(i, chapterId);
    var title;
    if chapter.firstH1.Some? {
      title := chapter.firstH1.value;
    } else {
      title := ChapterLabel(i + 1);
      doc.PrependHeading(i, title);
    }
    entry := TocEntry(chapterId, SafeText(title, ChapterLabel(i + 1)));
  }

  /** `normalizeHtmlToBook` on a parsed document with its scripts already
      removed; `outerHtml` serialises a chapter element. */
  method NormalizeHtmlToBook(doc: HtmlDocument, filename: string, outerHtml: HtmlChapter -> string)
    returns (book: Book)
    modifies doc
    ensures doc.chapters == NormalizedChapters(ChaptersToNormalize(old(doc.chapters), old(doc.body), filename))
    ensures book.toc == GenerateTocFromHtml(doc.chapters)
    ensures book.toc == GenerateTocFromHtml(ChaptersToNormalize(old(doc.chapters), old(doc.body), filename))
    ensures |book.toc| >= 1
    ensures book.html == ChaptersHtml(doc.chapters, outerHtml)
    ensures book.title == SafeText(StripExtension(filename), "Untitled")
    ensures book.meta.None? && book.settings.None? && book.progress.None?
  {
    if |doc.chapters| == 0 {
      doc.WrapBody(SafeText(StripExtension(filename), "本文"));
    }
    ghost var original := doc.chapters;
    var toc: seq<TocEntry> := [];
    for i := 0 to |doc.chapters|
      invariant |doc.chapters| == |original|
      invariant forall j :: 0 <= j < i ==> doc.chapters[j] == NormalizeChapter(original[j], j)
      invariant forall j :: i <= j < |original| ==> doc.chapters[j] == original[j]
      invariant toc == GenerateTocFromHtml(original[..i])
    {
      var entry := NormalizeChapterAt(doc, i);
      TocPrefixStep(original, i);
      toc := toc + [entry];
    }
    assert original[..|original|] == original;
    assert doc.chapters == NormalizedChapters(original);
    NormalizedToc(original);
    book := Book(SafeText(StripExtension(filename), "Untitled"), ChaptersHtml(doc.chapters, outerHtml),
                 toc, None, None, None);
  }

  // ---------------------------------------------------------------------
  // Proof helpers: facts about sequences and strings that the proofs
  // above use; they have no counterpart in the source.

  lemma DropTwo<T>(x: T, y: T, rest: seq<T>)
    ensures ([x] + ([y] + rest))[2..] == rest
  {
  }

  lemma NatToStringNoNewline(n: nat)
    ensures forall i :: 0 <= i < |NatToString(n)| ==> NatToString(n)[i] != '\n'
  {
  }
}
