/** The bundle format of js/storage.js: importing a `.zip` bundle into a
    book, exporting a book together with the reader's settings and
    progress, and regenerating a table of contents from chapter markup.

    An archive is a map from entry name to entry. Reading the archive
    bytes, `JSON.parse`/`JSON.stringify` and `DOMParser` are not modelled
    as code: the import takes the JSON and HTML parsers as functions, the
    export takes the JSON serializer. */
module Storage {
  import opened Common
  import opened Utils
  import opened BookModel

  // ---------------------------------------------------------------------
  // Chapter markup as the DOM presents it

  /** A child node of a chapter element: an `h1` with its text, or any
      other markup. */
  datatype Node = Heading(text: string) | Markup(html: string)

  /** A `section.chapter` element: its `id` and `data-chapter` attributes
      (`None` when absent), the text content of its first `h1` descendant
      (`None` when it has none) and its child nodes. */
  datatype HtmlChapter = HtmlChapter(
    id: Option<string>,
    dataChapter: Option<string>,
    firstH1: Option<string>,
    children: seq<Node>)

  /** `chapter.getAttribute("id") || "chapter-NNN"` for the chapter at
      position `index` (0-based). */
  function ChapterIdOf(ch: HtmlChapter, index: nat): string
  {
    if ch.id.Some? && ch.id.value != [] then ch.id.value else ChapterId(index + 1)
  }

  /** The toc entry `generateTocFromHtml` makes for the chapter at
      `index`: the first `h1`'s text, or `章N` when there is none, passed
      through `safeText` with `章N` as fallback. */
  function TocEntryOf(ch: HtmlChapter, index: nat): TocEntry
  {
    var defaultTitle := ChapterLabel(index + 1);
    var title := if ch.firstH1.Some? then ch.firstH1.value else defaultTitle;
    TocEntry(ChapterIdOf(ch, index), SafeText(title, defaultTitle))
  }

  /** `generateTocFromHtml`, over the document's `section.chapter`
      elements in document order. */
  function GenerateTocFromHtml(chapters: seq<HtmlChapter>): (toc: seq<TocEntry>)
  {
    seq(|chapters|, i requires 0 <= i < |chapters| => TocEntryOf(chapters[i], i))
  }

  /** `章N` has nothing to trim. */
  lemma ChapterLabelTrimmed(n: nat)
    ensures SafeText(ChapterLabel(n), ChapterLabel(n)) == ChapterLabel(n)
  {
    var l := ChapterLabel(n);
    var d := NatToString(n);
    assert l[|l| - 1] == d[|d| - 1];
    SafeTextOfTrimmed(l, l);
  }

  /** One entry per chapter, in order: a non-empty id attribute is kept,
      a missing or empty one becomes `chapter-NNN` from the position; the
      title is the trimmed `h1` text, or `章N` when the chapter has no
      `h1` or only a blank one. Ids and titles are never empty. */
  lemma GenerateTocEntries(chapters: seq<HtmlChapter>, i: nat)
    requires i < |chapters|
    ensures |GenerateTocFromHtml(chapters)| == |chapters|
    ensures var e, ch := GenerateTocFromHtml(chapters)[i], chapters[i];
            && (ch.id.Some? && ch.id.value != [] ==> e.chapterId == ch.id.value)
            && (ch.id.None? || ch.id.value == [] ==> e.chapterId == ChapterId(i + 1))
            && e.chapterId != []
            && (ch.firstH1.None? ==> e.title == ChapterLabel(i + 1))
            && (ch.firstH1.Some? && AllWhitespace(ch.firstH1.value) ==> e.title == ChapterLabel(i + 1))
            && (ch.firstH1.Some? && !AllWhitespace(ch.firstH1.value) ==> e.title == Trim(ch.firstH1.value))
            && e.title != []
  {
    var defaultTitle := ChapterLabel(i + 1);
    ChapterIdShape(i + 1);
    ChapterLabelTrimmed(i + 1);
    if chapters[i].firstH1.Some? {
      SafeTextCases(chapters[i].firstH1.value, defaultTitle);
      TrimSpec(chapters[i].firstH1.value);
    }
  }

  /** Two chapters without a non-empty id attribute never get the same
      id: both are synthesized from their positions. */
  lemma GenerateTocSynthesizedDistinct(chapters: seq<HtmlChapter>, i: nat, j: nat)
    requires i < |chapters| && j < |chapters| && i != j
    requires !(chapters[i].id.Some? && chapters[i].id.value != [])
    requires !(chapters[j].id.Some? && chapters[j].id.value != [])
    ensures GenerateTocFromHtml(chapters)[i].chapterId != GenerateTocFromHtml(chapters)[j].chapterId
  {
    ChapterIdsDiffer(i + 1, j + 1);
  }

  // ---------------------------------------------------------------------
  // Archives

  datatype Entry = File(text: string) | Folder
  type Archive = map<string, Entry>

  const MetaEntry := "meta.json"
  const HtmlEntry := "book.html"
  const StyleEntry := "style.css"
  const AssetsEntry := "assets/"

  /** `zip.file(name)` read as a string; `None` when there is no such
      file. */
  function FileText(archive: Archive, name: string): Option<string>
  {
    if name in archive && archive[name].File? then Some(archive[name].text) else None
  }

  /** The stylesheet written into every bundle, before `trim()`. */
  const VerticalCss :=
    "\n.vertical-root {\n  writing-mode: vertical-rl;\n  text-orientation: mixed;\n"
    + "  line-height: var(--line-height);\n  letter-spacing: var(--letter-spacing);\n}\n\n"
    + ".vertical-root h1,\n.vertical-root h2,\n.vertical-root h3 {\n  margin: 0 0 1.5rem 0;\n}\n\n"
    + ".vertical-root p {\n  margin: 0 0 1.5rem 0;\n}\n"

  // ---------------------------------------------------------------------
  // importZipToBook

  datatype ImportError = ZipUnavailable | MissingEntry | InvalidJson | UnsupportedFormat

  /** The message each failure carries; a JSON syntax error carries the
      parser's own message. */
  function ImportErrorMessage(e: ImportError): Option<string>
  {
    match e
    case ZipUnavailable => Some("JSZipが読み込まれていません。")
    case MissingEntry => Some("meta.json または book.html が見つかりません。")
    case InvalidJson => None
    case UnsupportedFormat => Some("対応していないフォーマットです。")
  }

  /** `meta.toc` when it is a non-empty array, otherwise the toc
      regenerated from the html. */
  function ImportedToc(metaToc: TocField, chapters: seq<HtmlChapter>): seq<TocEntry>
  {
    if metaToc.TocArray? && |metaToc.entries| > 0 then metaToc.entries else GenerateTocFromHtml(chapters)
  }

  /** `importZipToBook`: `zipLoaded` is whether the zip library is
      present, `parseJson` is `JSON.parse` (`None` when it throws) and
      `parseHtml` gives the `section.chapter` elements of a document. */
  function ImportZipToBook(zipLoaded: bool, archive: Archive,
                           parseJson: string -> Option<BundleMeta>,
                           parseHtml: string -> seq<HtmlChapter>): (r: Result<Book, ImportError>)
    ensures !zipLoaded ==> r == Err(ZipUnavailable)
    ensures zipLoaded && (FileText(archive, MetaEntry).None? || FileText(archive, HtmlEntry).None?)
            ==> r == Err(MissingEntry)
    ensures FileText(archive, MetaEntry).Some? && parseJson(FileText(archive, MetaEntry).value).None?
            ==> r.Err?
    ensures r.Ok? <==>
              && zipLoaded
              && FileText(archive, MetaEntry).Some? && FileText(archive, HtmlEntry).Some?
              && parseJson(FileText(archive, MetaEntry).value).Some?
              && parseJson(FileText(archive, MetaEntry).value).value.formatVersion == Some(VNum(1.0))
    ensures r.Ok? ==>
              var meta := parseJson(FileText(archive, MetaEntry).value).value;
              var html := FileText(archive, HtmlEntry).value;
              && r.value.html == html
              && r.value.toc == ImportedToc(meta.toc, parseHtml(html))
              && r.value.title == SafeText(meta.title.GetOr(""), "Untitled") && r.value.title != []
              && r.value.meta == Some(meta)
              && r.value.settings == meta.settings && r.value.progress == meta.progress
  {
    if !zipLoaded then Err(ZipUnavailable)
    else
      var metaText, htmlText := FileText(archive, MetaEntry), FileText(archive, HtmlEntry);
      if metaText.None? || htmlText.None? then Err(MissingEntry)
      else match parseJson(metaText.value)
        case None => Err(InvalidJson)
        case Some(meta) =>
          if meta.formatVersion != Some(VNum(1.0)) then Err(UnsupportedFormat)
          else
            var html := htmlText.value;
            var title := SafeText(meta.title.GetOr(""), "Untitled");
            SafeTextCases(meta.title.GetOr(""), "Untitled");
            Ok(Book(title, html, ImportedToc(meta.toc, parseHtml(html)), Some(meta), meta.settings, meta.progress))
  }

  // ---------------------------------------------------------------------
  // exportZipFromBook

  datatype ExportError = ExportZipUnavailable | NothingToExport

  function ExportErrorMessage(e: ExportError): string
  {
    match e
    case ExportZipUnavailable => "JSZipが読み込まれていません。"
    case NothingToExport => "書き出す本がありません。"
  }

  const DefaultExportSettings: JsObject :=
    map["fontSize" := VNum(100.0), "lineHeight" := VNum(1.8), "letterSpacing" := VNum(0.0),
        "theme" := VStr("light")]

  const DefaultExportProgress: JsObject :=
    map["chapterId" := VStr("chapter-001"), "scrollTop" := VNum(0.0)]

  /** The `progress` object of the exported meta. `Number.isFinite` holds
      exactly for numbers here (no NaN or infinity is representable). */
  function ExportProgress(p: JsObject): (r: JsObject)
    ensures r.Keys == {"chapterId", "scrollTop"}
    ensures Truthy(Get(p, "chapterId")) ==> r["chapterId"] == p["chapterId"]
    ensures !Truthy(Get(p, "chapterId")) ==> r["chapterId"] == VStr("chapter-001")
    ensures "scrollTop" in p && p["scrollTop"].VNum? ==> r["scrollTop"] == p["scrollTop"]
    ensures !("scrollTop" in p && p["scrollTop"].VNum?) ==> r["scrollTop"] == VNum(0.0)
  {
    map["chapterId" := if Truthy(Get(p, "chapterId")) then p["chapterId"] else VStr("chapter-001"),
        "scrollTop" := if "scrollTop" in p && p["scrollTop"].VNum? then p["scrollTop"] else VNum(0.0)]
  }

  /** The `settings` object of the exported meta: exactly four keys, each
      number falling back when it is 0 or not a number. */
  function ExportSettings(s: JsObject): (r: JsObject)
    ensures r.Keys == {"fontSize", "lineHeight", "letterSpacing", "theme"}
    ensures r["fontSize"] == VNum(NumberOr(Get(s, "fontSize"), 100.0))
    ensures r["lineHeight"] == VNum(NumberOr(Get(s, "lineHeight"), 1.8))
    ensures r["letterSpacing"] == VNum(NumberOr(Get(s, "letterSpacing"), 0.0))
    ensures Truthy(Get(s, "theme")) ==> r["theme"] == s["theme"]
    ensures !Truthy(Get(s, "theme")) ==> r["theme"] == VStr("light")
  {
    map["fontSize" := VNum(NumberOr(Get(s, "fontSize"), 100.0)),
        "lineHeight" := VNum(NumberOr(Get(s, "lineHeight"), 1.8)),
        "letterSpacing" := VNum(NumberOr(Get(s, "letterSpacing"), 0.0)),
        "theme" := if Truthy(Get(s, "theme")) then s["theme"] else VStr("light")]
  }

  /** The meta record written to `meta.json`; `createdAt` is the export
      time as an ISO string. */
  function ExportMeta(book: Book, settings: Option<JsObject>, progress: Option<JsObject>,
                      createdAt: string): (m: BundleMeta)
    ensures m.formatVersion == Some(VNum(1.0))
    ensures m.title.Some? && m.title.value != []
    ensures book.title != [] ==> m.title == Some(book.title)
    ensures m.toc == TocArray(book.toc)
    ensures m.createdAt == Some(createdAt)
    ensures m.settings == Some(ExportSettings(settings.GetOr(DefaultExportSettings)))
    ensures m.progress == Some(ExportProgress(progress.GetOr(DefaultExportProgress)))
  {
    BundleMeta(
      Some(VNum(1.0)),
      Some(if book.title != [] then book.title else "Untitled"),
      Some(createdAt),
      Some(ExportProgress(progress.GetOr(DefaultExportProgress))),
      Some(ExportSettings(settings.GetOr(DefaultExportSettings))),
      TocArray(book.toc))
  }

  /** `exportZipFromBook`: the archive written (download is not part of
      this model); `stringify` is `JSON.stringify`. */
  function ExportZipFromBook(zipLoaded: bool, book: Option<Book>, settings: Option<JsObject>,
                             progress: Option<JsObject>, createdAt: string,
                             stringify: BundleMeta -> string): (r: Result<Archive, ExportError>)
    ensures !zipLoaded ==> r == Err(ExportZipUnavailable)
    ensures zipLoaded && book.None? ==> r == Err(NothingToExport)
    ensures r.Ok? <==> zipLoaded && book.Some?
    ensures r.Ok? ==>
              && r.value.Keys == {HtmlEntry, StyleEntry, MetaEntry, AssetsEntry}
              && r.value[HtmlEntry] == File(book.value.html)
              && r.value[StyleEntry] == File(Trim(VerticalCss))
              && r.value[MetaEntry] == File(stringify(ExportMeta(book.value, settings, progress, createdAt)))
              && r.value[AssetsEntry] == Folder
  {
    if !zipLoaded then Err(ExportZipUnavailable)
    else if book.None? then Err(NothingToExport)
    else
      var meta := ExportMeta(book.value, settings, progress, createdAt);
      Ok(map[HtmlEntry := File(book.value.html), StyleEntry := File(Trim(VerticalCss)),
             MetaEntry := File(stringify(meta)), AssetsEntry := Folder])
  }

  /** Re-importing an exported bundle gives back the html, the toc (or,
      for a book without one, the toc regenerated from its html), the
      title when it was already trimmed, and the settings and progress
      the export wrote, provided the JSON parser reads back what the
      serializer wrote. */
  lemma ExportImportRoundTrip(book: Book, settings: Option<JsObject>, progress: Option<JsObject>,
                              createdAt: string, stringify: BundleMeta -> string,
                              parseJson: string -> Option<BundleMeta>,
                              parseHtml: string -> seq<HtmlChapter>)
    requires parseJson(stringify(ExportMeta(book, settings, progress, createdAt)))
             == Some(ExportMeta(book, settings, progress, createdAt))
    ensures var archive := ExportZipFromBook(true, Some(book), settings, progress, createdAt, stringify).value;
            var r := ImportZipToBook(true, archive, parseJson, parseHtml);
            && r.Ok?
            && r.value.html == book.html
            && (book.toc != [] ==> r.value.toc == book.toc)
            && (book.toc == [] ==> r.value.toc == GenerateTocFromHtml(parseHtml(book.html)))
            && (book.title != [] && !IsJsWhitespace(book.title[0]) && !IsJsWhitespace(book.title[|book.title| - 1])
                ==> r.value.title == book.title)
            && r.value.settings == Some(ExportSettings(settings.GetOr(DefaultExportSettings)))
            && r.value.progress == Some(ExportProgress(progress.GetOr(DefaultExportProgress)))
  {
    var meta := ExportMeta(book, settings, progress, createdAt);
    var archive := ExportZipFromBook(true, Some(book), settings, progress, createdAt, stringify).value;
    assert FileText(archive, MetaEntry) == Some(stringify(meta));
    assert FileText(archive, HtmlEntry) == Some(book.html);
    if book.title != [] && !IsJsWhitespace(book.title[0]) && !IsJsWhitespace(book.title[|book.title| - 1]) {
      SafeTextOfTrimmed(book.title, "Untitled");
    }
  }
}
