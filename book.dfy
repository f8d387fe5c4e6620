/** The canonical in-memory book every importer produces, the bundle
    metadata record, and the synthesized `chapter-NNN` identifiers. */
module BookModel {
  import opened Common

  datatype TocEntry = TocEntry(chapterId: string, title: string)

  /** A `toc` property as read back from JSON: absent or falsy, some other
      truthy value that is not an array, or an array of entries. */
  datatype TocField = TocAbsent | TocOther | TocArray(entries: seq<TocEntry>)

  /** The parsed `meta.json` of a bundle. `formatVersion` is kept as a raw
      value so that `=== 1` can be checked; objects that are absent or
      falsy are `None`. */
  datatype BundleMeta = BundleMeta(
    formatVersion: Option<Value>,
    title: Option<string>,
    createdAt: Option<string>,
    progress: Option<JsObject>,
    settings: Option<JsObject>,
    toc: TocField)

  /** A book as the reader holds it. `meta` is `None` for books made by
      the normalizers; `settings` and `progress` are only set by a bundle
      import. */
  datatype Book = Book(
    title: string,
    html: string,
    toc: seq<TocEntry>,
    meta: Option<BundleMeta>,
    settings: Option<JsObject>,
    progress: Option<JsObject>)

  /** `String(n).padStart(3, "0")`. */
  function Pad3(s: string): (r: string)
    ensures |s| >= 3 ==> r == s
    ensures |s| < 3 ==> |r| == 3 && r[3 - |s|..] == s
    ensures forall i :: 0 <= i < |r| - |s| ==> r[i] == '0'
  {
    if |s| >= 3 then s else seq(3 - |s|, _ => '0') + s
  }

  /** The default title of the n-th chapter (1-based): `章N`. */
  function ChapterLabel(n: nat): string
  {
    "章" + NatToString(n)
  }

  /** The synthesized id of the n-th chapter (1-based). */
  function ChapterId(n: nat): string
  {
    "chapter-" + Pad3(NatToString(n))
  }

  /** Every synthesized id is `chapter-` followed by at least three
      decimal digits. */
  lemma ChapterIdShape(n: nat)
    ensures |ChapterId(n)| >= 11 && ChapterId(n)[..8] == "chapter-"
    ensures forall i :: 8 <= i < |ChapterId(n)| ==> '0' <= ChapterId(n)[i] <= '9'
  {
    var d := NatToString(n);
    var p := Pad3(d);
    assert ChapterId(n) == "chapter-" + p;
    forall i | 0 <= i < |p|
      ensures '0' <= p[i] <= '9'
    {
      if i >= |p| - |d| {
        assert p[i] == d[i - (|p| - |d|)];
      }
    }
  }

  lemma Pad3Injective(x: string, y: string)
    requires |x| >= 1 && |y| >= 1 && x[0] != '0' && y[0] != '0'
    requires Pad3(x) == Pad3(y)
    ensures x == y
  {
    var p := Pad3(x);
    if |x| < 3 || |y| < 3 {
      // The first character that is not a padding zero is where the
      // rendered number starts, and it fixes its length.
      assert |x| == |y|;
      assert x == p[3 - |x|..];
    }
  }

  /** Different chapter positions never share an id. */
  lemma ChapterIdInjective(a: nat, b: nat)
    requires a >= 1 && b >= 1
    requires ChapterId(a) == ChapterId(b)
    ensures a == b
  {
    var x, y := NatToString(a), NatToString(b);
    assert ChapterId(a)[8..] == Pad3(x);
    assert ChapterId(b)[8..] == Pad3(y);
    if |x| == 1 { assert x[0] != '0'; }
    if |y| == 1 { assert y[0] != '0'; }
    Pad3Injective(x, y);
    NatToStringInjective(a, b);
  }

  lemma ChapterIdsDiffer(a: nat, b: nat)
    requires a >= 1 && b >= 1 && a != b
    ensures ChapterId(a) != ChapterId(b)
  {
    if ChapterId(a) == ChapterId(b) {
      ChapterIdInjective(a, b);
    }
  }
}
