/** The application shell (js/app.js): the session state shared by the
    library and reader screens, how a book is applied to it, how settings
    and progress updates are merged, the book fingerprint that keys saved
    progress, saving progress and the last-opened cache to storage, and
    restoring the last book at start-up.

    `localStorage` is a map from key to stored record; whether a write
    succeeds (it fails when the quota is exceeded) is an argument of the
    method that writes, and the ISO timestamps are arguments too. JSON
    encoding is assumed to give back what was stored. */
module App {
  import opened Common
  import opened BookModel
  import opened Reader

  // ---------------------------------------------------------------------
  // Defaults

  const DefaultSettings: JsObject :=
    map["fontSize" := VNum(100.0), "lineHeight" := VNum(1.8), "letterSpacing" := VNum(0.0),
        "theme" := VStr("light"), "displayMode" := VStr("paged"), "pageEffect" := VStr("none"),
        "tapInScroll" := VBool(false)]

  const DefaultProgress: JsObject :=
    map["chapterId" := VNull, "scrollLeft" := VNum(0.0), "scrollTop" := VNum(0.0), "pageIndex" := VNum(0.0)]

  /** The default settings survive the reader's settings form unchanged. */
  lemma DefaultSettingsCanonical()
    ensures CanonicalSettings(DefaultSettings)
    ensures ReadForm(FormOf(DefaultSettings)) == DefaultSettings
  {
    FormRoundTrip(DefaultSettings);
  }

  /** `book.settings || book.meta?.settings || {}`: an object is truthy
      even when empty, so the book's own settings win whenever present. */
  function SettingsSource(book: Book): JsObject
  {
    if book.settings.Some? then book.settings.value
    else if book.meta.Some? && book.meta.value.settings.Some? then book.meta.value.settings.value
    else map[]
  }

  /** The same choice for progress. */
  function ProgressSource(book: Book): JsObject
  {
    if book.progress.Some? then book.progress.value
    else if book.meta.Some? && book.meta.value.progress.Some? then book.meta.value.progress.value
    else map[]
  }

  /** The settings `applyBook` installs: every default key is present,
      a key the source gives takes the source's value, and the book's own
      settings shadow those in its bundle meta. */
  lemma BookSettings(book: Book)
    ensures var s := DefaultSettings + SettingsSource(book);
            && DefaultSettings.Keys <= s.Keys
            && (forall k :: k in SettingsSource(book) ==> s[k] == SettingsSource(book)[k])
            && (forall k :: k in DefaultSettings && k !in SettingsSource(book) ==> s[k] == DefaultSettings[k])
            && (book.settings.Some? ==> SettingsSource(book) == book.settings.value)
            && (book.settings.None? && book.meta.Some? && book.meta.value.settings.Some? ==>
                  SettingsSource(book) == book.meta.value.settings.value)
  {
  }

  /** The progress `applyBook` installs, by the same rule. */
  lemma BookProgress(book: Book)
    ensures var p := DefaultProgress + ProgressSource(book);
            && DefaultProgress.Keys <= p.Keys
            && (forall k :: k in ProgressSource(book) ==> p[k] == ProgressSource(book)[k])
            && (forall k :: k in DefaultProgress && k !in ProgressSource(book) ==> p[k] == DefaultProgress[k])
            && (book.progress.Some? ==> ProgressSource(book) == book.progress.value)
            && (book.progress.None? && book.meta.Some? && book.meta.value.progress.Some? ==>
                  ProgressSource(book) == book.meta.value.progress.value)
  {
  }

  // ---------------------------------------------------------------------
  // Book fingerprint

  /** `book.title || "Untitled"`. */
  function DisplayTitle(book: Book): (t: string)
    ensures t != []
    ensures book.title != [] ==> t == book.title
  {
    if book.title != [] then book.title else "Untitled"
  }

  /** `buildBookId`: title, number of toc entries and length of the html
      in UTF-16 code units. */
  function BuildBookId(book: Book): (id: string)
    ensures id != []
  {
    DisplayTitle(book) + "::" + NatToString(|book.toc|) + "::" + NatToString(Utf16Length(book.html))
  }

  lemma NoColonInDigits(n: nat)
    ensures ':' !in NatToString(n)
  {
    var s := NatToString(n);
    forall i | 0 <= i < |s|
      ensures s[i] != ':'
    {
      assert '0' <= s[i] <= '9';
    }
  }

  /** Index of the last `:` in `s`, or -1. */
  function LastColon(s: string): (i: int)
    ensures -1 <= i < |s|
    ensures 0 <= i ==> s[i] == ':' && ':' !in s[i + 1..]
  {
    if s == [] then -1
    else if s[|s| - 1] == ':' then |s| - 1
    else LastColon(s[..|s| - 1])
  }

  lemma {:induction false} LastColonAt(a: string, d: string)
    requires ':' !in d
    ensures LastColon(a + [':'] + d) == |a|
    decreases |d|
  {
    if d != [] {
      var s := a + [':'] + d;
      assert s[|s| - 1] == d[|d| - 1];
      assert s[..|s| - 1] == a + [':'] + d[..|d| - 1];
      LastColonAt(a, d[..|d| - 1]);
    }
  }

  /** A string ending in `:` and a colon-free tail splits only one way. */
  lemma SplitAtLastColon(a: string, d: string, b: string, e: string)
    requires ':' !in d && ':' !in e
    requires a + [':'] + d == b + [':'] + e
    ensures a == b && d == e
  {
    var s := a + [':'] + d;
    var t := b + [':'] + e;
    LastColonAt(a, d);
    LastColonAt(b, e);
    assert a == s[..|a|] && b == t[..|b|];
    assert d == s[|a| + 1..] && e == t[|b| + 1..];
  }

  /** `title::count::length` with colon-free numbers splits only one way. */
  lemma SplitId(ta: string, ca: string, ha: string, tb: string, cb: string, hb: string)
    requires ':' !in ca && ':' !in ha && ':' !in cb && ':' !in hb
    requires ta + "::" + ca + "::" + ha == tb + "::" + cb + "::" + hb
    ensures ta == tb && ca == cb && ha == hb
  {
    var pa, pb := ta + [':'] + [':'] + ca, tb + [':'] + [':'] + cb;
    assert ta + "::" + ca + "::" + ha == (pa + [':']) + [':'] + ha;
    assert tb + "::" + cb + "::" + hb == (pb + [':']) + [':'] + hb;
    SplitAtLastColon(pa + [':'], ha, pb + [':'], hb);
    assert pa == (pa + [':'])[..|pa|];
    assert pb == (pb + [':'])[..|pb|];
    assert pa == (ta + [':']) + [':'] + ca;
    assert pb == (tb + [':']) + [':'] + cb;
    SplitAtLastColon(ta + [':'], ca, tb + [':'], cb);
    assert ta == (ta + [':'])[..|ta|];
    assert tb == (tb + [':'])[..|tb|];
  }

  /** The fingerprint determines the title shown, the number of toc
      entries and the html length: books that differ in any of them never
      share saved progress. */
  lemma BookIdInjective(a: Book, b: Book)
    requires BuildBookId(a) == BuildBookId(b)
    ensures DisplayTitle(a) == DisplayTitle(b)
    ensures |a.toc| == |b.toc|
    ensures Utf16Length(a.html) == Utf16Length(b.html)
  {
    NoColonInDigits(|a.toc|);
    NoColonInDigits(|b.toc|);
    NoColonInDigits(Utf16Length(a.html));
    NoColonInDigits(Utf16Length(b.html));
    SplitId(DisplayTitle(a), NatToString(|a.toc|), NatToString(Utf16Length(a.html)),
            DisplayTitle(b), NatToString(|b.toc|), NatToString(Utf16Length(b.html)));
    NatToStringInjective(|a.toc|, |b.toc|);
    NatToStringInjective(Utf16Length(a.html), Utf16Length(b.html));
  }

  // ---------------------------------------------------------------------
  // Storage records

  const ProgressKeyPrefix := "tsukiyomi:progress:"
  const LastOpenedKey := "tsukiyomi:lastOpened"
  const LastBookCacheKey := "tsukiyomi:lastBookCache"

  const ProgressSaveFailed := "進捗保存に失敗しました（容量不足の可能性）"
  const CacheSaveFailed := "キャッシュ保存に失敗しました（容量不足の可能性）"

  function ProgressKey(bookId: string): string
  {
    ProgressKeyPrefix + bookId
  }

  /** The `tsukiyomi:lastBookCache` record as read back: a title and html
      (`""` when absent) and a toc property. */
  datatype CachedBook = CachedBook(bookId: string, title: string, html: string, toc: TocField, cachedAt: string)

  /** The `tsukiyomi:lastOpened` record (its `sourceData` is always
      `null` and is not kept). */
  datatype LastOpened = LastOpened(bookId: string, title: string, sourceType: string, savedAt: string)

  datatype Stored =
    | StoredProgress(record: JsObject)
    | StoredCache(cache: CachedBook)
    | StoredLastOpened(lastOpened: LastOpened)

  /** The payload `saveProgress` writes: the three positions as numbers,
      NaN or missing ones as 0, and a falsy chapter id as `null`. */
  function ProgressRecord(progress: JsObject, updatedAt: string): (r: JsObject)
    ensures r.Keys == {"scrollLeft", "scrollTop", "pageIndex", "chapterId", "updatedAt"}
    ensures forall k :: k in {"scrollLeft", "scrollTop", "pageIndex"} ==>
              r[k] == VNum(NumberOr(Get(progress, k), 0.0))
    ensures Truthy(Get(progress, "chapterId")) ==> r["chapterId"] == progress["chapterId"]
    ensures !Truthy(Get(progress, "chapterId")) ==> r["chapterId"] == VNull
    ensures r["updatedAt"] == VStr(updatedAt)
  {
    map["scrollLeft" := VNum(NumberOr(Get(progress, "scrollLeft"), 0.0)),
        "scrollTop" := VNum(NumberOr(Get(progress, "scrollTop"), 0.0)),
        "pageIndex" := VNum(NumberOr(Get(progress, "pageIndex"), 0.0)),
        "chapterId" := if Truthy(Get(progress, "chapterId")) then progress["chapterId"] else VNull,
        "updatedAt" := VStr(updatedAt)]
  }

  /** Progress with numeric positions is restored from its saved record,
      merged over the defaults as the start-up restore does, exactly as it
      would be from the progress itself. */
  lemma SavedProgressRestoresAlike(progress: JsObject, updatedAt: string, mode: string, clientWidth: real)
    requires forall k :: k in {"scrollLeft", "scrollTop", "pageIndex"} ==> k in progress && progress[k].VNum?
    ensures RestoreProgress(Some(DefaultProgress + ProgressRecord(progress, updatedAt)), mode, clientWidth)
            == RestoreProgress(Some(progress), mode, clientWidth)
  {
    var saved := DefaultProgress + ProgressRecord(progress, updatedAt);
    assert Get(saved, "scrollTop") == Some(VNum(NumberOr(Get(progress, "scrollTop"), 0.0)));
    assert Get(saved, "pageIndex") == Some(VNum(NumberOr(Get(progress, "pageIndex"), 0.0)));
    assert Get(saved, "scrollLeft") == Some(VNum(NumberOr(Get(progress, "scrollLeft"), 0.0)));
  }

  /** The cache record `persistLastOpened` writes. */
  function CacheOf(book: Book, bookId: string, cachedAt: string): CachedBook
  {
    CachedBook(bookId, DisplayTitle(book), book.html, TocArray(book.toc), cachedAt)
  }

  /** `tryRestoreLastBook` refuses a cache without html or toc. */
  predicate Restorable(cached: CachedBook)
  {
    cached.html != [] && !cached.toc.TocAbsent?
  }

  /** The book `tryRestoreLastBook` rebuilds from the cache. */
  function RestoredBook(cached: CachedBook): (book: Book)
    ensures book.meta.None? && book.html == cached.html
    ensures book.toc == if cached.toc.TocArray? then cached.toc.entries else []
  {
    Book(if cached.title != [] then cached.title else "Untitled", cached.html,
         if cached.toc.TocArray? then cached.toc.entries else [], None, None, None)
  }

  /** A book with some html comes back from its cache record with the
      same fingerprint, so its saved progress is found again. */
  lemma CacheRoundTripKeepsId(book: Book, bookId: string, cachedAt: string)
    requires book.html != []
    ensures Restorable(CacheOf(book, bookId, cachedAt))
    ensures BuildBookId(RestoredBook(CacheOf(book, bookId, cachedAt))) == BuildBookId(book)
    ensures RestoredBook(CacheOf(book, bookId, cachedAt)).toc == book.toc
  {
    assert DisplayTitle(RestoredBook(CacheOf(book, bookId, cachedAt))) == DisplayTitle(book);
  }

  // ---------------------------------------------------------------------
  // The session

  /** `appState`, with the storage it writes to. */
  class AppSession {
    var currentBook: Option<Book>
    var currentBookId: Option<string>
    var settings: JsObject
    var progress: JsObject
    var startupMessage: string
    var storage: map<string, Stored>

    constructor (storage: map<string, Stored>)
      ensures currentBook.None? && currentBookId.None?
      ensures settings == DefaultSettings && progress == DefaultProgress
      ensures startupMessage == [] && this.storage == storage
    {
      currentBook := None;
      currentBookId := None;
      settings := DefaultSettings;
      progress := DefaultProgress;
      startupMessage := [];
      this.storage := storage;
    }

    /** `applyBook`. */
    method ApplyBook(book: Book)
      modifies this
      ensures currentBook == Some(book) && currentBookId == Some(BuildBookId(book))
      ensures settings == DefaultSettings + SettingsSource(book)
      ensures progress == DefaultProgress + ProgressSource(book)
      ensures startupMessage == old(startupMessage) && storage == old(storage)
    {
      currentBook := Some(book);
      currentBookId := Some(BuildBookId(book));
      settings := DefaultSettings + SettingsSource(book);
      progress := DefaultProgress + ProgressSource(book);
    }

    /** `onUpdateSettings`: the patch is spread over the current settings. */
    method OnUpdateSettings(patch: JsObject)
      modifies this
      ensures settings == old(settings) + patch
      ensures forall k :: k in old(settings) && k !in patch ==> settings[k] == old(settings)[k]
      ensures currentBook == old(currentBook) && currentBookId == old(currentBookId)
      ensures progress == old(progress) && startupMessage == old(startupMessage) && storage == old(storage)
    {
      settings := settings + patch;
    }

    /** `saveProgress(bookId, progress)` at time `updatedAt`; `writeOk`
        says whether storage accepts the write. */
    method SaveProgress(bookId: Option<string>, progress: JsObject, updatedAt: string, writeOk: bool)
      modifies this
      ensures currentBook == old(currentBook) && currentBookId == old(currentBookId)
      ensures settings == old(settings) && this.progress == old(this.progress)
      ensures bookId.None? || bookId.value == [] ==>
                storage == old(storage) && startupMessage == old(startupMessage)
      ensures bookId.Some? && bookId.value != [] && writeOk ==>
                storage == old(storage)[ProgressKey(bookId.value) := StoredProgress(ProgressRecord(progress, updatedAt))]
                && startupMessage == old(startupMessage)
      ensures bookId.Some? && bookId.value != [] && !writeOk ==>
                storage == old(storage) && startupMessage == ProgressSaveFailed
    {
      if bookId.None? || bookId.value == [] {
        return;
      }
      if writeOk {
        storage := storage[ProgressKey(bookId.value) := StoredProgress(ProgressRecord(progress, updatedAt))];
      } else {
        startupMessage := ProgressSaveFailed;
      }
    }

    /** `onUpdateProgress`: the patch is spread over the current progress,
        which is then saved under the current book's id. */
    method OnUpdateProgress(patch: JsObject, updatedAt: string, writeOk: bool)
      modifies this
      ensures progress == old(progress) + patch
      ensures forall k :: k in old(progress) && k !in patch ==> progress[k] == old(progress)[k]
      ensures currentBook == old(currentBook) && currentBookId == old(currentBookId)
      ensures settings == old(settings)
      ensures currentBookId.None? || currentBookId.value == [] ==>
                storage == old(storage) && startupMessage == old(startupMessage)
      ensures currentBookId.Some? && currentBookId.value != [] && writeOk ==>
                storage == old(storage)[ProgressKey(currentBookId.value) := StoredProgress(ProgressRecord(progress, updatedAt))]
                && startupMessage == old(startupMessage)
      ensures currentBookId.Some? && currentBookId.value != [] && !writeOk ==>
                storage == old(storage) && startupMessage == ProgressSaveFailed
    {
      progress := progress + patch;
      SaveProgress(currentBookId, progress, updatedAt, writeOk);
    }

    /** `persistLastOpened` at time `now`; `lastOpenedOk` and `cacheOk`
        say whether each write is accepted. */
    method PersistLastOpened(now: string, lastOpenedOk: bool, cacheOk: bool)
      modifies this
      ensures currentBook == old(currentBook) && currentBookId == old(currentBookId)
      ensures settings == old(settings) && progress == old(progress)
      ensures currentBook.None? || currentBookId.None? || currentBookId.value == [] ==>
                storage == old(storage) && startupMessage == old(startupMessage)
      ensures currentBook.Some? && currentBookId.Some? && currentBookId.value != [] ==>
                var id := currentBookId.value;
                var book := currentBook.value;
                && (LastOpenedKey in storage <==> lastOpenedOk || LastOpenedKey in old(storage))
                && (LastBookCacheKey in storage <==> cacheOk || LastBookCacheKey in old(storage))
                && storage.Keys <= old(storage).Keys + {LastOpenedKey, LastBookCacheKey}
                && (!lastOpenedOk && LastOpenedKey in old(storage) ==>
                      storage[LastOpenedKey] == old(storage)[LastOpenedKey])
                && (!cacheOk && LastBookCacheKey in old(storage) ==>
                      storage[LastBookCacheKey] == old(storage)[LastBookCacheKey])
                && (lastOpenedOk ==> LastOpenedKey in storage && storage[LastOpenedKey] == StoredLastOpened(LastOpened(id, DisplayTitle(book), "cache", now)))
                && (cacheOk ==> LastBookCacheKey in storage && storage[LastBookCacheKey] == StoredCache(CacheOf(book, id, now)))
                && (forall k :: k in old(storage) && k != LastOpenedKey && k != LastBookCacheKey ==>
                      k in storage && storage[k] == old(storage)[k])
                && (lastOpenedOk && cacheOk ==> startupMessage == old(startupMessage))
                && (!lastOpenedOk || !cacheOk ==> startupMessage == CacheSaveFailed)
    {
      if currentBook.None? || currentBookId.None? || currentBookId.value == [] {
        return;
      }
      var id := currentBookId.value;
      var book := currentBook.value;
      if lastOpenedOk {
        storage := storage[LastOpenedKey := StoredLastOpened(LastOpened(id, DisplayTitle(book), "cache", now))];
      }
      if cacheOk {
        storage := storage[LastBookCacheKey := StoredCache(CacheOf(book, id, now))];
      }
      if !lastOpenedOk || !cacheOk {
        startupMessage := CacheSaveFailed;
      }
    }

    /** The `startupMessage` handling of `render("library")`: a pending
        message is returned for the status line and cleared, so it shows
        once. */
    method RenderLibrary() returns (shown: Option<string>)
      modifies this
      ensures old(startupMessage) != [] ==> shown == Some(old(startupMessage))
      ensures old(startupMessage) == [] ==> shown.None?
      ensures startupMessage == []
      ensures currentBook == old(currentBook) && currentBookId == old(currentBookId)
      ensures settings == old(settings) && progress == old(progress) && storage == old(storage)
    {
      shown := None;
      if startupMessage != [] {
        shown := Some(startupMessage);
        startupMessage := [];
      }
    }

    /** `tryRestoreLastBook`: nothing changes unless the cache holds html
        and a toc; otherwise the cached book is applied and its saved
        progress, if any, is merged over the defaults. */
    method TryRestoreLastBook() returns (restored: bool)
      modifies this
      ensures storage == old(storage) && startupMessage == old(startupMessage)
      ensures restored <==>
                LastBookCacheKey in old(storage) && old(storage)[LastBookCacheKey].StoredCache?
                && Restorable(old(storage)[LastBookCacheKey].cache)
      ensures !restored ==>
                currentBook == old(currentBook) && currentBookId == old(currentBookId)
                && settings == old(settings) && progress == old(progress)
      ensures restored ==>
                var book := RestoredBook(storage[LastBookCacheKey].cache);
                var key := ProgressKey(BuildBookId(book));
                && currentBook == Some(book) && currentBookId == Some(BuildBookId(book))
                && settings == DefaultSettings
                && (key in storage && storage[key].StoredProgress? ==>
                      progress == DefaultProgress + storage[key].record)
                && (!(key in storage && storage[key].StoredProgress?) ==> progress == DefaultProgress)
    {
      if LastBookCacheKey !in storage || !storage[LastBookCacheKey].StoredCache? {
        return false;
      }
      var cached := storage[LastBookCacheKey].cache;
      if !Restorable(cached) {
        return false;
      }
      var book := RestoredBook(cached);
      ApplyBook(book);
      var key := ProgressKey(currentBookId.value);
      if key in storage && storage[key].StoredProgress? {
        progress := DefaultProgress + storage[key].record;
      }
      restored := true;
    }
  }
}
