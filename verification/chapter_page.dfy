/**
 * The chapter page's loader: a chapter saved for offline reading wins over
 * mock data, which wins over the live API queries. The unseen
 * `loadDownloadedChapter` is represented by the outcome of its lookup, and the
 * three queries by their current `data`/`isLoading`/`error` triples.
 */
module ChapterPage {
  import opened Base
  import Seqs
  import Transform

  /** A page as the reader receives it: a blob URL of a saved image or a page record. */
  datatype PageItem = BlobUrl(url: string) | SavedPage(record: Transform.Record)

  /** The saved chapter object: `chapter` may be missing, and so may `chapter.pages`. */
  datatype SavedChapter = SavedChapter(fields: Transform.Record, pages: Option<seq<PageItem>>)

  /** `blobUrls` is an array or absent. */
  datatype Saved = Saved(blobUrls: Option<seq<string>>, chapter: Option<SavedChapter>)

  /** What `await loadDownloadedChapter(mangaId, chapterId)` produced. */
  datatype Lookup = Threw | NotSaved | Found(saved: Saved)

  /** The chapter the page shows. */
  datatype Shown =
    | FromDownload(fields: Transform.Record, pages: seq<PageItem>)
    | MockChapter
    | Live(view: Transform.ChapterView, livePages: seq<Transform.PageView>)

  /** The hook's four state variables. */
  datatype State = State(chapter: Option<Shown>, chaptersList: seq<Transform.ChapterView>, loading: bool, error: Option<string>)

  const Initial: State := State(None, [], true, None)

  /** One query's `data`, `isLoading` and `error`. */
  datatype Query<T> = Query(data: Option<T>, isLoading: bool, error: Option<string>)

  /** The state after one run of `load()`, and the blob URLs recorded for revocation. */
  datatype LoadOutcome = LoadOutcome(state: State, created: seq<string>)

  function BlobUrlItems(urls: seq<string>): (r: seq<PageItem>)
    ensures |r| == |urls| && forall i :: 0 <= i < |urls| ==> r[i] == BlobUrl(urls[i])
  {
    seq(|urls|, i requires 0 <= i < |urls| => BlobUrl(urls[i]))
  }

  /**
   * `saved.blobUrls || saved.chapter.pages || []`; reading `pages` of a
   * missing `chapter` throws, which the loader's `catch` absorbs.
   */
  function SavedPages(saved: Saved): (r: Result<seq<PageItem>, PyError>)
    ensures saved.blobUrls.Some? ==> r == Ok(BlobUrlItems(saved.blobUrls.value))
    ensures saved.blobUrls.None? && saved.chapter.None? ==> r.Err?
    ensures saved.blobUrls.None? && saved.chapter.Some? && saved.chapter.value.pages.Some?
      ==> r == Ok(saved.chapter.value.pages.value)
    ensures saved.blobUrls.None? && saved.chapter.Some? && saved.chapter.value.pages.None? ==> r == Ok([])
  {
    if saved.blobUrls.Some? then Ok(BlobUrlItems(saved.blobUrls.value))
    else if saved.chapter.None? then Err(TypeError("Cannot read properties of undefined (reading 'pages')"))
    else Ok(saved.chapter.value.pages.GetOr([]))
  }

  /** `a || b || c` over three optional errors: the first one present. */
  function FirstError(a: Option<string>, b: Option<string>, c: Option<string>): (r: Option<string>)
    ensures r.None? <==> a.None? && b.None? && c.None?
    ensures a.Some? ==> r == a
    ensures a.None? && b.Some? ==> r == b
    ensures a.None? && b.None? ==> r == c
  {
    if a.Some? then a else if b.Some? then b else c
  }

  /**
   * One run of `load()` from state `prev`. `mounted` is false once the effect
   * was cleaned up; `useMock` is the build flag; `listResults` is
   * `chaptersListData?.results` when present.
   */
  function Load(prev: State, lookup: Lookup, mounted: bool, useMock: bool,
                meta: Query<Transform.Record>, pages: Query<seq<Transform.Record>>,
                list: Query<seq<Transform.Record>>, listResults: Option<seq<Transform.Record>>,
                mockList: seq<Transform.ChapterView>): (r: LoadOutcome)
    ensures !mounted ==> r == LoadOutcome(prev, [])
    ensures mounted && lookup.Found? && SavedPages(lookup.saved).Ok? ==>
      r.state == State(Some(FromDownload(
                         if lookup.saved.chapter.Some? then lookup.saved.chapter.value.fields else map[],
                         SavedPages(lookup.saved).value)), [], false, prev.error)
      && r.created == lookup.saved.blobUrls.GetOr([])
    ensures !(mounted && lookup.Found? && SavedPages(lookup.saved).Ok?) ==> r.created == []
    ensures mounted && !(lookup.Found? && SavedPages(lookup.saved).Ok?) && useMock ==>
      r.state == State(Some(MockChapter), mockList, false, prev.error)
    ensures mounted && !(lookup.Found? && SavedPages(lookup.saved).Ok?) && !useMock
            && meta.data.Some? && pages.data.Some? ==>
      r.state.chapter == Some(Live(Transform.MapChapter(meta.data.value), Transform.MapPages(pages.data.value)))
      && r.state.chaptersList == Transform.MapChapters(listResults.GetOr([]))
      && !r.state.loading
      && r.state.error == FirstError(meta.error, pages.error, list.error)
    ensures mounted && !(lookup.Found? && SavedPages(lookup.saved).Ok?) && !useMock
            && !(meta.data.Some? && pages.data.Some?) ==>
      r.state.chapter == prev.chapter && r.state.chaptersList == prev.chaptersList
      && (r.state.loading <==> meta.isLoading || pages.isLoading || list.isLoading)
      && r.state.error == FirstError(meta.error, pages.error, list.error)
  {
    if !mounted then LoadOutcome(prev, [])
    else if lookup.Found? && SavedPages(lookup.saved).Ok? then
      var saved := lookup.saved;
      var fields := if saved.chapter.Some? then saved.chapter.value.fields else map[];
      LoadOutcome(State(Some(FromDownload(fields, SavedPages(saved).value)), [], false, prev.error),
                  saved.blobUrls.GetOr([]))
    else if useMock then
      LoadOutcome(State(Some(MockChapter), mockList, false, prev.error), [])
    else if meta.data.Some? && pages.data.Some? then
      LoadOutcome(State(Some(Live(Transform.MapChapter(meta.data.value), Transform.MapPages(pages.data.value))),
                        Transform.MapChapters(listResults.GetOr([])), false,
                        FirstError(meta.error, pages.error, list.error)), [])
    else
      LoadOutcome(prev.(loading := meta.isLoading || pages.isLoading || list.isLoading,
                        error := FirstError(meta.error, pages.error, list.error)), [])
  }

  /** A found saved chapter hides both mock and live data, whatever they hold. */
  lemma SavedChapterWins(prev: State, saved: Saved, useMock: bool, useMock': bool,
                         meta: Query<Transform.Record>, meta': Query<Transform.Record>,
                         pages: Query<seq<Transform.Record>>, pages': Query<seq<Transform.Record>>,
                         list: Query<seq<Transform.Record>>, list': Query<seq<Transform.Record>>,
                         res: Option<seq<Transform.Record>>, res': Option<seq<Transform.Record>>,
                         mock: seq<Transform.ChapterView>, mock': seq<Transform.ChapterView>)
    requires SavedPages(saved).Ok?
    ensures Load(prev, Found(saved), true, useMock, meta, pages, list, res, mock)
         == Load(prev, Found(saved), true, useMock', meta', pages', list', res', mock')
    ensures Load(prev, Found(saved), true, useMock, meta, pages, list, res, mock).state.chaptersList == []
  {
  }

  /** A lookup that threw behaves exactly like a lookup that found nothing. */
  lemma ThrowFallsThrough(prev: State, mounted: bool, useMock: bool,
                          meta: Query<Transform.Record>, pages: Query<seq<Transform.Record>>,
                          list: Query<seq<Transform.Record>>, res: Option<seq<Transform.Record>>,
                          mock: seq<Transform.ChapterView>)
    ensures Load(prev, Threw, mounted, useMock, meta, pages, list, res, mock)
         == Load(prev, NotSaved, mounted, useMock, meta, pages, list, res, mock)
  {
  }

  /**
   * The cleanup: `createdUrls.forEach(url => { try { revoke(url) } catch {} })`.
   * `throws` says which URLs make `URL.revokeObjectURL` throw; every URL is
   * still attempted, in order, and the failures are swallowed.
   */
  method RevokeAll(created: seq<string>, throws: string -> bool) returns (attempted: seq<string>, failed: seq<string>)
    ensures attempted == created
    ensures failed == Seqs.Filter(created, throws)
  {
    attempted := [];
    failed := [];
    var i := 0;
    while i < |created|
      invariant 0 <= i <= |created|
      invariant attempted == created[..i]
      invariant failed == Seqs.Filter(created[..i], throws)
    {
      FilterSnoc(created[..i], created[i], throws);
      assert created[..i + 1] == created[..i] + [created[i]];
      attempted := attempted + [created[i]];
      if throws(created[i]) {
        failed := failed + [created[i]];
      }
      i := i + 1;
    }
    assert created[..|created|] == created;
  }

  /** Filtering a sequence extended by one element. */
  lemma {:induction false} FilterSnoc<T>(s: seq<T>, x: T, p: T -> bool)
    ensures Seqs.Filter(s + [x], p) == Seqs.Filter(s, p) + (if p(x) then [x] else [])
    decreases |s|
  {
    if |s| > 0 {
      assert (s + [x])[1..] == s[1..] + [x];
      FilterSnoc(s[1..], x, p);
    } else {
      assert s + [x] == [x];
    }
  }
}
