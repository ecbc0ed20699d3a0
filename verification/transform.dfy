/**
 * Renaming of API records into the shapes the frontend components read.
 * An API record is a JavaScript object: a map from field names to values,
 * where an absent field reads as `undefined`.
 */
module Transform {
  import Js

  type Record = map<string, Js.Value>

  /** `obj.field`. */
  function Get(o: Record, field: string): Js.Value {
    if field in o then o[field] else Js.Undefined
  }

  /** Two records agree on the named fields. */
  predicate AgreeOn(a: Record, b: Record, fields: seq<string>) {
    forall i :: 0 <= i < |fields| ==> Get(a, fields[i]) == Get(b, fields[i])
  }

  datatype MangaView = MangaView(
    id: Js.Value, title: Js.Value, altTitle: Js.Value, coverUrl: Js.Value,
    author: Js.Value, artist: Js.Value, synopsis: Js.Value, status: Js.Value,
    chapterCount: Js.Value, dateUpdated: Js.Value, publicationDate: Js.Value,
    previewChapterId: Js.Value)

  datatype ChapterView = ChapterView(
    id: Js.Value, number: Js.Value, title: Js.Value, date: Js.Value,
    prevChapterId: Js.Value, nextChapterId: Js.Value)

  datatype PageView = PageView(index: Js.Value, url: Js.Value, alt: Js.Value)

  const MangaFields: seq<string> := [
    "id", "title", "alternative_title", "cover_image", "author_name", "description",
    "publication_status", "chapter_count", "latest_chapter_date", "publication_date",
    "preview_chapter_id"]

  const ChapterFields: seq<string> := [
    "id", "chapter_number", "title", "upload_date", "prev_chapter_id", "next_chapter_id"]

  const PageFields: seq<string> := ["index", "url", "alt"]

  /** `mapMangaTitle`: author and artist both come from `author_name`. */
  function MapMangaTitle(o: Record): (r: MangaView)
    ensures r.id == Get(o, "id") && r.title == Get(o, "title")
    ensures r.chapterCount == Get(o, "chapter_count") && r.publicationDate == Get(o, "publication_date")
    ensures r.author == r.artist == Get(o, "author_name")
    ensures r.altTitle == Get(o, "alternative_title") && r.coverUrl == Get(o, "cover_image")
    ensures r.synopsis == Get(o, "description") && r.status == Get(o, "publication_status")
    ensures r.dateUpdated == Get(o, "latest_chapter_date") && r.previewChapterId == Get(o, "preview_chapter_id")
  {
    MangaView(
      id := Get(o, "id"), title := Get(o, "title"), altTitle := Get(o, "alternative_title"),
      coverUrl := Get(o, "cover_image"), author := Get(o, "author_name"),
      artist := Get(o, "author_name"), synopsis := Get(o, "description"),
      status := Get(o, "publication_status"), chapterCount := Get(o, "chapter_count"),
      dateUpdated := Get(o, "latest_chapter_date"), publicationDate := Get(o, "publication_date"),
      previewChapterId := Get(o, "preview_chapter_id"))
  }

  /** `mapChapter`: snake_case API names become the component's camelCase names. */
  function MapChapter(o: Record): (r: ChapterView)
    ensures r.number == Get(o, "chapter_number") && r.date == Get(o, "upload_date")
    ensures r.prevChapterId == Get(o, "prev_chapter_id") && r.nextChapterId == Get(o, "next_chapter_id")
    ensures r.id == Get(o, "id") && r.title == Get(o, "title")
  {
    ChapterView(
      id := Get(o, "id"), number := Get(o, "chapter_number"), title := Get(o, "title"),
      date := Get(o, "upload_date"), prevChapterId := Get(o, "prev_chapter_id"),
      nextChapterId := Get(o, "next_chapter_id"))
  }

  /** `mapPage`: exactly index, url and alt are copied. */
  function MapPage(o: Record): (r: PageView)
    ensures r.index == Get(o, "index") && r.url == Get(o, "url") && r.alt == Get(o, "alt")
  {
    PageView(Get(o, "index"), Get(o, "url"), Get(o, "alt"))
  }

  /** Records that agree on the eleven read fields map to the same manga view: nothing else flows through. */
  lemma MangaReadsOnlyItsFields(a: Record, b: Record)
    requires AgreeOn(a, b, MangaFields)
    ensures MapMangaTitle(a) == MapMangaTitle(b)
  {
    assert Get(a, MangaFields[0]) == Get(b, MangaFields[0]);
    assert Get(a, MangaFields[1]) == Get(b, MangaFields[1]);
    assert Get(a, MangaFields[2]) == Get(b, MangaFields[2]);
    assert Get(a, MangaFields[3]) == Get(b, MangaFields[3]);
    assert Get(a, MangaFields[4]) == Get(b, MangaFields[4]);
    assert Get(a, MangaFields[5]) == Get(b, MangaFields[5]);
    assert Get(a, MangaFields[6]) == Get(b, MangaFields[6]);
    assert Get(a, MangaFields[7]) == Get(b, MangaFields[7]);
    assert Get(a, MangaFields[8]) == Get(b, MangaFields[8]);
    assert Get(a, MangaFields[9]) == Get(b, MangaFields[9]);
    assert Get(a, MangaFields[10]) == Get(b, MangaFields[10]);
  }

  /** Records that agree on the six read fields map to the same chapter view. */
  lemma ChapterReadsOnlyItsFields(a: Record, b: Record)
    requires AgreeOn(a, b, ChapterFields)
    ensures MapChapter(a) == MapChapter(b)
  {
    assert Get(a, ChapterFields[0]) == Get(b, ChapterFields[0]);
    assert Get(a, ChapterFields[1]) == Get(b, ChapterFields[1]);
    assert Get(a, ChapterFields[2]) == Get(b, ChapterFields[2]);
    assert Get(a, ChapterFields[3]) == Get(b, ChapterFields[3]);
    assert Get(a, ChapterFields[4]) == Get(b, ChapterFields[4]);
    assert Get(a, ChapterFields[5]) == Get(b, ChapterFields[5]);
  }

  /** Records that agree on index, url and alt map to the same page view. */
  lemma PageReadsOnlyItsFields(a: Record, b: Record)
    requires AgreeOn(a, b, PageFields)
    ensures MapPage(a) == MapPage(b)
  {
    assert Get(a, PageFields[0]) == Get(b, PageFields[0]);
    assert Get(a, PageFields[1]) == Get(b, PageFields[1]);
    assert Get(a, PageFields[2]) == Get(b, PageFields[2]);
  }

  /** `list.map(mapChapter)`. */
  function MapChapters(list: seq<Record>): (r: seq<ChapterView>)
    ensures |r| == |list| && forall i :: 0 <= i < |list| ==> r[i] == MapChapter(list[i])
  {
    seq(|list|, i requires 0 <= i < |list| => MapChapter(list[i]))
  }

  /** `list.map(mapPage)`. */
  function MapPages(list: seq<Record>): (r: seq<PageView>)
    ensures |r| == |list| && forall i :: 0 <= i < |list| ==> r[i] == MapPage(list[i])
  {
    seq(|list|, i requires 0 <= i < |list| => MapPage(list[i]))
  }
}
