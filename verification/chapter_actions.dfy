/**
 * The "Download" button of the chapter page: it builds a fresh ledger entry
 * and prepends it before navigating to the downloads page. The clock is the
 * parameter `nowMs`, and its ISO rendering the parameter `nowIso`.
 */
module ChapterActions {
  import opened Base
  import Js
  import Text
  import Downloads

  /** The fields of the `chapter` prop the handler reads; the prop itself may be absent. */
  datatype ChapterProp = ChapterProp(id: Js.Value, title: Js.Value, number: Js.Value)

  /** Optional chaining `chapter?.field`: `undefined` when the prop is absent. */
  function Field(chapter: Option<ChapterProp>, pick: ChapterProp -> Js.Value): Js.Value {
    match chapter
    case None => Js.Undefined
    case Some(c) => pick(c)
  }

  function PickId(c: ChapterProp): Js.Value { c.id }
  function PickTitle(c: ChapterProp): Js.Value { c.title }
  function PickNumber(c: ChapterProp): Js.Value { c.number }

  /** `chapter?.title || \`Chapter ${chapter?.number || '?'}\``. */
  function ChapterTitle(chapter: Option<ChapterProp>): (r: Js.Value)
    ensures Js.Truthy(r)
    ensures Js.Truthy(Field(chapter, PickTitle)) ==> r == Field(chapter, PickTitle)
    ensures !Js.Truthy(Field(chapter, PickTitle)) && !Js.Truthy(Field(chapter, PickNumber)) ==> r == Js.Str("Chapter ?")
    ensures !Js.Truthy(Field(chapter, PickTitle)) && Field(chapter, PickNumber).Str? && Js.Truthy(Field(chapter, PickNumber))
      ==> r == Js.Str("Chapter " + Field(chapter, PickNumber).s)
    ensures !Js.Truthy(Field(chapter, PickTitle)) && Field(chapter, PickNumber).Num? && Field(chapter, PickNumber).n != 0
      ==> r == Js.Str("Chapter " + Text.IntToString(Field(chapter, PickNumber).n))
  {
    var title := Field(chapter, PickTitle);
    if Js.Truthy(title) then title
    else Js.Str("Chapter " + Js.ToString(Js.Or(Field(chapter, PickNumber), Js.Str("?"))))
  }

  /** The entry `handleDownload` enqueues. */
  function NewEntry(mangaId: Js.Value, chapter: Option<ChapterProp>, nowMs: int, nowIso: string): (e: Downloads.Entry)
    ensures |e.id| > 2 && e.id[..2] == "d_" && e.id[2..] == Js.ToString(Js.Num(nowMs))
    ensures e.status == "downloading" && e.progress == Some(0)
    ensures Js.Truthy(mangaId) ==> e.mangaId == mangaId
    ensures !Js.Truthy(mangaId) ==> e.mangaId == Js.Null
    ensures Js.Truthy(Field(chapter, PickId)) ==> e.chapterId == Field(chapter, PickId)
    ensures !Js.Truthy(Field(chapter, PickId)) ==> e.chapterId == Js.Null
    ensures e.mangaTitle == Js.Null && e.error == None
    ensures Js.Truthy(e.chapterTitle)
    ensures e.createdAt == nowIso
  {
    Downloads.Entry(
      id := "d_" + Js.ToString(Js.Num(nowMs)),
      mangaId := Js.Or(mangaId, Js.Null),
      chapterId := Js.Or(Field(chapter, PickId), Js.Null),
      chapterTitle := ChapterTitle(chapter),
      mangaTitle := Js.Null,
      status := "downloading",
      progress := Some(0),
      createdAt := nowIso,
      error := None)
  }

  /** `handleDownload`: the ledger gains the new entry at its head, then the route changes. */
  function HandleDownload(store: Downloads.Store, mangaId: Js.Value, chapter: Option<ChapterProp>,
                          nowMs: int, nowIso: string, quotaOk: bool): (r: (Downloads.Outcome, string))
    ensures |r.0.list| >= 1 && r.0.list[0] == NewEntry(mangaId, chapter, nowMs, nowIso)
    ensures r.0.list[1..] == Downloads.Load(store)
    ensures quotaOk ==> Downloads.Load(r.0.store) == r.0.list
    ensures r.1 == "/downloads"
  {
    (Downloads.AddDownload(store, NewEntry(mangaId, chapter, nowMs, nowIso), quotaOk), "/downloads")
  }
}
