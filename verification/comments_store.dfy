/**
 * Per-chapter comment lists kept in `localStorage` by the development UI,
 * one key per manga and chapter id pair.
 */
module CommentsStore {
  import Js
  import BrowserStorage

  /** `comments_${mangaId}_${chapterId}`. */
  function Key(mangaId: Js.Value, chapterId: Js.Value): (k: string)
    ensures |k| > |"comments_"| && k[..|"comments_"|] == "comments_"
    ensures k == "comments_" + Js.ToString(mangaId) + "_" + Js.ToString(chapterId)
  {
    "comments_" + Js.ToString(mangaId) + "_" + Js.ToString(chapterId)
  }

  /** `loadComments`: the stored list, or `[]` for a missing, empty or unparsable entry. */
  function Load<C>(store: BrowserStorage.Store<seq<C>>, mangaId: Js.Value, chapterId: Js.Value): (r: seq<C>)
    ensures BrowserStorage.Read(store, Key(mangaId, chapterId)).Json? ==> r == BrowserStorage.Read(store, Key(mangaId, chapterId)).value
    ensures !BrowserStorage.Read(store, Key(mangaId, chapterId)).Json? ==> r == []
  {
    BrowserStorage.LoadList(store, Key(mangaId, chapterId))
  }

  /** `saveComments`: a refused write is swallowed. */
  function Save<C>(store: BrowserStorage.Store<seq<C>>, mangaId: Js.Value, chapterId: Js.Value,
                   comments: seq<C>, quotaOk: bool): (r: BrowserStorage.Store<seq<C>>)
    ensures !quotaOk ==> r == store
    ensures forall k :: k != Key(mangaId, chapterId) ==> BrowserStorage.Read(r, k) == BrowserStorage.Read(store, k)
  {
    BrowserStorage.Write(store, Key(mangaId, chapterId), comments, quotaOk)
  }

  /** Saving then loading the same ids gives the saved list back; other chapters' lists are untouched. */
  lemma SaveThenLoad<C>(store: BrowserStorage.Store<seq<C>>, mangaId: Js.Value, chapterId: Js.Value,
                        comments: seq<C>, m': Js.Value, c': Js.Value)
    ensures Load(Save(store, mangaId, chapterId, comments, true), mangaId, chapterId) == comments
    ensures Key(m', c') != Key(mangaId, chapterId) ==>
      Load(Save(store, mangaId, chapterId, comments, true), m', c') == Load(store, m', c')
  {
  }

  /** Different id pairs can share one key, because an id may itself contain the separator. */
  lemma KeysCanCollide()
    ensures Key(Js.Str("1_2"), Js.Str("3")) == Key(Js.Str("1"), Js.Str("2_3"))
  {
  }

  /** A missing chapter id is spelled out: the manga-level list lives under "..._undefined". */
  lemma MissingChapterKey()
    ensures Key(Js.Str("7"), Js.Undefined) == "comments_7_undefined"
  {
  }
}
