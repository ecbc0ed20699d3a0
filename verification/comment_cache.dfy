/**
 * The react-query cache entries of comment lists: the create mutation's
 * optimistic insert, its rollback and invalidation, the edit mutation's
 * invalidation, and the query that reads them. The cache is a map from query
 * key to cached data; the clock is a parameter.
 */
module CommentCache {
  import opened Base
  import Js
  import Text
  import Transform

  /** `['comments', manga, chapter]`. */
  datatype QueryKey = QueryKey(manga: Js.Value, chapter: Js.Value)

  /** A cached page of comments: its `results` array (possibly missing) and every other field. */
  datatype Cached = Cached(results: Option<seq<Transform.Record>>, rest: Transform.Record)

  type Cache = map<QueryKey, Cached>

  /** The key both mutations build: `['comments', manga_title_id, chapter_id ?? null]`. */
  function MutationKey(mangaTitleId: Js.Value, chapterId: Js.Value): (k: QueryKey)
    ensures k.manga == mangaTitleId
    ensures k.chapter == if chapterId.Undefined? || chapterId.Null? then Js.Null else chapterId
  {
    QueryKey(mangaTitleId, Js.Coalesce(chapterId, Js.Null))
  }

  /** The key `useGetComments` reads under, with the same `?? null` normalisation. */
  function ListKey(mangaId: Js.Value, chapterId: Js.Value): (k: QueryKey)
    ensures k.manga == mangaId && k.chapter != Js.Undefined
    ensures (chapterId.Undefined? || chapterId.Null?) ==> k.chapter == Js.Null
    ensures !(chapterId.Undefined? || chapterId.Null?) ==> k.chapter == chapterId
  {
    QueryKey(mangaId, Js.Coalesce(chapterId, Js.Null))
  }

  /** Mutations invalidate exactly the entry the comment list reads, for missing chapters too. */
  lemma MutationHitsList(mangaId: Js.Value, chapterId: Js.Value)
    ensures MutationKey(mangaId, chapterId) == ListKey(mangaId, chapterId)
    ensures MutationKey(mangaId, Js.Undefined) == ListKey(mangaId, Js.Null)
    ensures ListKey(mangaId, Js.Undefined) == ListKey(mangaId, Js.Null)
  {
  }

  /** The placeholder comment shown until the server answers. */
  function Optimistic(nowMs: int, nowIso: string, text: Js.Value): (c: Transform.Record)
    ensures Transform.Get(c, "status") == Js.Str("active") && Transform.Get(c, "is_edited") == Js.Bool(false)
    ensures Transform.Get(c, "text") == if Js.Truthy(text) then text else Js.Str("")
    ensures Transform.Get(c, "id").Str? && |Transform.Get(c, "id").s| >= |"optimistic-"|
      && Transform.Get(c, "id").s[..|"optimistic-"|] == "optimistic-"
    ensures Transform.Get(c, "owner_name") == Js.Str("You")
  {
    map[
      "id" := Js.Str("optimistic-" + Text.IntToString(nowMs)),
      "owner_name" := Js.Str("You"),
      "owner_avatar" := Js.Null,
      "owner_id" := Js.Null,
      "text" := Js.Or(text, Js.Str("")),
      "attached_image_url" := Js.Null,
      "created_at" := Js.Str(nowIso),
      "status" := Js.Str("active"),
      "is_edited" := Js.Bool(false),
      "hidden_reasons" := Js.Null]
  }

  /** The context `onMutate` returns for the rollback: the key and the snapshot (`None` for undefined). */
  datatype Snapshot = Snapshot(key: QueryKey, previous: Option<Cached>)

  /**
   * `onMutate`: snapshot the entry, then put the optimistic comment in front
   * of its results, keeping every other field; with nothing cached the entry
   * becomes `{ results: [optimistic] }`.
   */
  function OnMutate(cache: Cache, mangaTitleId: Js.Value, chapterId: Js.Value, optimistic: Transform.Record): (r: (Cache, Snapshot))
    ensures var key := MutationKey(mangaTitleId, chapterId);
      r.1 == Snapshot(key, if key in cache then Some(cache[key]) else None)
      && key in r.0
      && r.0[key].results.Some? && |r.0[key].results.value| >= 1 && r.0[key].results.value[0] == optimistic
      && (key in cache ==> r.0[key].rest == cache[key].rest
                           && r.0[key].results.value[1..] == cache[key].results.GetOr([]))
      && (key !in cache ==> r.0[key] == Cached(Some([optimistic]), map[]))
      && (forall k :: k != key ==> (k in r.0 <==> k in cache) && (k in cache ==> r.0[k] == cache[k]))
  {
    var key := MutationKey(mangaTitleId, chapterId);
    var previous := if key in cache then Some(cache[key]) else None;
    var next := match previous
      case Some(p) => p.(results := Some([optimistic] + p.results.GetOr([])))
      case None => Cached(Some([optimistic]), map[]);
    (cache[key := next], Snapshot(key, previous))
  }

  /**
   * `onError`: `setQueryData(key, previous)`. React Query ignores an
   * `undefined` value, so without a snapshot the optimistic entry stays
   * until the invalidation refetches it.
   */
  function OnError(cache: Cache, ctx: Snapshot): (r: Cache)
    ensures ctx.previous.Some? ==> r == cache[ctx.key := ctx.previous.value]
    ensures ctx.previous.None? ==> r == cache
  {
    match ctx.previous
    case Some(p) => cache[ctx.key := p]
    case None => cache
  }

  /** A failed create with a snapshot puts the cache back exactly as it was. */
  lemma RollbackRestores(cache: Cache, mangaTitleId: Js.Value, chapterId: Js.Value, optimistic: Transform.Record)
    requires MutationKey(mangaTitleId, chapterId) in cache
    ensures var m := OnMutate(cache, mangaTitleId, chapterId, optimistic);
      OnError(m.0, m.1) == cache
  {
    var key := MutationKey(mangaTitleId, chapterId);
    var m := OnMutate(cache, mangaTitleId, chapterId, optimistic);
    assert OnError(m.0, m.1) == cache[key := cache[key]];
  }

  /** A failed create on an uncached key leaves the optimistic comment in place. */
  lemma RollbackWithoutSnapshotKeepsPlaceholder(cache: Cache, mangaTitleId: Js.Value, chapterId: Js.Value, optimistic: Transform.Record)
    requires MutationKey(mangaTitleId, chapterId) !in cache
    ensures var m := OnMutate(cache, mangaTitleId, chapterId, optimistic);
      OnError(m.0, m.1)[MutationKey(mangaTitleId, chapterId)] == Cached(Some([optimistic]), map[])
  {
  }

  /** The keys a settled mutation invalidates: create always, edit only on success. */
  function CreateInvalidates(mangaTitleId: Js.Value, chapterId: Js.Value, success: bool): (keys: set<QueryKey>)
    ensures keys == {MutationKey(mangaTitleId, chapterId)}
  {
    {MutationKey(mangaTitleId, chapterId)}
  }

  function EditInvalidates(mangaTitleId: Js.Value, chapterId: Js.Value, success: bool): (keys: set<QueryKey>)
    ensures success ==> keys == {MutationKey(mangaTitleId, chapterId)}
    ensures !success ==> keys == {}
  {
    if success then {MutationKey(mangaTitleId, chapterId)} else {}
  }

  /** Which endpoint the comment query calls. */
  datatype Fetch = ByChapter(chapterId: Js.Value) | ByManga(mangaId: Js.Value)

  /** `normalizedChapterId ? fetchCommentsByChapter(...) : fetchCommentsByMangaTitle(mangaId)`. */
  function ChooseFetch(mangaId: Js.Value, chapterId: Js.Value): (f: Fetch)
    ensures f.ByChapter? <==> Js.Truthy(chapterId)
    ensures f.ByChapter? ==> f.chapterId == chapterId
    ensures f.ByManga? ==> f.mangaId == mangaId
  {
    var normalized := Js.Coalesce(chapterId, Js.Null);
    if Js.Truthy(normalized) then ByChapter(normalized) else ByManga(mangaId)
  }

  /** The query's `retry` and `enabled` options, from `navigator.onLine`. */
  function QueryOptions(online: bool): (r: (int, bool))
    ensures r.1 == online
    ensures 0 <= r.0 <= 1 && (r.0 == 1 <==> online)
  {
    (if online then 1 else 0, online)
  }

  /** `data?.results?.map(mapComment) || []`; the row mapper is a parameter. */
  function Comments<D>(data: Option<Cached>, mapComment: Transform.Record -> D): (r: seq<D>)
    ensures (data.None? || data.value.results.None?) ==> r == []
    ensures data.Some? && data.value.results.Some? ==>
      |r| == |data.value.results.value|
      && forall i :: 0 <= i < |r| ==> r[i] == mapComment(data.value.results.value[i])
  {
    if data.Some? && data.value.results.Some? then
      var rs := data.value.results.value;
      seq(|rs|, i requires 0 <= i < |rs| => mapComment(rs[i]))
    else []
  }
}
