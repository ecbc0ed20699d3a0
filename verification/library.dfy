/**
 * The library page: the followed-manga list kept in browser storage under a
 * per-user key, loaded on mount and on follow events, and unfollowing.
 */
module Library {
  import opened Base
  import Seqs
  import Js
  import BrowserStorage

  /** A followed manga; only its id matters here (title and cover are display data). */
  datatype Followed = Followed(mangaId: Js.Value, title: Js.Value, coverUrl: Js.Value)

  type Store = BrowserStorage.Store<seq<Followed>>

  const KeyPrefix := "followed_mangas_"

  /** `followed_mangas_${user && user.id ? user.id : 'guest'}`. */
  function Key(userId: Option<Js.Value>): (k: string)
    ensures userId.Some? && Js.Truthy(userId.value) ==> k == KeyPrefix + Js.ToString(userId.value)
    ensures !(userId.Some? && Js.Truthy(userId.value)) ==> k == "followed_mangas_guest"
  {
    KeyPrefix + (if userId.Some? && Js.Truthy(userId.value) then Js.ToString(userId.value) else "guest")
  }

  /** A signed-in user whose id is a truthy value never shares the guest's key unless its id prints as 'guest'. */
  lemma UserKeyIsNotGuestKey(id: Js.Value)
    requires Js.Truthy(id) && Js.ToString(id) != "guest"
    ensures Key(Some(id)) != Key(None)
  {
    assert Key(Some(id))[|KeyPrefix|..] == Js.ToString(id);
    assert Key(None)[|KeyPrefix|..] == "guest";
  }

  /** `load`: the stored list, or `[]` for a missing key or unparsable data. */
  function Load(store: Store, key: string): (r: seq<Followed>)
    ensures BrowserStorage.Read(store, key).Json? ==> r == BrowserStorage.Read(store, key).value
    ensures !BrowserStorage.Read(store, key).Json? ==> r == []
  {
    BrowserStorage.LoadList(store, key)
  }

  /** The filter callback `String(x.mangaId) !== String(mangaId)`. */
  function Other(mangaId: Js.Value): Followed -> bool {
    (x: Followed) => Js.ToString(x.mangaId) != Js.ToString(mangaId)
  }

  /** The outcome of `unfollow`: the list shown and the store after it. */
  datatype Outcome = Outcome(shown: seq<Followed>, store: Store)

  /**
   * `unfollow`: every entry whose id prints like the argument goes, the rest stay in
   * order; the result is written back and shown. Stored text that does not parse,
   * or a refused write, throws before `setList` and is swallowed: nothing changes then.
   */
  function Unfollow(shown: seq<Followed>, store: Store, key: string, mangaId: Js.Value, quotaOk: bool): (r: Outcome)
    ensures Writes(store, key, quotaOk) ==> Seqs.IsSubsequence(r.shown, Load(store, key))
    ensures Writes(store, key, quotaOk) ==>
      forall i :: 0 <= i < |r.shown| ==> Js.ToString(r.shown[i].mangaId) != Js.ToString(mangaId)
    ensures Writes(store, key, quotaOk) ==>
      forall x :: x in Load(store, key) && Js.ToString(x.mangaId) != Js.ToString(mangaId) ==> x in r.shown
    ensures Writes(store, key, quotaOk) ==> forall x :: multiset(r.shown)[x] ==
                                                 if Js.ToString(x.mangaId) == Js.ToString(mangaId) then 0
                                                 else multiset(Load(store, key))[x]
    ensures Writes(store, key, quotaOk) ==> Load(r.store, key) == r.shown
    ensures forall k :: k != key ==> BrowserStorage.Read(r.store, k) == BrowserStorage.Read(store, k)
    ensures !Writes(store, key, quotaOk) ==> r == Outcome(shown, store)
  {
    if Writes(store, key, quotaOk) then
      var kept := Seqs.Filter(Load(store, key), Other(mangaId));
      Seqs.FilterCount(Load(store, key), Other(mangaId));
      Outcome(kept, BrowserStorage.Write(store, key, kept, true))
    else Outcome(shown, store)
  }

  /** The body of `unfollow` runs to its write: the stored text parses (or is absent) and the write is accepted. */
  predicate Writes(store: Store, key: string, quotaOk: bool) {
    quotaOk && !BrowserStorage.Read(store, key).Unparsable?
  }

  /** Unfollowing is idempotent: a second unfollow of the same id changes nothing more. */
  lemma UnfollowTwice(shown: seq<Followed>, store: Store, key: string, mangaId: Js.Value)
    ensures var once := Unfollow(shown, store, key, mangaId, true);
      Unfollow(once.shown, once.store, key, mangaId, true) == once
  {
    var once := Unfollow(shown, store, key, mangaId, true);
    if Writes(store, key, true) {
      var kept := Seqs.Filter(Load(store, key), Other(mangaId));
      var written := store[key := BrowserStorage.Json(kept)];
      assert once == Outcome(kept, written);
      assert BrowserStorage.Read(written, key) == BrowserStorage.Json(kept);
      assert Load(written, key) == kept;
      assert Writes(written, key, true);
      Seqs.FilterIdempotent(Load(store, key), Other(mangaId));
      assert written[key := BrowserStorage.Json(kept)] == written;
      assert Unfollow(kept, written, key, mangaId, true)
          == Outcome(Seqs.Filter(kept, Other(mangaId)), BrowserStorage.Write(written, key, Seqs.Filter(kept, Other(mangaId)), true));
    }
  }

  /** Unfollowing an id nobody follows rewrites the same list. */
  lemma UnfollowAbsent(shown: seq<Followed>, store: Store, key: string, mangaId: Js.Value)
    requires !BrowserStorage.Read(store, key).Unparsable?
    requires forall i :: 0 <= i < |Load(store, key)| ==> Js.ToString(Load(store, key)[i].mangaId) != Js.ToString(mangaId)
    ensures Unfollow(shown, store, key, mangaId, true).shown == Load(store, key)
  {
    Seqs.FilterAllPass(Load(store, key), Other(mangaId));
  }
}
