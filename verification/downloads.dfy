/**
 * The client-side download ledger: a list of download tasks persisted under
 * one `localStorage` key. Every mutator reloads the list, changes it, saves it
 * back and returns the list it saved.
 */
module Downloads {
  import opened Base
  import Seqs
  import Js
  import BrowserStorage

  const StorageKey: string := "downloads_queue_v1"

  /** One download task as stored; `status` is 'downloading', 'downloaded' or 'failed' by convention. */
  datatype Entry = Entry(
    id: string,
    mangaId: Js.Value,
    chapterId: Js.Value,
    chapterTitle: Js.Value,
    mangaTitle: Js.Value,
    status: string,
    progress: Option<int>,
    createdAt: string,
    error: Option<string>)

  /** The keys a patch object carries; an absent key leaves that field of the entry alone. */
  datatype Patch = Patch(status: Option<string>, progress: Option<int>)

  type Store = BrowserStorage.Store<seq<Entry>>

  /** What a mutator hands back: the list it built and the storage after saving it. */
  datatype Outcome = Outcome(list: seq<Entry>, store: Store)

  function Ids(list: seq<Entry>): (r: seq<string>)
    ensures |r| == |list| && forall i :: 0 <= i < |list| ==> r[i] == list[i].id
  {
    seq(|list|, i requires 0 <= i < |list| => list[i].id)
  }

  predicate HasId(list: seq<Entry>, id: string) {
    exists i :: 0 <= i < |list| && list[i].id == id
  }

  /** `loadDownloads`: the stored list, or `[]` when the key is empty or its text does not parse. */
  function Load(store: Store): (r: seq<Entry>)
    ensures BrowserStorage.Read(store, StorageKey).Json? ==> r == BrowserStorage.Read(store, StorageKey).value
    ensures !BrowserStorage.Read(store, StorageKey).Json? ==> r == []
  {
    BrowserStorage.LoadList(store, StorageKey)
  }

  /** `saveDownloads`: a refused write is swallowed and leaves storage as it was. */
  function Save(store: Store, list: seq<Entry>, quotaOk: bool): (r: Store)
    ensures quotaOk ==> Load(r) == list
    ensures !quotaOk ==> r == store
    ensures forall k :: k != StorageKey ==> BrowserStorage.Read(r, k) == BrowserStorage.Read(store, k)
  {
    BrowserStorage.Write(store, StorageKey, list, quotaOk)
  }

  /** `{...it, ...patch}`: the keys present in the patch win. */
  function Merge(e: Entry, p: Patch): (r: Entry)
    ensures r.id == e.id && r.mangaId == e.mangaId && r.chapterId == e.chapterId
    ensures r.chapterTitle == e.chapterTitle && r.mangaTitle == e.mangaTitle
    ensures r.createdAt == e.createdAt && r.error == e.error
    ensures p.status.Some? ==> r.status == p.status.value
    ensures p.status.None? ==> r.status == e.status
    ensures p.progress.Some? ==> r.progress == p.progress
    ensures p.progress.None? ==> r.progress == e.progress
  {
    e.(status := p.status.GetOr(e.status),
       progress := if p.progress.Some? then p.progress else e.progress)
  }

  /** Applying the same patch twice is applying it once. */
  lemma MergeIdempotent(e: Entry, p: Patch)
    ensures Merge(Merge(e, p), p) == Merge(e, p)
  {
  }

  /** `list.unshift(entry)`: the entry goes first, no check that its id is new. */
  function Prepend(list: seq<Entry>, e: Entry): (r: seq<Entry>)
    ensures |r| == |list| + 1
    ensures r[0] == e && r[1..] == list
  {
    [e] + list
  }

  /** `list.map(it => it.id === id ? {...it, ...patch} : it)`. */
  function Patched(list: seq<Entry>, id: string, p: Patch): (r: seq<Entry>)
    ensures |r| == |list|
    ensures forall i :: 0 <= i < |list| && list[i].id == id ==> r[i] == Merge(list[i], p)
    ensures forall i :: 0 <= i < |list| && list[i].id != id ==> r[i] == list[i]
    ensures Ids(r) == Ids(list)
  {
    seq(|list|, i requires 0 <= i < |list| => if list[i].id == id then Merge(list[i], p) else list[i])
  }

  /** The filter predicate of `removeDownload`: `it => it.id !== id`. */
  function KeepOther(id: string): Entry -> bool {
    (e: Entry) => e.id != id
  }

  /** `list.filter(it => it.id !== id)`. */
  function Without(list: seq<Entry>, id: string): (r: seq<Entry>)
    ensures !HasId(r, id)
    ensures forall i :: 0 <= i < |list| && list[i].id != id ==> list[i] in r
    ensures forall i :: 0 <= i < |r| ==> r[i] in list
    ensures Seqs.IsSubsequence(r, list)
    ensures forall e :: multiset(r)[e] == if e.id == id then 0 else multiset(list)[e]
  {
    Seqs.FilterCount(list, KeepOther(id));
    Seqs.Filter(list, KeepOther(id))
  }

  /** Patching an id no entry carries gives back the same list. */
  lemma PatchedAbsentIsIdentity(list: seq<Entry>, id: string, p: Patch)
    requires !HasId(list, id)
    ensures Patched(list, id, p) == list
  {
  }

  /** Patching twice with the same patch is patching once. */
  lemma PatchedIdempotent(list: seq<Entry>, id: string, p: Patch)
    ensures Patched(Patched(list, id, p), id, p) == Patched(list, id, p)
  {
    var once := Patched(list, id, p);
    forall i | 0 <= i < |list| && list[i].id == id
      ensures Patched(once, id, p)[i] == once[i]
    {
      MergeIdempotent(list[i], p);
    }
  }

  /** Removing twice is removing once. */
  lemma WithoutIdempotent(list: seq<Entry>, id: string)
    ensures Without(Without(list, id), id) == Without(list, id)
  {
    Seqs.FilterIdempotent(list, KeepOther(id));
  }

  /** Removing an id no entry carries gives back the same list. */
  lemma WithoutAbsentIsIdentity(list: seq<Entry>, id: string)
    requires !HasId(list, id)
    ensures Without(list, id) == list
  {
    Seqs.FilterAllPass(list, KeepOther(id));
  }

  /** Adding an entry with a fresh id and then removing that id restores the ledger. */
  lemma WithoutUndoesPrepend(list: seq<Entry>, e: Entry)
    requires !HasId(list, e.id)
    ensures Without(Prepend(list, e), e.id) == list
  {
    var r := Prepend(list, e);
    assert r[1..] == list;
    WithoutAbsentIsIdentity(list, e.id);
  }

  /** `addDownload(entry)`: prepend to the loaded list, save, return it. */
  function AddDownload(store: Store, e: Entry, quotaOk: bool): (r: Outcome)
    ensures r.list == Prepend(Load(store), e)
    ensures quotaOk ==> Load(r.store) == r.list
    ensures !quotaOk ==> r.store == store
  {
    var list := Prepend(Load(store), e);
    Outcome(list, Save(store, list, quotaOk))
  }

  /** `updateDownload(id, patch)`: merge the patch into every entry with that id, save, return. */
  function UpdateDownload(store: Store, id: string, p: Patch, quotaOk: bool): (r: Outcome)
    ensures r.list == Patched(Load(store), id, p)
    ensures quotaOk ==> Load(r.store) == r.list
    ensures !quotaOk ==> r.store == store
  {
    var list := Patched(Load(store), id, p);
    Outcome(list, Save(store, list, quotaOk))
  }

  /** `removeDownload(id)`: drop every entry with that id, save, return. */
  function RemoveDownload(store: Store, id: string, quotaOk: bool): (r: Outcome)
    ensures r.list == Without(Load(store), id)
    ensures quotaOk ==> Load(r.store) == r.list
    ensures !quotaOk ==> r.store == store
  {
    var list := Without(Load(store), id);
    Outcome(list, Save(store, list, quotaOk))
  }

  /** Removing the same id twice in a row leaves the same ledger as removing it once. */
  lemma RemoveDownloadTwice(store: Store, id: string)
    ensures RemoveDownload(RemoveDownload(store, id, true).store, id, true)
         == RemoveDownload(store, id, true)
  {
    WithoutIdempotent(Load(store), id);
  }
}
