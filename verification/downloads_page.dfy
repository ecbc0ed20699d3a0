/**
 * The downloads page: three status sections over the ledger, the simulated
 * progress tick of one task, and the cancel/remove/retry handlers. The random
 * increment `Math.floor(Math.random()*15)+5` is the parameter `k`, and the
 * unseen `startDownload` is represented by its outcome.
 */
module DownloadsPage {
  import opened Base
  import Seqs
  import opened Downloads

  /** `d => d.status === status`. */
  function HasStatus(status: string): Entry -> bool {
    (e: Entry) => e.status == status
  }

  function Section(list: seq<Entry>, status: string): (r: seq<Entry>)
    ensures forall i :: 0 <= i < |r| ==> r[i].status == status && r[i] in list
    ensures forall i :: 0 <= i < |list| && list[i].status == status ==> list[i] in r
    ensures Seqs.IsSubsequence(r, list)
    ensures forall e :: multiset(r)[e] == if e.status == status then multiset(list)[e] else 0
  {
    Seqs.FilterCount(list, HasStatus(status));
    Seqs.Filter(list, HasStatus(status))
  }

  /** The downloading, downloaded and failed sections rendered from one ledger. */
  datatype Sections = Sections(downloading: seq<Entry>, downloaded: seq<Entry>, failed: seq<Entry>)

  /** The page's three filters: disjoint, each complete for its status, and blind to any other status. */
  function Partition(list: seq<Entry>): (r: Sections)
    ensures forall e :: e in r.downloading ==> e in list && e.status == "downloading"
    ensures forall e :: e in r.downloaded ==> e in list && e.status == "downloaded"
    ensures forall e :: e in r.failed ==> e in list && e.status == "failed"
    ensures forall e :: e in list && e.status == "downloading" ==> e in r.downloading
    ensures forall e :: e in list && e.status == "downloaded" ==> e in r.downloaded
    ensures forall e :: e in list && e.status == "failed" ==> e in r.failed
    ensures forall e :: e in r.downloading ==> e !in r.downloaded && e !in r.failed
    ensures forall e :: e in r.downloaded ==> e !in r.failed
    ensures |r.downloading| + |r.downloaded| + |r.failed| <= |list|
  {
    var r := Sections(Section(list, "downloading"), Section(list, "downloaded"), Section(list, "failed"));
    SectionsFit(list);
    r
  }

  /** Counting argument behind the size bound of `Partition`. */
  lemma {:induction false} SectionsFit(list: seq<Entry>)
    ensures |Section(list, "downloading")| + |Section(list, "downloaded")| + |Section(list, "failed")| <= |list|
    decreases |list|
  {
    if |list| > 0 {
      SectionsFit(list[1..]);
    }
  }

  /** The first entry with the id, as `state.find(x => x.id === id)`. */
  function Find(list: seq<Entry>, id: string): (r: Option<Entry>)
    ensures r.None? <==> !HasId(list, id)
    ensures r.Some? ==> exists i :: 0 <= i < |list| && list[i] == r.value && r.value.id == id && !HasId(list[..i], id)
  {
    if |list| == 0 then None
    else if list[0].id == id then Some(list[0])
    else
      var r := Find(list[1..], id);
      assert r.Some? ==> exists i :: 0 <= i < |list| && list[i] == r.value && r.value.id == id && !HasId(list[..i], id) by {
        if r.Some? {
          var j :| 0 <= j < |list[1..]| && list[1..][j] == r.value && r.value.id == id && !HasId(list[1..][..j], id);
          assert list[..j + 1] == [list[0]] + list[1..][..j];
          assert list[j + 1] == r.value;
          assert !HasId(list[..j + 1], id);
        }
      }
      r
  }

  /** `Math.min(100, (it.progress || 0) + k)`. */
  function NextProgress(progress: Option<int>, k: int): (next: int)
    requires 5 <= k <= 19
    ensures next <= 100
    ensures progress.GetOr(0) < 100 ==> progress.GetOr(0) < next
    ensures next == 100 <==> progress.GetOr(0) + k >= 100
    ensures next < 100 ==> next - progress.GetOr(0) == k
  {
    var base := progress.GetOr(0);
    if base + k < 100 then base + k else 100
  }

  /** What one timer callback leaves behind; `running` is false once the interval is cleared. */
  datatype TickOutcome = TickOutcome(shown: seq<Entry>, store: Store, running: bool)

  /**
   * One interval callback for download `id`: stop if the download is gone; otherwise
   * advance its progress, finishing it as 'downloaded' at 100.
   */
  function Tick(store: Store, id: string, k: int, quotaOk: bool): (r: TickOutcome)
    requires 5 <= k <= 19
    ensures !HasId(Load(store), id) ==> r.store == store && !r.running
    ensures HasId(Load(store), id) ==>
      var it := Find(Load(store), id).value;
      var next := NextProgress(it.progress, k);
      (r.running <==> next < 100)
      && r.shown == Load(r.store)
      && (quotaOk ==> r.shown == Patched(Load(store), id,
            if next < 100 then Patch(None, Some(next)) else Patch(Some("downloaded"), Some(100))))
      && (!quotaOk ==> r.store == store)
  {
    match Find(Load(store), id)
    case None => TickOutcome(Load(store), store, false)
    case Some(it) =>
      var next := NextProgress(it.progress, k);
      if next >= 100 then
        var u := UpdateDownload(store, id, Patch(Some("downloaded"), Some(100)), quotaOk);
        TickOutcome(Load(u.store), u.store, false)
      else
        var u := UpdateDownload(store, id, Patch(None, Some(next)), quotaOk);
        TickOutcome(Load(u.store), u.store, true)
  }

  /** A tick below 100 changes progress only; a finishing tick also marks the download downloaded. */
  lemma TickTouchesOnlyProgressAndStatus(store: Store, id: string, k: int, i: int)
    requires 5 <= k <= 19
    requires 0 <= i < |Load(store)|
    ensures var before := Load(store)[i];
      var after := Load(Tick(store, id, k, true).store)[i];
      after.id == before.id && after.chapterTitle == before.chapterTitle && after.createdAt == before.createdAt
      && (before.id != id ==> after == before)
      && (before.id == id ==> after.progress.Some? && after.progress.value <= 100
                               && (after.status == "downloaded" <==> after.progress.value == 100 || before.status == "downloaded"))
  {
    var list := Load(store);
    if list[i].id == id {
      assert HasId(list, id);
    }
  }

  /** `setDownloads(loadDownloads())`: every handler re-renders from storage, not from a mutator's return value. */
  function Rerender(store: Store): (r: Outcome)
    ensures r.store == store && r.list == Load(store)
  {
    Outcome(Load(store), store)
  }

  /** `handleCancel(id)`: mark that download failed, then show what storage now holds. */
  function Cancel(store: Store, id: string, quotaOk: bool): (r: Outcome)
    ensures r.store == UpdateDownload(store, id, Patch(Some("failed"), None), quotaOk).store
    ensures r.list == Load(r.store)
    ensures !quotaOk ==> r.store == store
    ensures quotaOk ==> |r.list| == |Load(store)|
    ensures quotaOk ==> forall i :: 0 <= i < |r.list| ==>
      var before := Load(store)[i];
      if before.id == id then r.list[i] == before.(status := "failed") else r.list[i] == before
  {
    Rerender(UpdateDownload(store, id, Patch(Some("failed"), None), quotaOk).store)
  }

  /** Cancelling keeps every download in place: the shown ids are the ledger's ids, whatever the quota. */
  lemma CancelKeepsIds(store: Store, id: string, quotaOk: bool)
    ensures Ids(Cancel(store, id, quotaOk).list) == Ids(Load(store))
  {
  }

  /** A second cancel of the same download changes nothing. */
  lemma CancelIdempotent(store: Store, id: string, quotaOk: bool)
    ensures Cancel(Cancel(store, id, quotaOk).store, id, quotaOk) == Cancel(store, id, quotaOk)
  {
    var once := Cancel(store, id, quotaOk);
    if quotaOk {
      PatchedIdempotent(Load(store), id, Patch(Some("failed"), None));
    }
  }

  /** `handleRemove(id)`: exactly `removeDownload(id)` on storage, then show what storage now holds. */
  function Remove(store: Store, id: string, quotaOk: bool): (r: Outcome)
    ensures r.store == RemoveDownload(store, id, quotaOk).store
    ensures r.list == Load(r.store)
    ensures !quotaOk ==> r.store == store
    ensures quotaOk ==> !HasId(r.list, id)
    ensures quotaOk ==> forall e :: multiset(r.list)[e] == if e.id == id then 0 else multiset(Load(store))[e]
  {
    Rerender(RemoveDownload(store, id, quotaOk).store)
  }

  /** Removing the same download twice leaves what removing it once left. */
  lemma RemoveIdempotent(store: Store, id: string, quotaOk: bool)
    ensures Remove(Remove(store, id, quotaOk).store, id, quotaOk) == Remove(store, id, quotaOk)
  {
    if quotaOk {
      RemoveDownloadTwice(store, id);
    }
  }

  /**
   * What the awaited `startDownload(...)` did: it settled, resolved or rejected,
   * leaving storage as `store` (it may enqueue a fresh download of its own).
   */
  datatype StartOutcome = Resolved(store: Store) | Rejected(store: Store)

  /**
   * `handleRetry(item)`: the old entry is removed only after the fresh
   * download resolved; on rejection the page shows storage as the start left it.
   */
  function Retry(item: Entry, start: StartOutcome, quotaOk: bool): (r: Outcome)
    ensures r.list == Load(r.store)
    ensures start.Resolved? ==> r.store == RemoveDownload(start.store, item.id, quotaOk).store
    ensures start.Resolved? && quotaOk ==> !HasId(r.list, item.id)
    ensures start.Resolved? && quotaOk ==>
      forall e :: multiset(r.list)[e] == if e.id == item.id then 0 else multiset(Load(start.store))[e]
    ensures start.Rejected? || !quotaOk ==> r.store == start.store
    ensures start.Rejected? && item in Load(start.store) ==> item in r.list
  {
    match start
    case Resolved(s) => Rerender(RemoveDownload(s, item.id, quotaOk).store)
    case Rejected(s) => Rerender(s)
  }

  /** A resolved retry is the remove handler applied to the storage the fresh start left behind. */
  lemma ResolvedRetryIsRemove(item: Entry, s: Store, quotaOk: bool)
    ensures Retry(item, Resolved(s), quotaOk) == Remove(s, item.id, quotaOk)
  {
  }
}
