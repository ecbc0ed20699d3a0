/**
 * The browser's `localStorage` as seen through `JSON.parse`/`JSON.stringify`.
 * A key either holds nothing (absent or the empty string), text that does not
 * parse, or the JSON encoding of a value; the encoding itself is abstracted.
 */
module BrowserStorage {

  datatype Slot<T> = Missing | Unparsable | Json(value: T)

  type Store<T> = map<string, Slot<T>>

  /** `localStorage.getItem(key)` followed by the caller's parse. */
  function Read<T>(store: Store<T>, key: string): Slot<T> {
    if key in store then store[key] else Missing
  }

  /**
   * The common loader shape `try { raw ? JSON.parse(raw) : [] } catch { [] }`:
   * the stored list, or the empty list when nothing or garbage is stored.
   */
  function LoadList<E>(store: Store<seq<E>>, key: string): (r: seq<E>)
    ensures Read(store, key).Json? ==> r == Read(store, key).value
    ensures !Read(store, key).Json? ==> r == []
  {
    match Read(store, key)
    case Json(v) => v
    case _ => []
  }

  /**
   * `try { localStorage.setItem(key, JSON.stringify(v)) } catch {}`: `quotaOk` is
   * whether the browser accepted the write; a refused write is swallowed.
   */
  function Write<T>(store: Store<T>, key: string, v: T, quotaOk: bool): (r: Store<T>)
    ensures quotaOk ==> Read(r, key) == Json(v)
    ensures forall k :: k != key ==> Read(r, k) == Read(store, k)
    ensures !quotaOk ==> r == store
  {
    if quotaOk then store[key := Json(v)] else store
  }
}
