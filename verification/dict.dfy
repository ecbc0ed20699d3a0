/**
 * Insertion-ordered string-keyed dictionaries: a Python `dict` or a JSON object.
 * Assigning to a present key keeps its position; a new key goes at the end.
 */
module Dict {
  import opened Base

  type Dict<V> = seq<(string, V)>

  function Keys<V>(d: Dict<V>): (r: seq<string>)
    ensures |r| == |d|
    ensures forall i :: 0 <= i < |d| ==> r[i] == d[i].0
  {
    seq(|d|, i requires 0 <= i < |d| => d[i].0)
  }

  /** The keys of `d` as a set. */
  function KeySet<V>(d: Dict<V>): set<string> {
    set i | 0 <= i < |d| :: d[i].0
  }

  /** No key occurs twice. */
  predicate UniqueKeys<V>(d: Dict<V>) {
    forall i, j :: 0 <= i < j < |d| ==> d[i].0 != d[j].0
  }

  predicate HasKey<V>(d: Dict<V>, k: string) {
    exists i :: 0 <= i < |d| && d[i].0 == k
  }

  /** `d.get(k)`: the value of the first entry with key `k`. */
  function Get<V>(d: Dict<V>, k: string): (r: Option<V>)
    ensures r.None? <==> !HasKey(d, k)
    ensures r.Some? ==> exists i :: 0 <= i < |d| && d[i] == (k, r.value)
    decreases |d|
  {
    if |d| == 0 then None
    else if d[0].0 == k then Some(d[0].1)
    else Get(d[1..], k)
  }

  /** `d.get(k, default)`. */
  function GetOr<V>(d: Dict<V>, k: string, default: V): V {
    Get(d, k).GetOr(default)
  }

  /** `d[k] = v`. */
  function Put<V>(d: Dict<V>, k: string, v: V): (r: Dict<V>)
    ensures |r| == if HasKey(d, k) then |d| else |d| + 1
    ensures forall i :: 0 <= i < |d| ==> r[i].0 == d[i].0
    ensures !HasKey(d, k) ==> r[|d|] == (k, v)
    ensures Get(r, k) == Some(v)
    ensures forall i :: 0 <= i < |r| ==> r[i] == (k, v) || (i < |d| && r[i] == d[i])
    ensures KeySet(r) == KeySet(d) + {k}
    decreases |d|
  {
    if |d| == 0 then [(k, v)]
    else if d[0].0 == k then
      var r := [(k, v)] + d[1..];
      assert forall i :: 0 <= i < |d| ==> r[i].0 == d[i].0;
      r
    else
      var rest := Put(d[1..], k, v);
      KeySetCons(d[0], rest);
      KeySetCons(d[0], d[1..]);
      assert [d[0]] + d[1..] == d;
      [d[0]] + rest
  }

  lemma KeySetCons<V>(x: (string, V), d: Dict<V>)
    ensures KeySet([x] + d) == {x.0} + KeySet(d)
  {
    var r := [x] + d;
    forall y | y in KeySet(r) ensures y in {x.0} + KeySet(d) {
      var i :| 0 <= i < |r| && r[i].0 == y;
      if i > 0 { assert d[i - 1].0 == y; }
    }
    forall y | y in KeySet(d) ensures y in KeySet(r) {
      var i :| 0 <= i < |d| && d[i].0 == y;
      assert r[i + 1].0 == y;
    }
    assert r[0].0 == x.0;
  }

  /** Membership in the key set is `HasKey`. */
  lemma KeySetHasKey<V>(d: Dict<V>, k: string)
    ensures k in KeySet(d) <==> HasKey(d, k)
  {
    if HasKey(d, k) {
      var i :| 0 <= i < |d| && d[i].0 == k;
      assert d[i].0 in KeySet(d);
    }
  }

  /** Assigning one key leaves every other key's value as it was. */
  lemma {:induction false} PutOthers<V>(d: Dict<V>, k: string, v: V, k': string)
    requires k' != k
    ensures Get(Put(d, k, v), k') == Get(d, k')
    decreases |d|
  {
    if |d| > 0 && d[0].0 != k {
      PutOthers(d[1..], k, v, k');
    }
  }

  /** Assignment keeps keys unique. */
  lemma PutUnique<V>(d: Dict<V>, k: string, v: V)
    ensures UniqueKeys(d) ==> UniqueKeys(Put(d, k, v))
  {
    var r := Put(d, k, v);
    if UniqueKeys(d) && !HasKey(d, k) {
      forall i | 0 <= i < |d| ensures r[i].0 != k {
      }
    }
  }

  /** `del d[k]` when present (no-op otherwise): the other entries, in order. */
  function Remove<V>(d: Dict<V>, k: string): (r: Dict<V>)
    ensures !HasKey(r, k)
    ensures forall k' :: k' != k ==> Get(r, k') == Get(d, k')
    ensures UniqueKeys(d) ==> UniqueKeys(r)
    ensures |r| <= |d|
    decreases |d|
  {
    if |d| == 0 then []
    else if d[0].0 == k then Remove(d[1..], k)
    else
      var rest := Remove(d[1..], k);
      assert forall j :: 0 <= j < |rest| ==> HasKey(d[1..], rest[j].0) by {
        forall j | 0 <= j < |rest| ensures HasKey(d[1..], rest[j].0) {
          assert Get(rest, rest[j].0).Some?;
        }
      }
      [d[0]] + rest
  }
}
