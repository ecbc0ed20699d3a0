/**
 * The catalogue hook: latest and popular lists from the local fixture in mock
 * mode, the latest list from the API otherwise, and the mock-mode switch.
 */
module Catalog {
  import opened Base
  import Arith
  import Seqs
  import Sorting
  import Transform

  /** A fixture entry; only its id and `dateUpdated` matter to the ordering. */
  datatype Item = Item(id: string, dateUpdated: Option<string>)

  /**
   * The sort key: the update time when `dateUpdated` is truthy, else 0.
   * `timeOf` stands for `new Date(...).getTime()`, which the model does not parse.
   */
  function Stamp(timeOf: string -> int): Item -> int {
    (it: Item) => if it.dateUpdated.Some? && it.dateUpdated.value != "" then timeOf(it.dateUpdated.value) else 0
  }

  /**
   * `latest`: the fixture, newest first; a permutation of it in which entries with
   * the same update time keep their fixture order, as the stable `sort` leaves them.
   */
  function Latest(items: seq<Item>, timeOf: string -> int): (r: seq<Item>)
    ensures |r| == |items| && multiset(r) == multiset(items)
    ensures Sorting.SortedDesc(r, Stamp(timeOf))
    ensures forall t :: Seqs.Filter(r, Sorting.KeyIs(Stamp(timeOf), t)) == Seqs.Filter(items, Sorting.KeyIs(Stamp(timeOf), t))
  {
    Sorting.SortDescSorted(items, Stamp(timeOf));
    Sorting.SortDescStable(items, Stamp(timeOf));
    Sorting.SortDesc(items, Stamp(timeOf))
  }

  const PopularLimit := 12

  /** `popular`: the first twelve of the latest list (a proxy for popularity). */
  function Popular(items: seq<Item>, timeOf: string -> int): (r: seq<Item>)
    ensures |r| == Arith.Min(|items|, PopularLimit)
    ensures r <= Latest(items, timeOf)
    ensures forall t :: Seqs.Filter(r, Sorting.KeyIs(Stamp(timeOf), t)) <= Seqs.Filter(items, Sorting.KeyIs(Stamp(timeOf), t))
  {
    var latest := Latest(items, timeOf);
    var n := Arith.Min(|items|, PopularLimit);
    forall t ensures Seqs.Filter(latest[..n], Sorting.KeyIs(Stamp(timeOf), t)) <= Seqs.Filter(items, Sorting.KeyIs(Stamp(timeOf), t)) {
      Seqs.FilterPrefix(latest, n, Sorting.KeyIs(Stamp(timeOf), t));
    }
    latest[..n]
  }

  /** Nothing left out of `popular` is newer than anything in it. */
  lemma PopularIsNewest(items: seq<Item>, timeOf: string -> int)
    ensures var l := Latest(items, timeOf); var p := Popular(items, timeOf);
      forall i, j :: 0 <= i < |p| <= j < |l| ==> Stamp(timeOf)(p[i]) >= Stamp(timeOf)(l[j])
  {
  }

  /** Fixture example: a fixture of at most twelve entries is entirely popular. */
  lemma SmallFixtureAllPopular(items: seq<Item>, timeOf: string -> int)
    requires |items| <= PopularLimit
    ensures multiset(Popular(items, timeOf)) == multiset(items)
  {
    assert Popular(items, timeOf) == Latest(items, timeOf);
  }

  /** `latest?.results?.map(mapMangaTitle) || []`: an empty array is truthy but maps to `[]` anyway. */
  function LiveLatest(data: Option<Option<seq<Transform.Record>>>): (r: seq<Transform.MangaView>)
    ensures data.None? || data.value.None? ==> r == []
    ensures data.Some? && data.value.Some? ==> |r| == |data.value.value|
    ensures data.Some? && data.value.Some? ==>
      forall i :: 0 <= i < |r| ==> r[i] == Transform.MapMangaTitle(data.value.value[i])
  {
    if data.Some? && data.value.Some? then
      var rs := data.value.value;
      seq(|rs|, i requires 0 <= i < |rs| => Transform.MapMangaTitle(rs[i]))
    else []
  }

  /** The catalogue's switch: `(VITE_USE_MOCK_DATA || 'true') === 'true'`. */
  predicate CatalogUsesMock(env: Option<string>) {
    var v := if env.Some? && env.value != "" then env.value else "true";
    v == "true"
  }

  /** The chapter page's switch: `VITE_USE_MOCK_DATA === 'true'`. */
  predicate ChapterPageUsesMock(env: Option<string>) {
    env == Some("true")
  }

  /** The two switches agree except when the variable is unset or empty: then the catalogue mocks and the chapter page goes live. */
  lemma MockSwitchesDisagreeOnlyWhenUnset(env: Option<string>)
    ensures CatalogUsesMock(env) != ChapterPageUsesMock(env) <==> env.None? || env == Some("")
  {
  }
}
