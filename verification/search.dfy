/**
 * Searching manga: the search bar's mock fallback (filters and ordering over
 * the four fixture entries), its input and submit guards, and the advanced
 * search page's URL parameters, trigger, genre toggle and response shaping.
 */
module Search {
  import opened Base
  import Seqs
  import Text
  import Sorting

  /** A fixture entry of the mock catalogue. */
  datatype MockManga = MockManga(
    id: string, title: string, latestChapter: Option<string>, status: string,
    contentRating: string, genres: Option<seq<string>>)

  const MangaMock: seq<MockManga> := [
    MockManga("1", "Blue Expanse", Some("Ch. 48"), "Ongoing", "PG-13", Some(["Adventure", "Sci-Fi"])),
    MockManga("2", "Crimson Dawn", Some("Ch. 120"), "Completed", "R", Some(["Action", "Fantasy"])),
    MockManga("3", "Silent Forest", Some("Ch. 7"), "Hiatus", "PG", Some(["Drama", "Slice of Life"])),
    MockManga("4", "Starbound Knights", Some("Ch. 201"), "Ongoing", "PG-13", Some(["Fantasy", "Action"]))]

  /** The filter parameters; an absent or empty string is falsy and switches its filter off. */
  datatype Params = Params(
    status: Option<string>, contentRating: Option<string>, genre: Option<seq<string>>,
    minChapter: Option<string>, ordering: Option<string>)

  const NoParams: Params := Params(None, None, None, None, None)

  /** A parameter that is set (truthy) and not 'any'. */
  predicate Restricts(p: Option<string>) {
    p.Some? && p.value != "" && p.value != "any"
  }

  /** `parseInt(s, 10) || 0`. */
  function IntOrZero(s: string): int {
    match Text.ParseInt(s)
    case None => 0
    case Some(n) => n
  }

  /** `parseInt((latest_chapter || '').replace(/[^0-9]/g, ''), 10) || 0`: the digits of the label as a number. */
  function ChapterNumber(m: MockManga): (n: int)
    ensures n >= 0
    ensures n == Text.DecimalValue(Text.DigitsOnly(m.latestChapter.GetOr("")))
  {
    var digits := Text.DigitsOnly(m.latestChapter.GetOr(""));
    DigitsParse(digits);
    IntOrZero(digits)
  }

  /** A string of digits parses to its decimal value (the empty string to NaN, read as 0). */
  lemma DigitsParse(digits: string)
    requires forall i :: 0 <= i < |digits| ==> Text.IsDigit(digits[i])
    ensures IntOrZero(digits) == Text.DecimalValue(digits)
  {
    DigitsNotTrimmed(digits);
    AllDigitsLead(digits);
    DigitsUnsigned(digits);
    ParsePlain(digits);
  }

  /** A string of digits carries no sign to skip. */
  lemma DigitsUnsigned(digits: string)
    requires forall i :: 0 <= i < |digits| ==> Text.IsDigit(digits[i])
    ensures Text.SkipSign(digits) == digits
  {
    if |digits| > 0 {
      assert Text.IsDigit(digits[0]);
    }
  }

  /** `parseInt` of text with no space, no sign and nothing after its digits. */
  lemma ParsePlain(s: string)
    requires Text.TrimStart(s, Text.IsJsSpace) == s
    requires Text.SkipSign(s) == s
    requires Text.LeadingDigits(s) == s
    ensures Text.ParseInt(s) == if |s| == 0 then None else Some(Text.DecimalValue(s))
  {
    // A leading sign would make the sign-skipped text shorter.
    assert |Text.SkipSign(s)| == |s|;
  }

  lemma DigitsNotTrimmed(digits: string)
    requires forall i :: 0 <= i < |digits| ==> Text.IsDigit(digits[i])
    ensures Text.TrimStart(digits, Text.IsJsSpace) == digits
  {
    if |digits| > 0 {
      DigitNotSpace(digits[0]);
    }
  }

  lemma DigitNotSpace(c: char)
    requires Text.IsDigit(c)
    ensures !Text.IsJsSpace(c)
  {
  }

  lemma {:induction false} AllDigitsLead(s: string)
    requires forall i :: 0 <= i < |s| ==> Text.IsDigit(s[i])
    ensures Text.LeadingDigits(s) == s
    decreases |s|
  {
    if |s| > 0 {
      AllDigitsLead(s[1..]);
    }
  }

  predicate TermOk(m: MockManga, term: string) {
    var t := Text.Lower(term);
    t == "" || Text.Contains(Text.Lower(m.title), t)
  }

  predicate StatusOk(m: MockManga, p: Params) {
    !Restricts(p.status) || m.status == p.status.value
  }

  predicate RatingOk(m: MockManga, p: Params) {
    !Restricts(p.contentRating) || m.contentRating == p.contentRating.value
  }

  predicate GenreOk(m: MockManga, p: Params) {
    p.genre.None? || |p.genre.value| == 0
    || exists i :: 0 <= i < |p.genre.value| && p.genre.value[i] in m.genres.GetOr([])
  }

  predicate MinChapterOk(m: MockManga, p: Params) {
    p.minChapter.None? || p.minChapter.value == "" || ChapterNumber(m) >= IntOrZero(p.minChapter.value)
  }

  /** The mock filter callback, as a function value. */
  function Matches(term: string, p: Params): MockManga -> bool {
    (m: MockManga) => TermOk(m, term) && StatusOk(m, p) && RatingOk(m, p) && GenreOk(m, p) && MinChapterOk(m, p)
  }

  /** `mangaMock.filter(...)`: exactly the fixture entries passing every active filter, in fixture order. */
  function MockFilter(term: string, p: Params): (r: seq<MockManga>)
    ensures Seqs.IsSubsequence(r, MangaMock)
    ensures forall i :: 0 <= i < |r| ==>
      TermOk(r[i], term) && StatusOk(r[i], p) && RatingOk(r[i], p) && GenreOk(r[i], p) && MinChapterOk(r[i], p)
    ensures forall i :: 0 <= i < |MangaMock| && TermOk(MangaMock[i], term) && StatusOk(MangaMock[i], p)
              && RatingOk(MangaMock[i], p) && GenreOk(MangaMock[i], p) && MinChapterOk(MangaMock[i], p)
              ==> MangaMock[i] in r
  {
    Seqs.Filter(MangaMock, Matches(term, p))
  }

  /** With no parameters and no term, the whole fixture comes back. */
  lemma EmptySearchIsEverything()
    ensures MockFilter("", NoParams) == MangaMock
  {
    Seqs.FilterAllPass(MangaMock, Matches("", NoParams));
  }

  /**
   * The mock ordering: by chapter number, largest first, for 'latest_chapter';
   * the locale collation of 'title' is the parameter `byTitle`; any other
   * ordering compares everything equal and keeps the filter order.
   */
  function OrderMock(list: seq<MockManga>, ordering: Option<string>, byTitle: seq<MockManga> -> seq<MockManga>): (r: seq<MockManga>)
    ensures ordering == Some("latest_chapter") ==> multiset(r) == multiset(list) && Sorting.SortedDesc(r, ChapterNumber)
    ensures ordering == Some("latest_chapter") ==>
              forall k :: Seqs.Filter(r, Sorting.KeyIs(ChapterNumber, k)) == Seqs.Filter(list, Sorting.KeyIs(ChapterNumber, k))
    ensures ordering != Some("latest_chapter") && ordering != Some("title") ==> r == list
  {
    if ordering == Some("title") then byTitle(list)
    else if ordering == Some("latest_chapter") then
      Sorting.SortDescSorted(list, ChapterNumber);
      Sorting.SortDescStable(list, ChapterNumber);
      Sorting.SortDesc(list, ChapterNumber)
    else list
  }

  /** The parts of an HTTP answer `searchBackend` looks at. */
  datatype Body<T> = ArrayBody(items: seq<T>) | PagedBody(results: Option<seq<T>>) | OtherBody
  datatype Response<T> = Failed | Answered(body: Body<T>)

  /** The array body, else its `results` array, else `[]`. */
  function Shape<T>(body: Body<T>): (r: seq<T>)
    ensures body.ArrayBody? ==> r == body.items
    ensures body.PagedBody? && body.results.Some? ==> r == body.results.value
    ensures body.OtherBody? || (body.PagedBody? && body.results.None?) ==> r == []
  {
    match body
    case ArrayBody(items) => items
    case PagedBody(results) => results.GetOr([])
    case OtherBody => []
  }

  /** The search bar's `searchBackend`: on failure, the ordered mock filter. */
  function SearchBarBackend(term: string, p: Params, response: Response<MockManga>,
                            byTitle: seq<MockManga> -> seq<MockManga>): (r: seq<MockManga>)
    ensures response.Answered? ==> r == Shape(response.body)
    ensures response.Failed? && p.ordering != Some("title") ==> multiset(r) == multiset(MockFilter(term, p))
    ensures response.Failed? && p.ordering != Some("title") ==> forall i :: 0 <= i < |r| ==> r[i] in MangaMock
  {
    match response
    case Answered(body) => Shape(body)
    case Failed =>
      var filtered := MockFilter(term, p);
      var r := OrderMock(filtered, p.ordering, byTitle);
      assert forall i :: 0 <= i < |r| ==> r[i] in multiset(filtered) ==> r[i] in filtered;
      r
  }

  /** The advanced search page's `searchBackend`: on failure, nothing. */
  function AdvancedBackend<T>(response: Response<T>): (r: seq<T>)
    ensures response.Failed? ==> r == []
    ensures response.Answered? ==> r == Shape(response.body)
  {
    match response
    case Failed => []
    case Answered(body) => Shape(body)
  }

  /** What typing into the search bar does. */
  datatype InputAction = ClearAndClose | SearchAfterDelay(term: string)

  /** `onChange`: a blank value clears and closes; otherwise the trimmed value is searched after 250 ms. */
  function OnChange(value: string): (a: InputAction)
    ensures a.ClearAndClose? <==> forall i :: 0 <= i < |value| ==> Text.IsJsSpace(value[i])
    ensures a.SearchAfterDelay? ==> a.term == Text.JsTrim(value) && a.term != ""
  {
    if value == "" || Text.JsTrim(value) == "" then ClearAndClose else SearchAfterDelay(Text.JsTrim(value))
  }

  /** `onSubmit`: navigate to the first result, only when there is one. */
  function OnSubmit(results: seq<MockManga>): (route: Option<string>)
    ensures route.Some? <==> |results| > 0
    ensures route.Some? ==> route.value == "/manga/" + results[0].id
  {
    if |results| > 0 then Some("/manga/" + results[0].id) else None
  }

  /** URL query parameters: `qs.get(name)` is `None` for an absent name. */
  type Query = map<string, string>

  function Param(qs: Query, name: string): Option<string> {
    if name in qs then Some(qs[name]) else None
  }

  /** `qs.get(name) || fallback`. */
  function ParamOr(qs: Query, name: string, fallback: string): (r: string)
    ensures name in qs && qs[name] != "" ==> r == qs[name]
    ensures !(name in qs && qs[name] != "") ==> r == fallback
  {
    if name in qs && qs[name] != "" then qs[name] else fallback
  }

  /** The filters read from the URL. */
  datatype UrlFilters = UrlFilters(q: string, genres: seq<string>, contentRating: string, status: string,
                                   minChapter: string, ordering: string)

  /** The page's parameter defaults; `genre` is split on commas (percent-decoding is not modelled). */
  function ReadUrl(qs: Query): (f: UrlFilters)
    ensures f.q == ParamOr(qs, "q", "") && f.contentRating == ParamOr(qs, "contentRating", "any")
    ensures f.status == ParamOr(qs, "status", "any") && f.minChapter == ParamOr(qs, "minChapter", "")
    ensures f.ordering == ParamOr(qs, "ordering", "relevance")
    ensures (Param(qs, "genre").None? || qs["genre"] == "") ==> f.genres == []
    ensures Param(qs, "genre").Some? && qs["genre"] != "" ==> |f.genres| >= 1 && Text.Join(f.genres, ',') == qs["genre"]
    ensures forall k :: 0 <= k < |f.genres| ==> ',' !in f.genres[k]
  {
    var genres := if "genre" in qs && qs["genre"] != "" then Text.Split(qs["genre"], ',') else [];
    UrlFilters(ParamOr(qs, "q", ""), genres, ParamOr(qs, "contentRating", "any"),
               ParamOr(qs, "status", "any"), ParamOr(qs, "minChapter", ""), ParamOr(qs, "ordering", "relevance"))
  }

  /** A genre list written to the URL as `genres.join(',')` reads back as the same list. */
  lemma ReadUrlGenresRoundTrip(qs: Query, gs: seq<string>)
    requires |gs| >= 1 && (forall k :: 0 <= k < |gs| ==> ',' !in gs[k])
    requires "genre" in qs && qs["genre"] == Text.Join(gs, ',') && qs["genre"] != ""
    ensures ReadUrl(qs).genres == gs
  {
    Text.JoinInjective(ReadUrl(qs).genres, gs, ',');
  }

  /** The search runs on load iff some meaningful parameter is present. */
  function ShouldSearch(f: UrlFilters): (go: bool)
    ensures go <==> f.q != "" || |f.genres| > 0 || (f.contentRating != "" && f.contentRating != "any")
                    || (f.status != "" && f.status != "any") || f.minChapter != ""
  {
    f.q != "" || |f.genres| != 0 || (f.contentRating != "" && f.contentRating != "any")
    || (f.status != "" && f.status != "any") || f.minChapter != ""
  }

  /** A URL carrying only defaults triggers no search. */
  lemma DefaultsDoNotSearch(qs: Query)
    requires forall k :: k in qs ==> k in {"contentRating", "status", "ordering"}
    requires "contentRating" in qs ==> qs["contentRating"] in {"", "any"}
    requires "status" in qs ==> qs["status"] in {"", "any"}
    ensures !ShouldSearch(ReadUrl(qs))
  {
  }

  /** A URL parameter that is present and not empty. */
  predicate Given(qs: Query, name: string) {
    name in qs && qs[name] != ""
  }

  /** A URL parameter present with a value other than its 'any' default. */
  predicate Narrowing(qs: Query, name: string) {
    Given(qs, name) && qs[name] != "any"
  }

  /** The load-time search runs exactly when the URL carries a term, a genre, a minimum chapter, or a narrowing rating or status. */
  lemma SearchIffMeaningfulUrl(qs: Query)
    ensures ShouldSearch(ReadUrl(qs)) <==>
      Given(qs, "q") || Given(qs, "genre") || Given(qs, "minChapter")
      || Narrowing(qs, "contentRating") || Narrowing(qs, "status")
  {
    var f := ReadUrl(qs);
    if Given(qs, "genre") {
      assert |f.genres| >= 1;
    }
  }

  function NotGenre(g: string): string -> bool {
    (x: string) => x != g
  }

  /** The genre button: remove a selected genre, append an unselected one. */
  function ToggleGenre(genres: seq<string>, g: string): (r: seq<string>)
    ensures g in genres ==> g !in r
    ensures g !in genres ==> g in r && r == genres + [g]
    ensures forall x :: x != g ==> (x in r <==> x in genres)
    ensures g in genres ==> forall x :: multiset(r)[x] == if x == g then 0 else multiset(genres)[x]
    ensures g in genres ==> Seqs.IsSubsequence(r, genres)
  {
    if g in genres then
      Seqs.FilterCount(genres, NotGenre(g));
      Seqs.Filter(genres, NotGenre(g))
    else genres + [g]
  }

  /** Toggling keeps a duplicate-free selection duplicate-free, and toggling twice restores an absent genre's list. */
  lemma ToggleKeepsDistinct(genres: seq<string>, g: string)
    requires Seqs.Distinct(genres)
    ensures Seqs.Distinct(ToggleGenre(genres, g))
    ensures g !in genres ==> ToggleGenre(ToggleGenre(genres, g), g) == genres
  {
    if g in genres {
      Seqs.FilterDistinct(genres, NotGenre(g));
    } else {
      Seqs.FilterAllPass(genres, NotGenre(g));
      FilterSnocDrop(genres, g);
    }
  }

  lemma {:induction false} FilterSnocDrop(s: seq<string>, g: string)
    ensures Seqs.Filter(s + [g], NotGenre(g)) == Seqs.Filter(s, NotGenre(g))
    decreases |s|
  {
    if |s| == 0 {
      assert s + [g] == [g];
    } else {
      assert (s + [g])[1..] == s[1..] + [g];
      FilterSnocDrop(s[1..], g);
    }
  }
}
