/**
 * The manga content models: a chapter's pages with their contiguous page
 * numbers, a title's genres and visibility, and the three `update_metadata`
 * variants built on `update_instance`.
 */
module MangaModels {
  import opened Base
  import Seqs
  import Dict
  import Records

  datatype Page = Page(id: string, number: int, imageUrl: string)

  /** The largest page number of the chapter (`Max("page_number")`), `None` for no pages. */
  function MaxNumber(pages: seq<Page>): (r: Option<int>)
    ensures r.None? <==> |pages| == 0
    ensures r.Some? ==> forall i :: 0 <= i < |pages| ==> pages[i].number <= r.value
    ensures r.Some? ==> exists i :: 0 <= i < |pages| && pages[i].number == r.value
    decreases |pages|
  {
    if |pages| == 0 then None
    else
      match MaxNumber(pages[1..])
      case None => Some(pages[0].number)
      case Some(m) => if pages[0].number >= m then Some(pages[0].number) else Some(m)
  }

  /** `(aggregate max or 0) + 1`: `None` and a maximum of 0 both read as 0. */
  function NextNumber(pages: seq<Page>): (n: int)
    ensures forall i :: 0 <= i < |pages| ==> pages[i].number < n
    ensures |pages| == 0 ==> n == 1
  {
    match MaxNumber(pages)
    case None => 1
    case Some(m) => (if m == 0 then 0 else m) + 1
  }

  /** `add_page`: the new page is numbered after every existing one; the others are untouched. */
  function AddPage(pages: seq<Page>, newId: string, imageUrl: string): (r: seq<Page>)
    ensures |r| == |pages| + 1 && r[..|pages|] == pages
    ensures r[|pages|].id == newId && r[|pages|].imageUrl == imageUrl
    ensures forall i :: 0 <= i < |pages| ==> pages[i].number < r[|pages|].number
    ensures |pages| == 0 ==> r[0].number == 1
  {
    pages + [Page(newId, NextNumber(pages), imageUrl)]
  }

  /** Page numbers are unique within the chapter (`unique_page_per_chapter`). */
  predicate UniqueNumbers(pages: seq<Page>) {
    forall i, j :: 0 <= i < j < |pages| ==> pages[i].number != pages[j].number
  }

  predicate UniqueIds(pages: seq<Page>) {
    forall i, j :: 0 <= i < j < |pages| ==> pages[i].id != pages[j].id
  }

  /** The pages of a chapter are numbered 1..n without gaps or repeats. */
  predicate Contiguous(pages: seq<Page>) {
    UniqueNumbers(pages) && forall i :: 0 <= i < |pages| ==> 1 <= pages[i].number <= |pages|
  }

  /** Adding a page keeps the numbering unique, and keeps 1..n numbering contiguous (1..n+1). */
  lemma AddPageKeepsNumbering(pages: seq<Page>, newId: string, imageUrl: string)
    ensures UniqueNumbers(pages) ==> UniqueNumbers(AddPage(pages, newId, imageUrl))
    ensures Contiguous(pages) ==> Contiguous(AddPage(pages, newId, imageUrl))
  {
    var r := AddPage(pages, newId, imageUrl);
    if Contiguous(pages) && |pages| > 0 {
      var m := MaxNumber(pages).value;
      var i :| 0 <= i < |pages| && pages[i].number == m;
      assert 1 <= m <= |pages|;
      assert r[|pages|].number == m + 1;
    }
  }

  function Other(id: string): Page -> bool {
    (p: Page) => p.id != id
  }

  /** One page after `page_number = F("page_number") - 1` applied to numbers above `removed`. */
  function Shift(p: Page, removed: int): (q: Page)
    ensures q.id == p.id && q.imageUrl == p.imageUrl
    ensures p.number > removed ==> q.number == p.number - 1
    ensures p.number <= removed ==> q.number == p.number
  {
    if p.number > removed then p.(number := p.number - 1) else p
  }

  /** The page table after `remove_page`: this chapter's pages, every other chapter's pages, and the result. */
  datatype Removal = Removal(pages: seq<Page>, others: seq<Page>, deleted: bool)

  /** Some page of `pages` has the id. */
  predicate HasPage(pages: seq<Page>, id: string) {
    exists i :: 0 <= i < |pages| && pages[i].id == id
  }

  /**
   * `remove_page`: `page.delete()` deletes the row with the page's id wherever it is,
   * in this chapter (`pages`) or in another one (`others`); then every page of this
   * chapter numbered above the page's (in-memory) number moves down by one. The result
   * is whether a row was deleted. Nothing checks that the page belongs to the chapter.
   */
  function RemovePage(pages: seq<Page>, others: seq<Page>, page: Page): (r: Removal)
    ensures r.deleted <==> HasPage(pages, page.id) || HasPage(others, page.id)
    ensures !HasPage(r.pages, page.id) && !HasPage(r.others, page.id)
    ensures r.others == Seqs.Filter(others, Other(page.id))
    ensures |r.pages| == |Seqs.Filter(pages, Other(page.id))|
    ensures forall i :: 0 <= i < |r.pages| ==> r.pages[i] == Shift(Seqs.Filter(pages, Other(page.id))[i], page.number)
  {
    var kept := Seqs.Filter(pages, Other(page.id));
    var deleted := HasPage(pages, page.id) || HasPage(others, page.id);
    Removal(seq(|kept|, i requires 0 <= i < |kept| => Shift(kept[i], page.number)), Seqs.Filter(others, Other(page.id)), deleted)
  }

  /**
   * Removing a page of a chapter numbered 1..n leaves it numbered 1..n-1, leaves the
   * other chapters' pages alone, and reports the deletion.
   */
  lemma RemovePageKeepsNumbering(pages: seq<Page>, others: seq<Page>, page: Page)
    requires Contiguous(pages) && UniqueIds(pages) && page in pages
    requires !HasPage(others, page.id)
    ensures Contiguous(RemovePage(pages, others, page).pages)
    ensures |RemovePage(pages, others, page).pages| == |pages| - 1
    ensures RemovePage(pages, others, page).others == others
    ensures RemovePage(pages, others, page).deleted
  {
    var k := page.number;
    var idx :| 0 <= idx < |pages| && pages[idx] == page;
    var kept := Seqs.Filter(pages, Other(page.id));
    Seqs.FilterDropsOne(pages, Other(page.id), idx);
    KeptNumbers(pages, idx);
    var r := RemovePage(pages, others, page).pages;
    ShiftCloses(kept, k, r);
    Seqs.FilterAllPass(others, Other(page.id));
    assert pages[idx].id == page.id;
  }

  /**
   * A page of another chapter is deleted and reported as removed, and this chapter's
   * pages numbered above it still move down: here every page numbered above `page`
   * loses one although none of its pages was removed.
   */
  lemma ForeignPageRemoval(pages: seq<Page>, others: seq<Page>, page: Page)
    requires !HasPage(pages, page.id) && HasPage(others, page.id)
    ensures RemovePage(pages, others, page).deleted
    ensures |RemovePage(pages, others, page).pages| == |pages|
    ensures forall i :: 0 <= i < |pages| ==> RemovePage(pages, others, page).pages[i] == Shift(pages[i], page.number)
  {
    Seqs.FilterAllPass(pages, Other(page.id));
  }

  /** Shifting down the numbers above a missing number `k` closes the gap it leaves in 1..n+1. */
  lemma ShiftCloses(kept: seq<Page>, k: int, r: seq<Page>)
    requires 1 <= k <= |kept| + 1
    requires |r| == |kept| && forall i :: 0 <= i < |r| ==> r[i] == Shift(kept[i], k)
    requires forall i :: 0 <= i < |kept| ==> kept[i].number != k && 1 <= kept[i].number <= |kept| + 1
    requires forall i, j :: 0 <= i < j < |kept| ==> kept[i].number != kept[j].number
    ensures Contiguous(r)
  {
    forall i, j | 0 <= i < j < |r| ensures r[i].number != r[j].number {
      assert r[i] == Shift(kept[i], k) && r[j] == Shift(kept[j], k);
    }
    forall i | 0 <= i < |r| ensures 1 <= r[i].number <= |r| {
      assert r[i] == Shift(kept[i], k);
    }
  }

  /** The pages kept by a removal avoid the removed number and keep distinct numbers in 1..n. */
  lemma KeptNumbers(pages: seq<Page>, idx: nat)
    requires Contiguous(pages) && UniqueIds(pages) && idx < |pages|
    ensures var kept := Seqs.Filter(pages, Other(pages[idx].id));
      (forall i :: 0 <= i < |kept| ==> kept[i].number != pages[idx].number && 1 <= kept[i].number <= |pages|)
      && (forall i, j :: 0 <= i < j < |kept| ==> kept[i].number != kept[j].number)
  {
    var kept := Seqs.Filter(pages, Other(pages[idx].id));
    DistinctPages(pages);
    Seqs.FilterDistinct(pages, Other(pages[idx].id));
    forall i | 0 <= i < |kept| ensures kept[i].number != pages[idx].number && 1 <= kept[i].number <= |pages| {
      var a :| 0 <= a < |pages| && pages[a] == kept[i];
      if a < idx { assert pages[a].number != pages[idx].number; }
      else if a > idx { assert pages[idx].number != pages[a].number; }
    }
    forall i, j | 0 <= i < j < |kept| ensures kept[i].number != kept[j].number {
      var a :| 0 <= a < |pages| && pages[a] == kept[i];
      var b :| 0 <= b < |pages| && pages[b] == kept[j];
      assert kept[i] != kept[j];
      if a < b { assert pages[a].number != pages[b].number; }
      else if b < a { assert pages[b].number != pages[a].number; }
    }
  }

  lemma DistinctPages(pages: seq<Page>)
    requires UniqueIds(pages)
    ensures Seqs.Distinct(pages)
  {
    forall i, j | 0 <= i < j < |pages| ensures pages[i] != pages[j] {
      assert pages[i].id != pages[j].id;
    }
  }

  /** A title's many-to-many and flag fields, next to its plain columns. */
  datatype MangaTitle = MangaTitle(fields: Records.Row, author: Option<Records.PyValue>, isVisible: bool, genres: set<string>)

  /** `remove_genre`: detach an attached genre and report it; an unattached one changes nothing. */
  function RemoveGenre(m: MangaTitle, genre: string): (r: (MangaTitle, bool))
    ensures r.1 <==> genre in m.genres
    ensures r.0.genres == m.genres - {genre}
    ensures !r.1 ==> r.0 == m
    ensures r.0.fields == m.fields && r.0.author == m.author && r.0.isVisible == m.isVisible
  {
    if genre in m.genres then (m.(genres := m.genres - {genre}), true) else (m, false)
  }

  /** `add_genre`, the partner of `remove_genre`: the genre is attached afterwards. */
  function AddGenre(m: MangaTitle, genre: string): (r: MangaTitle)
    ensures r.genres == m.genres + {genre}
    ensures r.fields == m.fields && r.author == m.author && r.isVisible == m.isVisible
  {
    m.(genres := m.genres + {genre})
  }

  /** Removing a genre just added restores the genres it had when that genre was absent. */
  lemma RemoveUndoesAdd(m: MangaTitle, genre: string)
    requires genre !in m.genres
    ensures RemoveGenre(AddGenre(m, genre), genre) == (m, true)
  {
    assert m.genres + {genre} - {genre} == m.genres;
  }

  /** `toggle_visibility`. */
  function ToggleVisibility(m: MangaTitle): (r: MangaTitle)
    ensures r.isVisible != m.isVisible
    ensures r.fields == m.fields && r.author == m.author && r.genres == m.genres
  {
    m.(isVisible := !m.isVisible)
  }

  lemma ToggleVisibilityTwice(m: MangaTitle)
    ensures ToggleVisibility(ToggleVisibility(m)) == m
  {
  }

  const MangaAllowed: set<string> := {"title", "description", "cover_image", "preview_chapter", "publication_status"}
  const ChapterAllowed: set<string> := {"title", "chapter_number"}
  const PageAllowed: set<string> := {"page_number", "image_url"}

  /** After `MangaTitle.update_metadata`: the author (saved at once) and the authors table, and the patch result. */
  datatype MetaOutcome = MetaOutcome(manga: MangaTitle, authors: set<Records.PyValue>, update: Result<Records.Update, PyError>)

  /**
   * `MangaTitle.update_metadata`: an `author_name` keyword goes to `add_author`
   * (get-or-create the author, set it, save) and is dropped; the remaining keywords
   * patch only the five allowed columns.
   */
  function MangaUpdateMetadata(m: MangaTitle, authors: set<Records.PyValue>, data: Records.Kwargs,
                               valid: Records.Row -> bool): (r: MetaOutcome)
    requires Dict.UniqueKeys(data)
    ensures Dict.HasKey(data, "author_name") ==>
      r.manga.author == Dict.Get(data, "author_name") && r.authors == authors + {Dict.Get(data, "author_name").value}
    ensures !Dict.HasKey(data, "author_name") ==> r.manga.author == m.author && r.authors == authors
    ensures r.update.Ok? ==> forall f :: f in r.update.value.updatedFields ==> f in MangaAllowed
    ensures r.update.Ok? ==> forall k :: k !in MangaAllowed ==>
      (k in r.update.value.row <==> k in m.fields) && (k in m.fields ==> r.update.value.row[k] == m.fields[k])
    ensures r.update.Ok? ==> r.manga.fields == r.update.value.row
    ensures r.update.Err? ==> r.manga.fields == m.fields
    ensures r.manga.isVisible == m.isVisible && r.manga.genres == m.genres
  {
    var (withAuthor, authors', rest) :=
      if Dict.HasKey(data, "author_name") then
        var name := Dict.Get(data, "author_name").value;
        (m.(author := Some(name)), authors + {name}, Dict.Remove(data, "author_name"))
      else (m, authors, data);
    var update := Records.UpdateInstance(withAuthor.fields, MangaAllowed, rest, valid);
    var manga := if update.Ok? then withAuthor.(fields := update.value.row) else withAuthor;
    MetaOutcome(manga, authors', update)
  }

  /** `Chapter.update_metadata`: only `title` and `chapter_number` can change. */
  function ChapterUpdateMetadata(row: Records.Row, data: Records.Kwargs, valid: Records.Row -> bool): (r: Result<Records.Update, PyError>)
    requires Dict.UniqueKeys(data)
    ensures r.Ok? ==> forall k :: k !in ChapterAllowed ==>
      (k in r.value.row <==> k in row) && (k in row ==> r.value.row[k] == row[k])
    ensures r.Ok? ==> forall k :: k in ChapterAllowed && Dict.HasKey(data, k) ==> k in r.value.row && Some(r.value.row[k]) == Dict.Get(data, k)
  {
    Records.UpdateInstance(row, ChapterAllowed, data, valid)
  }

  /** `Page.update_metadata`: only `page_number` and `image_url` can change. */
  function PageUpdateMetadata(row: Records.Row, data: Records.Kwargs, valid: Records.Row -> bool): (r: Result<Records.Update, PyError>)
    requires Dict.UniqueKeys(data)
    ensures r.Ok? ==> forall k :: k !in PageAllowed ==>
      (k in r.value.row <==> k in row) && (k in row ==> r.value.row[k] == row[k])
    ensures r.Ok? ==> forall k :: k in PageAllowed && Dict.HasKey(data, k) ==> k in r.value.row && Some(r.value.row[k]) == Dict.Get(data, k)
  {
    Records.UpdateInstance(row, PageAllowed, data, valid)
  }
}
