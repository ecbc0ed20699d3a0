/**
 * The reader-side models: reading preferences with their defaults, and
 * library lists (the six built-in names, metadata patching, membership).
 */
module ReaderModels {
  import opened Base
  import Seqs
  import Dict
  import Records

  const PreferenceFields: set<string> :=
    {"theme_mode", "page_display_style", "reading_direction", "image_size_mode", "is_progress_bar_visible"}

  /** A new preferences row: the field defaults. */
  const DefaultPreferences: Records.Row := map[
    "theme_mode" := Records.PStr("light"),
    "page_display_style" := Records.PStr("single-page"),
    "reading_direction" := Records.PStr("left_to_right"),
    "image_size_mode" := Records.PStr("fit_both"),
    "is_progress_bar_visible" := Records.PBool(true)]

  /** `update_preferences`: only the five preference fields can change. */
  function UpdatePreferences(prefs: Records.Row, data: Records.Kwargs, valid: Records.Row -> bool): (r: Result<Records.Update, PyError>)
    requires Dict.UniqueKeys(data)
    ensures r.Ok? ==> forall k :: k !in PreferenceFields ==>
      (k in r.value.row <==> k in prefs) && (k in prefs ==> r.value.row[k] == prefs[k])
    ensures r.Ok? ==> forall k :: k in PreferenceFields && Dict.HasKey(data, k) ==> k in r.value.row && Some(r.value.row[k]) == Dict.Get(data, k)
    ensures r.Ok? ==> forall f :: f in r.value.updatedFields ==> f in PreferenceFields
  {
    Records.UpdateInstance(prefs, PreferenceFields, data, valid)
  }

  /** The defaults cover exactly the updatable preference fields, so an update of defaults keeps every field set. */
  lemma DefaultsCoverPreferenceFields()
    ensures DefaultPreferences.Keys == PreferenceFields
  {
  }

  /** `BuiltInListNames`, in declaration order. */
  const BuiltInNames: seq<string> := ["Reading", "Plan to Read", "Completed", "On Hold", "Re-reading", "Dropped"]

  lemma SixDistinctBuiltInNames()
    ensures |BuiltInNames| == 6 && Seqs.Distinct(BuiltInNames)
  {
  }

  const ListFields: set<string> := {"name", "visibility"}

  /** `LibraryList.update_metadata`: only `name` and `visibility` can change. */
  function ListUpdateMetadata(row: Records.Row, data: Records.Kwargs, valid: Records.Row -> bool): (r: Result<Records.Update, PyError>)
    requires Dict.UniqueKeys(data)
    ensures r.Ok? ==> forall k :: k !in ListFields ==>
      (k in r.value.row <==> k in row) && (k in row ==> r.value.row[k] == row[k])
    ensures r.Ok? ==> forall k :: k in ListFields && Dict.HasKey(data, k) ==> k in r.value.row && Some(r.value.row[k]) == Dict.Get(data, k)
  {
    Records.UpdateInstance(row, ListFields, data, valid)
  }

  /** A library list's many-to-many manga titles, by id. */
  datatype LibraryList = LibraryList(reader: string, name: string, visibility: string, titles: set<string>)

  function AddMangaTitle(l: LibraryList, title: string): (r: LibraryList)
    ensures r.titles == l.titles + {title}
    ensures r == l.(titles := r.titles)
  {
    l.(titles := l.titles + {title})
  }

  /** `remove_manga_title`: detach a present title and report it; an absent one changes nothing. */
  function RemoveMangaTitle(l: LibraryList, title: string): (r: (LibraryList, bool))
    ensures r.1 <==> title in l.titles
    ensures r.0.titles == l.titles - {title}
    ensures !r.1 ==> r.0 == l
    ensures r.0 == l.(titles := r.0.titles)
  {
    if title in l.titles then (l.(titles := l.titles - {title}), true) else (l, false)
  }

  /** Removing a title just added to a list that lacked it gives the list back. */
  lemma RemoveUndoesAdd(l: LibraryList, title: string)
    requires title !in l.titles
    ensures RemoveMangaTitle(AddMangaTitle(l, title), title) == (l, true)
  {
    assert l.titles + {title} - {title} == l.titles;
  }
}
