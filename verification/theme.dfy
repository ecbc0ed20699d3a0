/**
 * The theme provider: the initial theme read from the stored display profile
 * (or the system preference), the normalisation shared by every source of a
 * theme name, the toggle, and persisting the theme back into the profile.
 */
module Theme {
  import Text
  import Js
  import BrowserStorage

  const ProfileKey := "profile_display"

  /** What `JSON.parse` of the stored profile gives: `null` or an object of fields. */
  datatype Doc = NullDoc | Obj(fields: map<string, Js.Value>)

  type Store = BrowserStorage.Store<Doc>

  function Field(m: map<string, Js.Value>, name: string): Js.Value {
    if name in m then m[name] else Js.Undefined
  }

  /** Lower-case, then map the retired 'slate' theme to 'dark'. */
  function Normalize(name: string): (t: string)
    ensures t != "slate"
    ensures Text.IsLowerCase(t)
    ensures Text.Lower(name) != "slate" ==> t == Text.Lower(name)
  {
    var low := Text.Lower(name);
    if low == "slate" then "dark" else low
  }

  /** Normalising twice is normalising once. */
  lemma NormalizeIdempotent(name: string)
    ensures Normalize(Normalize(name)) == Normalize(name)
  {
    LowerOfLower(Normalize(name));
  }

  lemma LowerOfLower(s: string)
    requires Text.IsLowerCase(s)
    ensures Text.Lower(s) == s
  {
  }

  /**
   * The initial theme: a stored object's `theme`, defaulting to 'Dark', normalised;
   * with nothing stored, garbage, or `null` (reading `.theme` of null throws and is
   * caught), 'dark' when the system prefers dark and 'light' otherwise.
   */
  function Initial(store: Store, prefersDark: bool): (t: string)
    ensures BrowserStorage.Read(store, ProfileKey).Json? && BrowserStorage.Read(store, ProfileKey).value.Obj? ==>
      t == Normalize(Js.ToString(Js.Or(Field(BrowserStorage.Read(store, ProfileKey).value.fields, "theme"), Js.Str("Dark"))))
    ensures !(BrowserStorage.Read(store, ProfileKey).Json? && BrowserStorage.Read(store, ProfileKey).value.Obj?) ==>
      t == (if prefersDark then "dark" else "light")
    ensures t != "slate" && t != ""
  {
    var slot := BrowserStorage.Read(store, ProfileKey);
    if slot.Json? && slot.value.Obj? then
      var v := Js.Or(Field(slot.value.fields, "theme"), Js.Str("Dark"));
      Js.ToStringEmpty(v);
      Normalize(Js.ToString(v))
    else if prefersDark then "dark" else "light"
  }

  /** `toggle`: 'dark' becomes 'light' and every other theme becomes 'dark'. */
  function Toggle(t: string): (r: string)
    ensures r == "dark" || r == "light"
    ensures r == "light" <==> t == "dark"
  {
    if t == "dark" then "light" else "dark"
  }

  /** Toggling twice restores the two named themes. */
  lemma ToggleTwice(t: string)
    requires t == "dark" || t == "light"
    ensures Toggle(Toggle(t)) == t
  {
  }

  /** `theme.charAt(0).toUpperCase() + theme.slice(1)`. */
  function Capitalize(t: string): (r: string)
    ensures |r| == |t|
    ensures |t| > 0 ==> r[0] == Text.UpperChar(t[0]) && r[1..] == t[1..]
  {
    if |t| == 0 then "" else [Text.UpperChar(t[0])] + t[1..]
  }

  /**
   * The persisting effect: the stored object (or `{}` when nothing is stored) with
   * `theme` set to the capitalised theme, every other field kept. Garbage and `null`
   * make the effect throw before writing, which is swallowed.
   */
  function Persist(store: Store, theme: string, quotaOk: bool): (r: Store)
    ensures forall k :: k != ProfileKey ==> BrowserStorage.Read(r, k) == BrowserStorage.Read(store, k)
    ensures (BrowserStorage.Read(store, ProfileKey).Unparsable? || BrowserStorage.Read(store, ProfileKey) == BrowserStorage.Json(NullDoc)
             || !quotaOk) ==> r == store
    ensures quotaOk && BrowserStorage.Read(store, ProfileKey).Missing? ==>
      BrowserStorage.Read(r, ProfileKey) == BrowserStorage.Json(Obj(map["theme" := Js.Str(Capitalize(theme))]))
    ensures quotaOk && BrowserStorage.Read(store, ProfileKey).Json? && BrowserStorage.Read(store, ProfileKey).value.Obj? ==>
      var before := BrowserStorage.Read(store, ProfileKey).value.fields;
      BrowserStorage.Read(r, ProfileKey).Json? && BrowserStorage.Read(r, ProfileKey).value.Obj?
      && BrowserStorage.Read(r, ProfileKey).value.fields.Keys == before.Keys + {"theme"}
      && Field(BrowserStorage.Read(r, ProfileKey).value.fields, "theme") == Js.Str(Capitalize(theme))
      && forall f :: f in before && f != "theme" ==> BrowserStorage.Read(r, ProfileKey).value.fields[f] == before[f]
  {
    var slot := BrowserStorage.Read(store, ProfileKey);
    if slot.Missing? then
      BrowserStorage.Write(store, ProfileKey, Obj(map["theme" := Js.Str(Capitalize(theme))]), quotaOk)
    else if slot.Json? && slot.value.Obj? then
      BrowserStorage.Write(store, ProfileKey, Obj(slot.value.fields["theme" := Js.Str(Capitalize(theme))]), quotaOk)
    else store
  }

  /**
   * Persisting a non-empty lower-case theme other than 'slate' and reading it back
   * gives the same theme, whatever the system preference.
   */
  lemma PersistThenInitial(store: Store, theme: string, prefersDark: bool)
    requires theme != "" && theme != "slate" && Text.IsLowerCase(theme)
    requires BrowserStorage.Read(store, ProfileKey).Missing?
      || (BrowserStorage.Read(store, ProfileKey).Json? && BrowserStorage.Read(store, ProfileKey).value.Obj?)
    ensures Initial(Persist(store, theme, true), prefersDark) == theme
  {
    var c := Capitalize(theme);
    assert Js.Or(Js.Str(c), Js.Str("Dark")) == Js.Str(c);
    assert Text.Lower(c) == theme by {
      forall i | 0 <= i < |c| ensures Text.Lower(c)[i] == theme[i] {
        if i > 0 { assert c[i] == c[1..][i - 1] == theme[1..][i - 1]; }
      }
    }
  }

  /**
   * The external `digiman:themeChanged` listener: a truthy `detail.theme` replaces
   * the theme after the same normalisation; anything else leaves it.
   */
  function OnExternalTheme(current: string, detailTheme: Js.Value): (t: string)
    ensures Js.Truthy(detailTheme) ==> t == Normalize(Js.ToString(detailTheme))
    ensures !Js.Truthy(detailTheme) ==> t == current
  {
    if Js.Truthy(detailTheme) then Normalize(Js.ToString(detailTheme)) else current
  }

  /** The provider's own broadcast, heard back by its listener, does not change a normalised theme. */
  lemma OwnEventIsStable(theme: string)
    requires theme != "" && theme != "slate" && Text.IsLowerCase(theme)
    ensures OnExternalTheme(theme, Js.Str(theme)) == theme
  {
    LowerOfLower(theme);
  }

  /**
   * The `storage` listener: another tab's write of the profile key with a truthy
   * `theme` field replaces the theme; other keys, removals, garbage, `null` and a
   * falsy `theme` leave it.
   */
  function OnStorage(current: string, key: string, newValue: BrowserStorage.Slot<Doc>): (t: string)
    ensures key == ProfileKey && newValue.Json? && newValue.value.Obj? && Js.Truthy(Field(newValue.value.fields, "theme")) ==>
      t == Normalize(Js.ToString(Field(newValue.value.fields, "theme")))
    ensures !(key == ProfileKey && newValue.Json? && newValue.value.Obj? && Js.Truthy(Field(newValue.value.fields, "theme"))) ==>
      t == current
  {
    if key == ProfileKey && newValue.Json? && newValue.value.Obj? then
      OnExternalTheme(current, Field(newValue.value.fields, "theme"))
    else current
  }
}
