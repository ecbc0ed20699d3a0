/**
 * The user models: role and status validation, display names, profile
 * patching, and the reader's comment, report and built-in library-list
 * operations.
 */
module UserModels {
  import opened Base
  import Seqs
  import Text
  import Dict
  import Records
  import CommunityModels
  import ReaderModels

  datatype ReaderProfile = ReaderProfile(displayName: string, avatar: string, age: Option<nat>)

  /** A user; `reader` is present for the `Reader` subclass (and so for administrators). */
  datatype User = User(id: string, username: string, role: string, status: string, reader: Option<ReaderProfile>)

  const Roles: set<string> := {"admin", "reader"}
  const Statuses: set<string> := {"active", "suspended", "deactivated"}

  /** `update_role`: a role outside the choices raises `ValueError` and changes nothing. */
  function UpdateRole(u: User, role: string): (r: Result<User, PyError>)
    ensures r.Err? <==> role !in Roles
    ensures r.Err? ==> r.error == ValueError("Invalid role: " + role)
    ensures r.Ok? ==> r.value.role == role && r.value == u.(role := role)
  {
    if role !in Roles then Err(ValueError("Invalid role: " + role)) else Ok(u.(role := role))
  }

  /** `update_status`: a status outside the choices raises `ValueError` and changes nothing. */
  function UpdateStatus(u: User, status: string): (r: Result<User, PyError>)
    ensures r.Err? <==> status !in Statuses
    ensures r.Err? ==> r.error == ValueError("Invalid status: " + status)
    ensures r.Ok? ==> r.value.status == status && r.value == u.(status := status)
  {
    if status !in Statuses then Err(ValueError("Invalid status: " + status)) else Ok(u.(status := status))
  }

  /** A successful role update is undone by updating back to the old (valid) role. */
  lemma UpdateRoleReversible(u: User, role: string)
    requires u.role in Roles && role in Roles
    ensures UpdateRole(UpdateRole(u, role).value, u.role) == Ok(u)
  {
  }

  /** `get_display_name`: a reader's non-empty display name, otherwise the username. */
  function DisplayName(u: User): (name: string)
    ensures name == u.username || (u.reader.Some? && name == u.reader.value.displayName)
    ensures u.reader.None? ==> name == u.username
    ensures u.reader.Some? && u.reader.value.displayName != "" ==> name == u.reader.value.displayName
    ensures u.username != "" ==> name != ""
  {
    if u.reader.Some? && u.reader.value.displayName != "" then u.reader.value.displayName else u.username
  }

  const UserProfileFields: set<string> := {"username", "email"}
  const ReaderProfileFields: set<string> := {"display_name", "avatar", "age"}

  /** The allowed set of `User.update_profile` or, for a reader, of `Reader.update_profile`. */
  function ProfileFields(isReader: bool): set<string> {
    if isReader then ReaderProfileFields else UserProfileFields
  }

  /**
   * `update_profile` as written: the keyword dict is passed to `update_instance`
   * as a third positional argument, which it does not accept, so every call raises
   * `TypeError` before anything is assigned.
   */
  function UpdateProfileAsWritten(row: Records.Row, isReader: bool, data: Records.Kwargs): (r: Result<Records.Update, PyError>)
    ensures r.Err? && r.error.TypeError?
  {
    Err(TypeError("update_instance() takes 2 positional arguments but 3 were given"))
  }

  /** `update_profile` as evidently intended: the keywords forwarded with `**`. */
  function UpdateProfile(row: Records.Row, isReader: bool, data: Records.Kwargs, valid: Records.Row -> bool): (r: Result<Records.Update, PyError>)
    requires Dict.UniqueKeys(data)
    ensures r.Ok? ==> forall k :: k !in ProfileFields(isReader) ==>
      (k in r.value.row <==> k in row) && (k in row ==> r.value.row[k] == row[k])
    ensures r.Ok? ==> forall k :: k in ProfileFields(isReader) && Dict.HasKey(data, k) ==>
      k in r.value.row && Some(r.value.row[k]) == Dict.Get(data, k)
  {
    Records.UpdateInstance(row, ProfileFields(isReader), data, valid)
  }

  /** A reader's profile update never changes the username or e-mail, whatever its docstring lists. */
  lemma ReaderProfileKeepsCredentials(row: Records.Row, data: Records.Kwargs, valid: Records.Row -> bool, k: string)
    requires Dict.UniqueKeys(data)
    requires k == "username" || k == "email"
    ensures var r := UpdateProfile(row, true, data, valid);
      r.Ok? ==> (k in r.value.row <==> k in row) && (k in row ==> r.value.row[k] == row[k])
  {
    assert k !in ProfileFields(true);
  }

  function AcceptAll(): Records.Row -> bool {
    (row: Records.Row) => true
  }

  /** A display-name change that the intended update applies is refused with `TypeError` as written. */
  lemma UpdateProfileDiscrepancy(row: Records.Row)
    ensures UpdateProfileAsWritten(row, true, [("display_name", Records.PStr("Kai"))]).Err?
    ensures var r := UpdateProfile(row, true, [("display_name", Records.PStr("Kai"))], AcceptAll());
      r.Ok? && r.value.row["display_name"] == Records.PStr("Kai") && r.value.saved
  {
    var data: Records.Kwargs := [("display_name", Records.PStr("Kai"))];
    assert data[0].0 == "display_name";
    assert Dict.HasKey(data, "display_name");
    assert data[0].0 in ReaderProfileFields;
  }

  /** Exactly one of the two comment targets is given. */
  predicate OneTarget(mangaTitle: Option<string>, chapter: Option<string>) {
    mangaTitle.Some? != chapter.Some?
  }

  function NewComment(owner: User, content: string, isImage: bool, parent: Option<string>,
                      mangaTitle: Option<string>, chapter: Option<string>): CommunityModels.Comment {
    CommunityModels.Comment(Some(owner.id), mangaTitle, chapter, parent, isImage, content, "active", "")
  }

  /**
   * `post_comment` as written: the target guard and `clean` run, then
   * `Comment.objects.create(new_comment)` passes the instance positionally, which
   * `create` does not accept, so no comment is ever stored.
   */
  function PostCommentAsWritten(owner: User, content: string, isImage: bool, parent: Option<string>,
                                mangaTitle: Option<string>, chapter: Option<string>, isUrl: string -> bool)
    : (r: Result<CommunityModels.Comment, PyError>)
    ensures r.Err?
    ensures !OneTarget(mangaTitle, chapter) ==> r.error == ValueError("Either manga_title or chapter must be provided")
  {
    if !OneTarget(mangaTitle, chapter) then Err(ValueError("Either manga_title or chapter must be provided"))
    else
      var c := NewComment(owner, content, isImage, parent, mangaTitle, chapter);
      match CommunityModels.CleanError(c, isUrl)
      case Some(e) => Err(e)
      case None => Err(TypeError("create() takes 1 positional argument but 2 were given"))
  }

  /** `post_comment` as evidently intended: the validated comment is created, active. */
  function PostComment(owner: User, content: string, isImage: bool, parent: Option<string>,
                       mangaTitle: Option<string>, chapter: Option<string>, isUrl: string -> bool)
    : (r: Result<CommunityModels.Comment, PyError>)
    ensures r.Ok? <==> (OneTarget(mangaTitle, chapter)
      && CommunityModels.CleanError(NewComment(owner, content, isImage, parent, mangaTitle, chapter), isUrl).None?)
    ensures !OneTarget(mangaTitle, chapter) ==> r == Err(ValueError("Either manga_title or chapter must be provided"))
    ensures r.Ok? ==> (r.value.status == "active" && r.value.content == content && r.value.owner == Some(owner.id)
      && r.value.mangaTitle == mangaTitle && r.value.chapter == chapter)
  {
    if !OneTarget(mangaTitle, chapter) then Err(ValueError("Either manga_title or chapter must be provided"))
    else
      var c := NewComment(owner, content, isImage, parent, mangaTitle, chapter);
      match CommunityModels.CleanError(c, isUrl)
      case Some(e) => Err(e)
      case None => Ok(c)
  }

  /** A non-blank text comment on a chapter is stored by the intended code but refused as written. */
  lemma PostCommentDiscrepancy(owner: User, isUrl: string -> bool)
    ensures PostCommentAsWritten(owner, "hi", false, None, None, Some("c1"), isUrl).Err?
    ensures PostComment(owner, "hi", false, None, None, Some("c1"), isUrl).Ok?
  {
    var c := NewComment(owner, "hi", false, None, None, Some("c1"));
    assert !Text.IsPySpace(c.content[0]);
  }

  /** `delete_comment`: the soft delete. */
  function DeleteComment(c: CommunityModels.Comment): (r: CommunityModels.Comment)
    ensures r.status == "deleted"
    ensures r.content == c.content && r.owner == c.owner
  {
    CommunityModels.SetDeleted(c)
  }

  /** The keyword arguments `post_report` hands to `Report.objects.create`. */
  datatype ReportRequest = ReportRequest(owner: string, content: string, targetType: string, targetId: string)

  /**
   * `post_report` as written: `TargetContentTypeChoices.values` is a list, and
   * calling it raises `TypeError` before the membership test runs.
   */
  function PostReportAsWritten(owner: User, content: string, targetType: string, targetId: string): (r: Result<ReportRequest, PyError>)
    ensures r.Err? && r.error.TypeError?
  {
    Err(TypeError("'list' object is not callable"))
  }

  /** `post_report` as evidently intended: a target type outside the choices raises `ValueError`. */
  function PostReport(owner: User, content: string, targetType: string, targetId: string): (r: Result<ReportRequest, PyError>)
    ensures r.Err? <==> targetType !in CommunityModels.ReportTargetTypes
    ensures r.Err? ==> r.error == ValueError("Invalid target content type: " + targetType)
    ensures r.Ok? ==> r.value == ReportRequest(owner.id, content, targetType, targetId)
  {
    if targetType !in CommunityModels.ReportTargetTypes then Err(ValueError("Invalid target content type: " + targetType))
    else Ok(ReportRequest(owner.id, content, targetType, targetId))
  }

  lemma PostReportDiscrepancy(owner: User)
    ensures PostReportAsWritten(owner, "spam", "comment", "c1").Err?
    ensures PostReport(owner, "spam", "comment", "c1").Ok?
  {
  }

  const BuiltIn := "built-in"

  /** The reader's built-in list with this name exists. */
  predicate HasBuiltIn(lists: seq<ReaderModels.LibraryList>, reader: string, name: string) {
    exists i :: 0 <= i < |lists| && lists[i].reader == reader && lists[i].visibility == BuiltIn && lists[i].name == name
  }

  function Missing(lists: seq<ReaderModels.LibraryList>, reader: string): string -> bool {
    (n: string) => !HasBuiltIn(lists, reader, n)
  }

  function OwnBuiltIn(reader: string): ReaderModels.LibraryList -> bool {
    (l: ReaderModels.LibraryList) => l.reader == reader && l.visibility == BuiltIn
  }

  /** `get_built_in_library_lists` as written: `BuiltInListNames.values()` calls a list and raises `TypeError`. */
  function BuiltInListsAsWritten(lists: seq<ReaderModels.LibraryList>, reader: string)
    : (r: Result<(seq<ReaderModels.LibraryList>, seq<ReaderModels.LibraryList>), PyError>)
    ensures r.Err? && r.error.TypeError?
  {
    Err(TypeError("'list' object is not callable"))
  }

  /**
   * `get_built_in_library_lists` as evidently intended: create the built-in lists
   * the reader lacks, in declaration order, then return the reader's built-in lists.
   * The result is the new table and the returned lists.
   */
  function BuiltInLists(lists: seq<ReaderModels.LibraryList>, reader: string)
    : (r: (seq<ReaderModels.LibraryList>, seq<ReaderModels.LibraryList>))
    ensures |r.0| >= |lists| && r.0[..|lists|] == lists
    ensures forall i :: 0 <= i < |ReaderModels.BuiltInNames| ==> HasBuiltIn(r.0, reader, ReaderModels.BuiltInNames[i])
    ensures forall i :: |lists| <= i < |r.0| ==>
      r.0[i].reader == reader && r.0[i].visibility == BuiltIn && !HasBuiltIn(lists, reader, r.0[i].name)
    ensures forall i, j :: |lists| <= i < j < |r.0| ==> r.0[i].name != r.0[j].name
    ensures r.1 == Seqs.Filter(r.0, OwnBuiltIn(reader))
  {
    var missing := Seqs.Filter(ReaderModels.BuiltInNames, Missing(lists, reader));
    var created := seq(|missing|, i requires 0 <= i < |missing| => ReaderModels.LibraryList(reader, missing[i], BuiltIn, {}));
    var all := lists + created;
    CreatedCoverMissing(lists, reader, missing, created);
    ReaderModels.SixDistinctBuiltInNames();
    Seqs.FilterDistinct(ReaderModels.BuiltInNames, Missing(lists, reader));
    (all, Seqs.Filter(all, OwnBuiltIn(reader)))
  }

  lemma CreatedCoverMissing(lists: seq<ReaderModels.LibraryList>, reader: string, missing: seq<string>,
                            created: seq<ReaderModels.LibraryList>)
    requires missing == Seqs.Filter(ReaderModels.BuiltInNames, Missing(lists, reader))
    requires |created| == |missing|
    requires forall i :: 0 <= i < |missing| ==> created[i] == ReaderModels.LibraryList(reader, missing[i], BuiltIn, {})
    ensures forall i :: 0 <= i < |ReaderModels.BuiltInNames| ==> HasBuiltIn(lists + created, reader, ReaderModels.BuiltInNames[i])
  {
    var all := lists + created;
    forall i | 0 <= i < |ReaderModels.BuiltInNames| ensures HasBuiltIn(all, reader, ReaderModels.BuiltInNames[i]) {
      var n := ReaderModels.BuiltInNames[i];
      if HasBuiltIn(lists, reader, n) {
        var j :| 0 <= j < |lists| && lists[j].reader == reader && lists[j].visibility == BuiltIn && lists[j].name == n;
        assert all[j] == lists[j];
      } else {
        assert Missing(lists, reader)(n);
        assert n in missing;
        var j :| 0 <= j < |missing| && missing[j] == n;
        assert all[|lists| + j] == created[j];
      }
    }
  }

  /** A second call creates nothing: every built-in list already exists. */
  lemma BuiltInListsIdempotent(lists: seq<ReaderModels.LibraryList>, reader: string)
    ensures var once := BuiltInLists(lists, reader).0; BuiltInLists(once, reader).0 == once
  {
    var once := BuiltInLists(lists, reader).0;
    var twice := BuiltInLists(once, reader).0;
    if |twice| > |once| {
      assert !HasBuiltIn(once, reader, twice[|once|].name);
      var n := twice[|once|].name;
      assert twice[|once|] in twice;
      Seqs.FilterNonePass(ReaderModels.BuiltInNames, Missing(once, reader));
      assert false;
    }
  }
}
