/**
 * The community models: comment validation and its status transitions,
 * reports, and notifications.
 */
module CommunityModels {
  import opened Base
  import Text
  import Records

  datatype Comment = Comment(
    owner: Option<string>, mangaTitle: Option<string>, chapter: Option<string>, parent: Option<string>,
    isImage: bool, content: string, status: string, hiddenReasons: string)

  const CommentStatuses: set<string> := {"active", "deleted", "hidden"}

  /**
   * `Comment.clean`: an image comment's content must be a URL (`isUrl` stands for
   * Django's `URLValidator`); a text comment's content must not be blank once
   * stripped. `None` means the comment is valid.
   */
  function CleanError(c: Comment, isUrl: string -> bool): (e: Option<PyError>)
    ensures c.isImage ==> (e.None? <==> isUrl(c.content))
    ensures !c.isImage ==> (e.None? <==> exists i :: 0 <= i < |c.content| && !Text.IsPySpace(c.content[i]))
    ensures e.Some? ==> e.value.ValidationError?
  {
    if c.isImage then
      if isUrl(c.content) then None else Some(ValidationError("Invalid image URL."))
    else if Text.PyStrip(c.content) == "" then Some(ValidationError("Text comment cannot be empty."))
    else None
  }

  /** `update_content`: only the content changes. */
  function UpdateContent(c: Comment, content: string): (r: Comment)
    ensures r.content == content && r == c.(content := r.content)
  {
    c.(content := content)
  }

  /** `toggle_hidden`: 'active' becomes 'hidden', every other status (even 'deleted') becomes 'active'; the reasons are overwritten. */
  function ToggleHidden(c: Comment, reasons: string): (r: Comment)
    ensures r.status == "hidden" <==> c.status == "active"
    ensures r.status != "hidden" ==> r.status == "active"
    ensures r.hiddenReasons == reasons
    ensures r == c.(status := r.status, hiddenReasons := reasons)
  {
    c.(status := if c.status == "active" then "hidden" else "active", hiddenReasons := reasons)
  }

  /** Hiding and unhiding restores an active or hidden comment's status. */
  lemma ToggleHiddenTwice(c: Comment, r1: string, r2: string)
    requires c.status == "active" || c.status == "hidden"
    ensures ToggleHidden(ToggleHidden(c, r1), r2).status == c.status
  {
  }

  /** Toggling a deleted comment brings it back as active. */
  lemma ToggleRevivesDeleted(c: Comment, reasons: string)
    requires c.status == "deleted"
    ensures ToggleHidden(c, reasons).status == "active"
  {
  }

  /** `set_deleted`: a soft delete from any status. */
  function SetDeleted(c: Comment): (r: Comment)
    ensures r.status == "deleted" && r == c.(status := "deleted")
  {
    c.(status := "deleted")
  }

  lemma SetDeletedIdempotent(c: Comment)
    ensures SetDeleted(SetDeleted(c)) == SetDeleted(c)
  {
  }

  datatype Report = Report(reporter: string, category: string, description: string, status: string,
                           adminMessage: string, targetType: string, targetId: string)

  const ReportStatuses: set<string> := {"pending", "resolved", "dismissed"}
  const ReportTargetTypes: seq<string> := ["manga_title", "chapter", "comment", "user"]

  /** `Report.update_status`: any string is stored; the declared choices are not consulted. */
  function ReportUpdateStatus(r: Report, status: string): (r': Report)
    ensures r'.status == status && r' == r.(status := status)
  {
    r.(status := status)
  }

  /** A status outside the declared choices is accepted as it is. */
  lemma ReportStatusUnchecked(r: Report)
    ensures ReportUpdateStatus(r, "bogus").status !in ReportStatuses
  {
  }

  /**
   * `Report.get_target_object`: the four target tables by type name; any other
   * stored type raises `ValueError`.
   */
  function ReportTarget(r: Report, mangaTitles: Records.Table, chapters: Records.Table, comments: Records.Table,
                        users: Records.Table): (o: Result<Option<Records.Row>, PyError>)
    ensures o.Err? <==> r.targetType !in ReportTargetTypes
    ensures r.targetType == "manga_title" ==> o == Ok(if r.targetId in mangaTitles then Some(mangaTitles[r.targetId]) else None)
    ensures r.targetType == "chapter" ==> o == Ok(if r.targetId in chapters then Some(chapters[r.targetId]) else None)
    ensures r.targetType == "comment" ==> o == Ok(if r.targetId in comments then Some(comments[r.targetId]) else None)
    ensures r.targetType == "user" ==> o == Ok(if r.targetId in users then Some(users[r.targetId]) else None)
  {
    var mapping := map["manga_title" := mangaTitles, "chapter" := chapters, "comment" := comments, "user" := users];
    Records.GetTargetObject(r.targetId, r.targetType, mapping)
  }

  datatype Notification = Notification(user: string, kind: string, title: string, content: string, isRead: bool,
                                       relatedType: string, relatedId: string)

  /** `mark_as_read`. */
  function MarkAsRead(n: Notification): (r: Notification)
    ensures r.isRead && r == n.(isRead := true)
  {
    n.(isRead := true)
  }

  lemma MarkAsReadIdempotent(n: Notification)
    ensures MarkAsRead(MarkAsRead(n)) == MarkAsRead(n)
  {
  }
}
