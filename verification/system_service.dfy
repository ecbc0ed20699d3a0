/**
 * The system service: the moderation details recorded with an audit-log
 * entry, creating log entries on saves, and creating a flag while resolving
 * the flags it supersedes.
 */
module SystemService {
  import opened Base
  import Seqs
  import opened SystemModels

  /**
   * The object a log entry is about, with the attributes the detail factory reads.
   * `MangaObj.alternativeTitle` and the `CommentObj` fields are the names the factory
   * reads; the MangaTitle and Comment models do not declare them (a comment stores
   * `content` and `is_image`), so the factory as written raises on those two kinds.
   */
  datatype Target =
    | ReaderObj(id: string, username: string, displayName: string, avatar: string)
    | UserObj(id: string, username: string)
    | MangaObj(id: string, title: string, alternativeTitle: string, description: string, coverImage: string)
    | ChapterObj(id: string, title: string)
    | PageObj(id: string, imageUrl: string)
    | CommentObj(id: string, text: string, attachedImageUrl: string)
    | OtherObj(id: string, modelName: string)

  /** `target_object._meta.model_name`: the lower-cased class name. */
  function ModelName(t: Target): string {
    match t
    case ReaderObj(_, _, _, _) => "reader"
    case UserObj(_, _) => "user"
    case MangaObj(_, _, _, _, _) => "mangatitle"
    case ChapterObj(_, _) => "chapter"
    case PageObj(_, _) => "page"
    case CommentObj(_, _, _) => "comment"
    case OtherObj(_, name) => name
  }

  /** The model name stored for a manga title is not one of the declared target types. */
  lemma MangaModelNameUndeclared(t: Target)
    requires t.MangaObj?
    ensures ModelName(t) !in TargetObjectTypes
  {
  }

  function Text(name: string, content: string): Attribute { Attribute(name, "False", content) }
  function Image(name: string, content: string): Attribute { Attribute(name, "True", content) }

  /**
   * `LogEntryDetailFactory.get_moderation_detail` as it would run if every attribute it
   * reads existed: the flag target type and the attributes to moderate for each
   * moderated kind (a reader is matched before a plain user); any other object gets `{}`.
   */
  function ModerationDetail(t: Target): (d: Details)
    ensures d.NoDetails? <==> t.OtherObj?
    ensures d.Details? ==> forall i :: 0 <= i < |d.attributes| ==> d.attributes[i].isImage in {"True", "False"}
    ensures t.ReaderObj? ==> d == Details("user", [Text("username", t.username), Text("displayName", t.displayName),
                                                   Image("avatar", t.avatar)])
    ensures t.UserObj? ==> d == Details("user", [Text("username", t.username)])
    ensures t.MangaObj? ==> d == Details("manga_title", [Text("title", t.title), Text("alternativeTitle", t.alternativeTitle),
                                                         Text("description", t.description), Image("coverImage", t.coverImage)])
    ensures t.ChapterObj? ==> d == Details("chapter", [Text("title", t.title)])
    ensures t.PageObj? ==> d == Details("page", [Image("imageUrl", t.imageUrl)])
    ensures t.CommentObj? ==> d.targetType == "comment"
    ensures t.CommentObj? ==> (Text("text", t.text) in d.attributes <==> t.text != "")
    ensures t.CommentObj? ==> (Image("attachedImageUrl", t.attachedImageUrl) in d.attributes <==> t.attachedImageUrl != "")
    ensures t.CommentObj? ==> |d.attributes| == (if t.text != "" then 1 else 0) + (if t.attachedImageUrl != "" then 1 else 0)
  {
    match t
    case ReaderObj(_, username, displayName, avatar) =>
      Details("user", [Text("username", username), Text("displayName", displayName), Image("avatar", avatar)])
    case UserObj(_, username) => Details("user", [Text("username", username)])
    case MangaObj(_, title, alt, description, cover) =>
      Details("manga_title", [Text("title", title), Text("alternativeTitle", alt), Text("description", description),
                              Image("coverImage", cover)])
    case ChapterObj(_, title) => Details("chapter", [Text("title", title)])
    case PageObj(_, url) => Details("page", [Image("imageUrl", url)])
    case CommentObj(_, text, url) =>
      var a := if text != "" then [Text("text", text)] else [];
      var b := if url != "" then [Image("attachedImageUrl", url)] else [];
      Details("comment", a + b)
    case OtherObj(_, _) => NoDetails
  }

  /**
   * `get_moderation_detail` as written: the manga branch reads `alternative_title` and
   * the comment branch reads `text`, attributes their models lack, so both raise
   * `AttributeError`; every other kind gets its details.
   */
  function ModerationDetailAsWritten(t: Target): (r: Result<Details, PyError>)
    ensures r.Err? <==> t.MangaObj? || t.CommentObj?
    ensures r.Err? ==> r.error.AttributeError? && r.error.name in {"alternative_title", "text"}
    ensures r.Ok? ==> r.value == ModerationDetail(t)
  {
    match t
    case MangaObj(_, _, _, _, _) => Err(AttributeError("alternative_title"))
    case CommentObj(_, _, _) => Err(AttributeError("text"))
    case _ => Ok(ModerationDetail(t))
  }

  /** The as-written factory fails on every manga title and comment, where the intended one has details. */
  lemma ModerationDetailDiscrepancy(t: Target)
    requires t.MangaObj? || t.CommentObj?
    ensures ModerationDetailAsWritten(t).Err? && ModerationDetail(t).Details?
  {
  }

  /**
   * `create_log_entry`: details are computed only for a create or update of a
   * moderated kind, and the entry counts as moderated exactly when they are `{}`.
   */
  function CreateLogEntry(user: Option<string>, action: string, t: Target): (e: LogEntry)
    ensures e.isModerated <==> e.details.NoDetails?
    ensures e.details.Details? <==> (action == "create" || action == "update") && !t.OtherObj?
    ensures e.details.Details? ==> e.details == ModerationDetail(t)
    ensures e.user == user && e.action == action && e.targetType == ModelName(t) && e.targetId == t.id
  {
    var details := if (action == "create" || action == "update") && !t.OtherObj? then ModerationDetail(t) else NoDetails;
    LogEntry(user, action, ModelName(t), t.id, details.NoDetails?, details)
  }

  /** `create_log_entry` as written: the detail factory's error propagates, so no entry is created. */
  function CreateLogEntryAsWritten(user: Option<string>, action: string, t: Target): (r: Result<LogEntry, PyError>)
    ensures r.Err? <==> (action == "create" || action == "update") && (t.MangaObj? || t.CommentObj?)
    ensures r.Ok? ==> r.value == CreateLogEntry(user, action, t)
  {
    if (action == "create" || action == "update") && !t.OtherObj? then
      match ModerationDetailAsWritten(t)
      case Err(e) => Err(e)
      case Ok(_) => Ok(CreateLogEntry(user, action, t))
    else Ok(CreateLogEntry(user, action, t))
  }

  /** `log_object_save` as written, reached from the post-save signal of every manga title. */
  function LogObjectSaveAsWritten(t: Target, created: bool, actionUser: Option<string>): (r: Result<LogEntry, PyError>)
    ensures r.Err? <==> t.MangaObj? || t.CommentObj?
    ensures r.Ok? ==> r.value == LogObjectSave(t, created, actionUser)
  {
    CreateLogEntryAsWritten(actionUser, if created then "create" else "update", t)
  }

  /** Every save of a manga title raises in its post-save signal, whether it created the row or updated it. */
  lemma MangaSaveAlwaysRaises(t: Target, created: bool, actionUser: Option<string>)
    requires t.MangaObj?
    ensures LogObjectSaveAsWritten(t, created, actionUser) == Err(AttributeError("alternative_title"))
  {
  }

  /** A created or updated comment always waits for moderation, even with no attribute to check. */
  lemma CommentNeverPremoderated(user: Option<string>, t: Target, created: bool)
    requires t.CommentObj?
    ensures !LogObjectSave(t, created, user).isModerated
  {
  }

  /** `log_object_save`: CREATE for a new object, UPDATE otherwise, on behalf of `_action_user`. */
  function LogObjectSave(t: Target, created: bool, actionUser: Option<string>): (e: LogEntry)
    ensures e.action == (if created then "create" else "update")
    ensures e.user == actionUser && e.targetId == t.id
    ensures e.isModerated <==> t.OtherObj?
  {
    CreateLogEntry(actionUser, if created then "create" else "update", t)
  }

  /** `log_object_delete`: a DELETE entry, which never needs moderation. */
  function LogObjectDelete(t: Target, actionUser: Option<string>): (e: LogEntry)
    ensures e.action == "delete" && e.isModerated && e.details.NoDetails?
  {
    CreateLogEntry(actionUser, "delete", t)
  }

  /** A flag still open for the same target content as the one being created. */
  function Supersedes(targetType: string, targetId: string, contentName: string): Flag -> bool {
    (f: Flag) => f.targetType == targetType && f.targetId == targetId && f.contentName == contentName && !f.isResolved
  }

  /** The flags after resolving the superseded ones (the rest unchanged). */
  function ResolveSuperseded(flags: seq<Flag>, open: Flag -> bool): (r: seq<Flag>)
    ensures |r| == |flags|
    ensures forall i :: 0 <= i < |flags| ==> r[i] == (if open(flags[i]) then Resolve(flags[i]) else flags[i])
  {
    seq(|flags|, i requires 0 <= i < |flags| => if open(flags[i]) then Resolve(flags[i]) else flags[i])
  }

  function AutoResolveLog(f: Flag): LogEntry {
    CreateLogEntry(None, AutoResolveFlag, OtherObj(f.id, "flaggedcontent"))
  }

  /**
   * `create_flag` as written: its first query filters on `content_name`, a field
   * FlaggedContent does not declare, so the ORM raises `FieldError` before anything
   * is resolved or created.
   */
  function CreateFlagAsWritten(flags: seq<Flag>, entry: LogEntry, contentName: string, content: string, isImage: bool,
                               reason: string, newId: string, severity: real): (r: Result<(seq<Flag>, seq<LogEntry>), PyError>)
    ensures r == Err(FieldError("content_name"))
  {
    Err(FieldError("content_name"))
  }

  /** As written no call ever supersedes or creates a flag; the intended version always creates one. */
  lemma CreateFlagDiscrepancy(flags: seq<Flag>, entry: LogEntry, contentName: string, content: string, isImage: bool,
                              reason: string, newId: string, severity: real)
    ensures CreateFlagAsWritten(flags, entry, contentName, content, isImage, reason, newId, severity).Err?
    ensures |CreateFlag(flags, entry, contentName, content, isImage, reason, newId, severity).0| == |flags| + 1
  {
  }

  /**
   * `create_flag` with FlaggedContent given the `content_name`, `dominant_attribute`
   * and `details` fields the code uses: every open flag on the same target type, id and content name is
   * resolved and logged, then the new flag is created and logged. `severity` stands
   * for the dominant-score computation, which is not part of this model.
   */
  function CreateFlag(flags: seq<Flag>, entry: LogEntry, contentName: string, content: string, isImage: bool,
                      reason: string, newId: string, severity: real): (r: (seq<Flag>, seq<LogEntry>))
    ensures |r.0| == |flags| + 1
    ensures r.0[..|flags|] == ResolveSuperseded(flags, Supersedes(entry.targetType, entry.targetId, contentName))
    ensures r.0[|flags|] == Flag(newId, entry.targetType, entry.targetId, contentName, content, isImage, severity, reason, false)
    ensures forall i :: (0 <= i < |flags| && r.0[i].targetType == entry.targetType && r.0[i].targetId == entry.targetId
                         && r.0[i].contentName == contentName) ==> r.0[i].isResolved
    ensures |r.1| == |Seqs.Filter(flags, Supersedes(entry.targetType, entry.targetId, contentName))| + 1
    ensures forall i :: 0 <= i < |r.1| ==> r.1[i].isModerated && r.1[i].user.None?
    ensures r.1[|r.1| - 1].action == "create" && r.1[|r.1| - 1].targetId == newId
  {
    var open := Supersedes(entry.targetType, entry.targetId, contentName);
    var superseded := Seqs.Filter(flags, open);
    var resolvedLogs := seq(|superseded|, i requires 0 <= i < |superseded| => AutoResolveLog(superseded[i]));
    var created := Flag(newId, entry.targetType, entry.targetId, contentName, content, isImage, severity, reason, false);
    var all := ResolveSuperseded(flags, open) + [created];
    assert all[..|flags|] == ResolveSuperseded(flags, open);
    (all, resolvedLogs + [CreateLogEntry(None, "create", OtherObj(newId, "flaggedcontent"))])
  }

  /** After `create_flag`, the new flag is the only open one for its target content. */
  lemma NewFlagIsOnlyOpen(flags: seq<Flag>, entry: LogEntry, contentName: string, content: string, isImage: bool,
                          reason: string, newId: string, severity: real)
    ensures var fs := CreateFlag(flags, entry, contentName, content, isImage, reason, newId, severity).0;
      forall i :: 0 <= i < |fs| && Supersedes(entry.targetType, entry.targetId, contentName)(fs[i]) ==> i == |fs| - 1
  {
  }
}
