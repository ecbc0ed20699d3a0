/**
 * The system models: flagged content, announcements with their status
 * update, and audit-log entries with their action and target types.
 */
module SystemModels {
  import opened Base
  import Dict
  import Records

  /** A flagged piece of content. */
  datatype Flag = Flag(id: string, targetType: string, targetId: string, contentName: string, content: string,
                       isImage: bool, severity: real, reason: string, isResolved: bool)

  /** `FlaggedContent.resolve`. */
  function Resolve(f: Flag): (r: Flag)
    ensures r.isResolved && r == f.(isResolved := true)
  {
    f.(isResolved := true)
  }

  lemma ResolveIdempotent(f: Flag)
    ensures Resolve(Resolve(f)) == Resolve(f)
  {
  }

  const AnnouncementStatuses: set<string> := {"active", "scheduled", "expired", "hidden"}

  /** The outcome of `Announcement.update_status`: the row and the saved `update_fields`. */
  datatype StatusUpdate = StatusUpdate(row: Records.Row, updatedFields: seq<string>)

  /**
   * The instance after the assignments of `update_status`: the status, then
   * `scheduled_at` when given, else `expired_at` when given.
   */
  function Assigned(row: Records.Row, status: string, scheduledAt: Option<int>, expiredAt: Option<int>): (r: Records.Row)
    ensures "status" in r && r["status"] == Records.PStr(status)
    ensures scheduledAt.Some? ==> "scheduled_at" in r && r["scheduled_at"] == Records.PInt(scheduledAt.value)
    ensures scheduledAt.None? && expiredAt.Some? ==> "expired_at" in r && r["expired_at"] == Records.PInt(expiredAt.value)
    ensures forall k :: k != "status" && (k != "scheduled_at" || scheduledAt.None?)
                        && (k != "expired_at" || scheduledAt.Some? || expiredAt.None?) ==>
              (k in r <==> k in row) && (k in row ==> r[k] == row[k])
  {
    var withStatus := row["status" := Records.PStr(status)];
    if scheduledAt.Some? then withStatus["scheduled_at" := Records.PInt(scheduledAt.value)]
    else if expiredAt.Some? then withStatus["expired_at" := Records.PInt(expiredAt.value)]
    else withStatus
  }

  /**
   * `Announcement.update_status`: a status outside the choices raises `ValueError`;
   * otherwise the status is set, and `scheduled_at` when given, else `expired_at`
   * when given (never both). `status` is always among the saved fields, so every
   * valid call is validated (`valid` stands for `full_clean`) and saved.
   */
  function UpdateStatus(row: Records.Row, status: string, scheduledAt: Option<int>, expiredAt: Option<int>,
                        valid: Records.Row -> bool): (r: Result<StatusUpdate, PyError>)
    ensures status !in AnnouncementStatuses ==> r == Err(ValueError("Invalid status: " + status))
    ensures r.Ok? ==> status in AnnouncementStatuses && valid(r.value.row)
    ensures r.Ok? ==> |r.value.updatedFields| >= 1 && r.value.updatedFields[0] == "status"
    ensures r.Ok? ==> "status" in r.value.row && r.value.row["status"] == Records.PStr(status)
    ensures r.Ok? && scheduledAt.Some? ==>
      r.value.updatedFields == ["status", "scheduled_at"] && "scheduled_at" in r.value.row
      && r.value.row["scheduled_at"] == Records.PInt(scheduledAt.value)
      && ("expired_at" in r.value.row <==> "expired_at" in row) && ("expired_at" in row ==> r.value.row["expired_at"] == row["expired_at"])
    ensures r.Ok? && scheduledAt.None? && expiredAt.Some? ==>
      r.value.updatedFields == ["status", "expired_at"] && "expired_at" in r.value.row && r.value.row["expired_at"] == Records.PInt(expiredAt.value)
    ensures r.Ok? && scheduledAt.None? && expiredAt.None? ==> r.value.updatedFields == ["status"]
    ensures r.Ok? ==> forall k :: k !in {"status", "scheduled_at", "expired_at"} ==>
      (k in r.value.row <==> k in row) && (k in row ==> r.value.row[k] == row[k])
    ensures status in AnnouncementStatuses && r.Err? ==> r.error == ValidationError("full_clean")
    ensures status in AnnouncementStatuses ==> (r.Ok? <==> valid(Assigned(row, status, scheduledAt, expiredAt)))
    ensures r.Ok? ==> r.value.row == Assigned(row, status, scheduledAt, expiredAt)
    ensures r.Ok? && scheduledAt.None? ==>
      ("scheduled_at" in r.value.row <==> "scheduled_at" in row) && ("scheduled_at" in row ==> r.value.row["scheduled_at"] == row["scheduled_at"])
    ensures r.Ok? && scheduledAt.None? && expiredAt.None? ==>
      ("expired_at" in r.value.row <==> "expired_at" in row) && ("expired_at" in row ==> r.value.row["expired_at"] == row["expired_at"])
  {
    if status !in AnnouncementStatuses then Err(ValueError("Invalid status: " + status))
    else
      var updated := Assigned(row, status, scheduledAt, expiredAt);
      var fields := if scheduledAt.Some? then ["status", "scheduled_at"]
                    else if expiredAt.Some? then ["status", "expired_at"]
                    else ["status"];
      if valid(updated) then Ok(StatusUpdate(updated, fields)) else Err(ValidationError("full_clean"))
  }

  /** Repeating a successful status update on the row it produced changes nothing. */
  lemma UpdateStatusRepeat(row: Records.Row, status: string, scheduledAt: Option<int>, expiredAt: Option<int>,
                           valid: Records.Row -> bool)
    requires UpdateStatus(row, status, scheduledAt, expiredAt, valid).Ok?
    ensures var once := UpdateStatus(row, status, scheduledAt, expiredAt, valid).value;
      UpdateStatus(once.row, status, scheduledAt, expiredAt, valid) == Ok(once)
  {
    var once := UpdateStatus(row, status, scheduledAt, expiredAt, valid).value;
    var again := Assigned(once.row, status, scheduledAt, expiredAt);
    assert again == once.row by {
      assert forall k :: k in again <==> k in once.row;
    }
  }

  /** Giving both dates stores only the scheduled date. */
  lemma BothDatesStoreOnlyScheduled(row: Records.Row, status: string, s: int, e: int, valid: Records.Row -> bool)
    requires UpdateStatus(row, status, Some(s), Some(e), valid).Ok?
    ensures var out := UpdateStatus(row, status, Some(s), Some(e), valid).value;
      "expired_at" !in out.updatedFields && "scheduled_at" in out.row && out.row["scheduled_at"] == Records.PInt(s)
  {
  }

  const AnnouncementFields: set<string> := {"title", "content"}

  /** `Announcement.update_metadata`: only `title` and `content` can change. */
  function AnnouncementUpdateMetadata(row: Records.Row, data: Records.Kwargs, valid: Records.Row -> bool)
    : (r: Result<Records.Update, PyError>)
    requires Dict.UniqueKeys(data)
    ensures r.Ok? ==> forall k :: k !in AnnouncementFields ==>
      (k in r.value.row <==> k in row) && (k in row ==> r.value.row[k] == row[k])
    ensures r.Ok? ==> forall k :: k in AnnouncementFields && Dict.HasKey(data, k) ==>
      k in r.value.row && Some(r.value.row[k]) == Dict.Get(data, k)
  {
    Records.UpdateInstance(row, AnnouncementFields, data, valid)
  }

  /** `LogEntry.ActionTypeChoices`. */
  const ActionTypes: seq<string> := ["login", "logout", "create", "update", "delete"]

  /** The action name the flag service uses for superseded flags; it is not a declared action. */
  const AutoResolveFlag := "auto_resolve_flag"

  lemma AutoResolveIsUndeclared()
    ensures AutoResolveFlag !in ActionTypes
    ensures |ActionTypes| == 5
  {
  }

  const TargetObjectTypes: seq<string> := ["manga_title", "chapter", "page", "genre", "author", "comment", "user",
                                           "report", "flagged_content", "announcement", "penalty"]

  /** One attribute to moderate, as stored in a log entry's details. */
  datatype Attribute = Attribute(name: string, isImage: string, content: string)

  /** A log entry's `details`: `{}`, or the target type and its attributes. */
  datatype Details = NoDetails | Details(targetType: string, attributes: seq<Attribute>)

  datatype LogEntry = LogEntry(user: Option<string>, action: string, targetType: string, targetId: string,
                               isModerated: bool, details: Details)

  /** `LogEntry.moderate`. */
  function Moderate(e: LogEntry): (r: LogEntry)
    ensures r.isModerated && r == e.(isModerated := true)
  {
    e.(isModerated := true)
  }

  lemma ModerateIdempotent(e: LogEntry)
    ensures Moderate(Moderate(e)) == Moderate(e)
  {
  }
}
