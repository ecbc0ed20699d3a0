/**
 * The user signal handlers: a save that only touches `last_login` is marked
 * internal before it is stored, and saves and deletes of users are written to
 * the audit log.
 */
module UserSignals {
  import opened Base
  import Seqs
  import Records
  import SystemModels
  import SystemService

  /**
   * A user instance as the handlers see it: its primary key, its field values,
   * and the two instance attributes the handlers read (absent until set).
   */
  datatype Instance = Instance(pk: Option<string>, username: string, fields: Records.Row,
                               skipLogging: Option<bool>, actionUser: Option<string>)

  /** `getattr(obj, name)` for a model field; an absent entry reads as `None`. */
  function FieldValue(row: Records.Row, name: string): Records.PyValue {
    if name in row then row[name] else Records.PNone
  }

  /** The fields whose stored and new values differ, in field order. */
  function Changed(stored: Records.Row, current: Records.Row, fieldNames: seq<string>): (r: seq<string>)
    ensures forall i :: 0 <= i < |r| ==> r[i] in fieldNames && FieldValue(stored, r[i]) != FieldValue(current, r[i])
    ensures forall i :: 0 <= i < |fieldNames| && FieldValue(stored, fieldNames[i]) != FieldValue(current, fieldNames[i])
              ==> fieldNames[i] in r
    ensures Seqs.IsSubsequence(r, fieldNames)
    ensures forall f :: multiset(r)[f] ==
                          if FieldValue(stored, f) != FieldValue(current, f) then multiset(fieldNames)[f] else 0
  {
    var differs := (f: string) => FieldValue(stored, f) != FieldValue(current, f);
    Seqs.FilterCount(fieldNames, differs);
    Seqs.Filter(fieldNames, differs)
  }

  const LastLogin := "last_login"

  /**
   * `detect_internal_user_update` (pre-save): a new object, or one not found in
   * `stored`, is left alone; an update whose only changed field is `last_login`
   * is marked to skip logging.
   */
  function PreSave(inst: Instance, stored: map<string, Records.Row>, fieldNames: seq<string>): (r: Instance)
    ensures r == inst || r == inst.(skipLogging := Some(true))
    ensures r.skipLogging != inst.skipLogging ==> (inst.pk.Some? && inst.pk.value in stored
                                                   && Changed(stored[inst.pk.value], inst.fields, fieldNames) == [LastLogin])
    ensures (inst.pk.Some? && inst.pk.value != "" && inst.pk.value in stored
             && Changed(stored[inst.pk.value], inst.fields, fieldNames) == [LastLogin]) ==> r.skipLogging == Some(true)
  {
    if inst.pk.None? || inst.pk.value == "" then inst
    else if inst.pk.value !in stored then inst
    else if Changed(stored[inst.pk.value], inst.fields, fieldNames) == [LastLogin] then inst.(skipLogging := Some(true))
    else inst
  }

  /** The audit-log target for a user. */
  function Target(inst: Instance): SystemService.Target {
    SystemService.UserObj(inst.pk.GetOr(""), inst.username)
  }

  /** `_action_user` defaults to the instance itself. */
  function Actor(inst: Instance): string {
    inst.actionUser.GetOr(inst.pk.GetOr(""))
  }

  /**
   * `log_user_save` as written: `getattr(instance, "_skip_logging", True)` makes
   * an instance that was never marked skip too, so only an explicit `False` logs.
   */
  function PostSaveAsWritten(inst: Instance, created: bool): (r: Option<SystemModels.LogEntry>)
    ensures r.Some? <==> inst.skipLogging == Some(false)
    ensures r.Some? ==> r.value.action == (if created then "create" else "update") && r.value.user == Some(Actor(inst))
  {
    if inst.skipLogging.GetOr(true) then None
    else Some(SystemService.LogObjectSave(Target(inst), created, Some(Actor(inst))))
  }

  /** `log_user_save` with the evidently intended default: log unless the save was marked internal. */
  function PostSave(inst: Instance, created: bool): (r: Option<SystemModels.LogEntry>)
    ensures r.Some? <==> inst.skipLogging != Some(true)
    ensures r.Some? ==> r.value.action == (if created then "create" else "update") && r.value.user == Some(Actor(inst))
    ensures r.Some? ==> !r.value.isModerated && r.value.targetId == inst.pk.GetOr("")
  {
    if inst.skipLogging.GetOr(false) then None
    else Some(SystemService.LogObjectSave(Target(inst), created, Some(Actor(inst))))
  }

  /** `log_user_delete`: every delete is logged, on behalf of the user itself when nobody else is named. */
  function PostDelete(inst: Instance): (r: SystemModels.LogEntry)
    ensures r.action == "delete" && r.user == Some(Actor(inst)) && r.isModerated
  {
    SystemService.LogObjectDelete(Target(inst), Some(Actor(inst)))
  }

  /**
   * As written, no save of an instance the code never marked is logged: the
   * pre-save handler only ever sets the marker to `True`.
   */
  lemma AsWrittenNeverLogsSaves(inst: Instance, stored: map<string, Records.Row>, fieldNames: seq<string>, created: bool)
    requires inst.skipLogging.None?
    ensures PostSaveAsWritten(PreSave(inst, stored, fieldNames), created).None?
  {
  }

  /** As intended, an ordinary update of a stored user is logged. */
  lemma OrdinaryUpdateLogged(inst: Instance, stored: map<string, Records.Row>, fieldNames: seq<string>)
    requires inst.skipLogging.None? && inst.pk.Some? && inst.pk.value in stored
    requires Changed(stored[inst.pk.value], inst.fields, fieldNames) != [LastLogin]
    ensures PostSave(PreSave(inst, stored, fieldNames), false).Some?
  {
  }

  /** As intended, a save that only moves `last_login` is not logged. */
  lemma LoginStampNotLogged(inst: Instance, stored: map<string, Records.Row>, fieldNames: seq<string>, created: bool)
    requires inst.pk.Some? && inst.pk.value != "" && inst.pk.value in stored
    requires Changed(stored[inst.pk.value], inst.fields, fieldNames) == [LastLogin]
    ensures PostSave(PreSave(inst, stored, fieldNames), created).None?
  {
  }
}
