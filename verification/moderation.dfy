/**
 * The moderation pipeline: every log entry not yet moderated has each of its
 * attributes checked by the image or the text service, a flag is created for
 * each unsafe result, and the entry is then marked moderated. The two services,
 * the flag-id allocation and the severity computation are parameters.
 */
module Moderation {
  import opened Base
  import opened Text
  import Seqs
  import Dict
  import opened SystemModels
  import SystemService

  /** What a service call gives: an exception, or its `(result, is_unsafe, reason)` triple. */
  datatype Outcome = Raised | Returned(result: Dict.Dict<real>, unsafe: bool, reason: string)

  /**
   * The collaborators: the image and text services, the id a new flag gets given
   * how many flags exist, and the severity of a result.
   */
  datatype Services = Services(image: string -> Outcome, text: string -> Outcome, mint: nat -> string,
                               severity: Dict.Dict<real> -> real)

  /** Flags and the log entries written while moderating. */
  datatype Store = Store(flags: seq<Flag>, logs: seq<LogEntry>)

  /** The names the caller unpacks the service's answer into: five as written, three as intended. */
  const NamesAsWritten: nat := 5
  const NamesIntended: nat := 3

  /** `str(attr.get("isImage")).lower() == "true"`. */
  predicate IsImage(a: Attribute) {
    Lower(a.isImage) == "true"
  }

  /** The service an attribute is sent to, and its answer. */
  function OutcomeOf(a: Attribute, sv: Services): Outcome {
    if IsImage(a) then sv.image(a.content) else sv.text(a.content)
  }

  /**
   * Unpacking the service's answer into `names` names: a raised exception stays
   * raised, and a triple into any other number of names raises `ValueError`.
   */
  function Unpack(o: Outcome, names: nat): (r: Result<(Dict.Dict<real>, bool, string), PyError>)
    ensures r.Ok? <==> o.Returned? && names == 3
    ensures r.Ok? ==> r.value == (o.result, o.unsafe, o.reason)
  {
    match o
    case Raised => Err(ValueError("service call failed"))
    case Returned(result, unsafe, reason) =>
      if names == 3 then Ok((result, unsafe, reason))
      else Err(ValueError("not enough values to unpack (expected " + NatToString(names) + ", got 3)"))
  }

  /** The attributes that lead to a flag: non-empty content and a non-empty unsafe answer. */
  function Worthy(sv: Services): Attribute -> bool {
    (a: Attribute) => a.content != "" && OutcomeOf(a, sv).Returned?
                      && |OutcomeOf(a, sv).result| > 0 && OutcomeOf(a, sv).unsafe
  }

  /** Each old flag is kept or resolved, and flags are only ever added. */
  predicate Evolves(before: seq<Flag>, after: seq<Flag>) {
    |before| <= |after| && forall i :: 0 <= i < |before| ==> after[i] == before[i] || after[i] == Resolve(before[i])
  }

  lemma EvolvesTransitive(a: seq<Flag>, b: seq<Flag>, c: seq<Flag>)
    requires Evolves(a, b) && Evolves(b, c)
    ensures Evolves(a, c)
  {
    forall i | 0 <= i < |a| ensures c[i] == a[i] || c[i] == Resolve(a[i]) {
      assert b[i] == a[i] || b[i] == Resolve(a[i]);
      assert c[i] == b[i] || c[i] == Resolve(b[i]);
    }
  }

  /**
   * One iteration of `process_log_entry`: empty content is skipped; an exception,
   * from the call or from unpacking its answer, skips the attribute; an empty or
   * safe answer is skipped; otherwise a flag is created for the entry's target.
   */
  function Step(entry: LogEntry, st: Store, a: Attribute, sv: Services, names: nat): (r: Store)
    ensures Evolves(st.flags, r.flags)
    ensures |r.flags| == |st.flags| + (if names == 3 && Worthy(sv)(a) then 1 else 0)
    ensures |r.flags| > |st.flags| ==> (r.flags[|st.flags|].targetType == entry.targetType
                                       && r.flags[|st.flags|].targetId == entry.targetId
                                       && r.flags[|st.flags|].contentName == a.name
                                       && !r.flags[|st.flags|].isResolved)
    ensures |r.flags| == |st.flags| ==> r == st
  {
    if a.content == "" then st
    else match Unpack(OutcomeOf(a, sv), names)
      case Err(_) => st
      case Ok((result, unsafe, reason)) =>
        if |result| == 0 || !unsafe then st
        else
          var (fs, logs) := SystemService.CreateFlag(st.flags, entry, a.name, a.content, IsImage(a), reason,
                                                     sv.mint(|st.flags|), sv.severity(result));
          assert fs[..|st.flags|] == SystemService.ResolveSuperseded(st.flags,
                   SystemService.Supersedes(entry.targetType, entry.targetId, a.name));
          assert forall i :: 0 <= i < |st.flags| ==> fs[i] == fs[..|st.flags|][i];
          Store(fs, st.logs + logs)
  }

  /** The loop over an entry's attributes. */
  function Process(entry: LogEntry, st: Store, attrs: seq<Attribute>, sv: Services, names: nat): (r: Store)
    ensures Evolves(st.flags, r.flags)
    decreases |attrs|
  {
    if |attrs| == 0 then st
    else
      var st' := Step(entry, st, attrs[0], sv, names);
      var r := Process(entry, st', attrs[1..], sv, names);
      EvolvesTransitive(st.flags, st'.flags, r.flags);
      r
  }

  /** Processing a concatenation is processing one part after the other. */
  lemma {:induction false} ProcessConcat(entry: LogEntry, st: Store, a: seq<Attribute>, b: seq<Attribute>, sv: Services,
                                         names: nat)
    ensures Process(entry, st, a + b, sv, names) == Process(entry, Process(entry, st, a, sv, names), b, sv, names)
    decreases |a|
  {
    if |a| > 0 {
      assert (a + b)[0] == a[0] && (a + b)[1..] == a[1..] + b;
      ProcessConcat(entry, Step(entry, st, a[0], sv, names), a[1..], b, sv, names);
    } else {
      assert a + b == b;
    }
  }

  /**
   * An attribute with empty content, or whose service call raises, changes
   * nothing: processing the list with it is processing the list without it.
   */
  lemma SkippedAttributeChangesNothing(entry: LogEntry, st: Store, pre: seq<Attribute>, a: Attribute,
                                       post: seq<Attribute>, sv: Services, names: nat)
    requires a.content == "" || OutcomeOf(a, sv).Raised?
    ensures Process(entry, st, pre + [a] + post, sv, names) == Process(entry, st, pre + post, sv, names)
  {
    ProcessConcat(entry, st, pre + [a], post, sv, names);
    ProcessConcat(entry, st, pre, [a], sv, names);
    ProcessConcat(entry, st, pre, post, sv, names);
    var mid := Process(entry, st, pre, sv, names);
    assert Process(entry, mid, [a], sv, names) == Process(entry, Step(entry, mid, a, sv, names), [], sv, names);
  }

  /** With the answer unpacked as intended, one flag is created per worthy attribute. */
  lemma {:induction false} FlagCount(entry: LogEntry, st: Store, attrs: seq<Attribute>, sv: Services)
    ensures |Process(entry, st, attrs, sv, NamesIntended).flags| == |st.flags| + |Seqs.Filter(attrs, Worthy(sv))|
    decreases |attrs|
  {
    if |attrs| > 0 {
      FlagCount(entry, Step(entry, st, attrs[0], sv, NamesIntended), attrs[1..], sv);
    }
  }

  /** As written, unpacking the triple into five names always raises, so processing never changes anything. */
  lemma {:induction false} AsWrittenNeverFlags(entry: LogEntry, st: Store, attrs: seq<Attribute>, sv: Services)
    ensures Process(entry, st, attrs, sv, NamesAsWritten) == st
    decreases |attrs|
  {
    if |attrs| > 0 {
      AsWrittenNeverFlags(entry, Step(entry, st, attrs[0], sv, NamesAsWritten), attrs[1..], sv);
    }
  }

  /** `(entry.details or {}).get("attributes", [])`. */
  function Attributes(entry: LogEntry): seq<Attribute> {
    if entry.details.Details? then entry.details.attributes else []
  }

  /**
   * `run_moderation_pipeline`: every entry not yet moderated is processed and then
   * marked moderated; moderated entries are left alone.
   */
  function Pipeline(entries: seq<LogEntry>, st: Store, sv: Services, names: nat): (r: (seq<LogEntry>, Store))
    ensures |r.0| == |entries|
    ensures forall i :: 0 <= i < |entries| ==> r.0[i] == Moderate(entries[i])
    ensures Evolves(st.flags, r.1.flags)
    ensures (forall i :: 0 <= i < |entries| ==> entries[i].isModerated) ==> r.1 == st
    decreases |entries|
  {
    if |entries| == 0 then ([], st)
    else
      var e := entries[0];
      var st' := if e.isModerated then st else Process(e, st, Attributes(e), sv, names);
      var rest := Pipeline(entries[1..], st', sv, names);
      EvolvesTransitive(st.flags, st'.flags, rest.1.flags);
      ([Moderate(e)] + rest.0, rest.1)
  }

  /** As written, the pipeline marks every entry moderated and never creates a flag. */
  lemma {:induction false} PipelineAsWrittenNeverFlags(entries: seq<LogEntry>, st: Store, sv: Services)
    ensures Pipeline(entries, st, sv, NamesAsWritten).1 == st
    decreases |entries|
  {
    if |entries| > 0 {
      AsWrittenNeverFlags(entries[0], st, Attributes(entries[0]), sv);
      PipelineAsWrittenNeverFlags(entries[1..], st, sv);
    }
  }

  /** As intended, an entry whose attributes include a worthy one produces a flag. */
  lemma WorthyAttributeFlags(entry: LogEntry, st: Store, sv: Services)
    requires !entry.isModerated
    requires exists i :: 0 <= i < |Attributes(entry)| && Worthy(sv)(Attributes(entry)[i])
    ensures |Pipeline([entry], st, sv, NamesIntended).1.flags| > |st.flags|
  {
    var attrs := Attributes(entry);
    var i :| 0 <= i < |attrs| && Worthy(sv)(attrs[i]);
    FlagCount(entry, st, attrs, sv);
    assert attrs[i] in Seqs.Filter(attrs, Worthy(sv));
  }
}
