/**
 * The text moderation client: input cleaning, score extraction from an
 * analysis response, the unsafe verdict against per-attribute thresholds, and
 * the summary of a result. The remote analysis call is a parameter.
 */
module Perspective {
  import opened Base
  import opened Text
  import Arith
  import Dict

  /** Attribute scores keyed by lower-case attribute name, in response order. */
  type Scores = Dict.Dict<real>

  /** Texts longer than this are cut before analysis. */
  const MaxLength: nat := 5000

  /** Per-attribute thresholds: an attribute at or above its threshold is unsafe. */
  const Thresholds: map<string, real> :=
    map["toxicity" := 0.65, "severe_toxicity" := 0.55, "sexually_explicit" := 0.6, "profanity" := 0.4]

  const GenericMessage := "Text flagged for review by automated moderation."

  /** `clean_text`: nothing for empty input, otherwise the stripped text cut to 5000 characters. */
  function CleanText(text: string): (r: string)
    ensures text == "" ==> r == ""
    ensures |r| == Arith.Min(|PyStrip(text)|, MaxLength)
    ensures r == PyStrip(text)[..|r|]
    ensures r == "" <==> forall i :: 0 <= i < |text| ==> IsPySpace(text[i])
  {
    if text == "" then ""
    else
      var t := PyStrip(text);
      if |t| > MaxLength then t[..MaxLength] else t
  }

  /** Cleaning a text that fits the limit a second time changes nothing. */
  lemma CleanTextIdempotentWhenShort(text: string)
    requires |PyStrip(text)| <= MaxLength
    ensures CleanText(CleanText(text)) == CleanText(text)
  {
    var t := PyStrip(text);
    if t != [] {
      assert TrimStart(t, IsPySpace) == t;
      assert TrimEnd(t, IsPySpace) == t;
    }
  }

  /** The `summaryScore` object of one attribute, if the response has one. */
  type Summary = Option<Dict.Dict<real>>

  /** The `attributeScores` object of a response; `None` when the field is missing. */
  datatype Response = Response(attributeScores: Option<Dict.Dict<Summary>>)

  /** `summary["value"]` when the summary is truthy and holds a value. */
  function ValueOf(summary: Summary): Option<real> {
    if summary.Some? && |summary.value| > 0 then Dict.Get(summary.value, "value") else None
  }

  /** The lower-cased names of the entries whose summary holds a value. */
  function ScoredNames(e: Dict.Dict<Summary>): set<string> {
    set i | 0 <= i < |e| && ValueOf(e[i].1).Some? :: Lower(e[i].0)
  }

  /** Some entry of `e` named `k` (once lower-cased) holds the value `v`. */
  predicate Witnessed(e: Dict.Dict<Summary>, k: string, v: real) {
    exists j :: 0 <= j < |e| && Lower(e[j].0) == k && ValueOf(e[j].1) == Some(v)
  }

  /** The scores of a sequence of attribute entries, assigned in order. */
  function ParseEntries(e: Dict.Dict<Summary>): (r: Scores)
    ensures Dict.UniqueKeys(r)
    ensures forall k :: Dict.HasKey(r, k) <==> k in ScoredNames(e)
    ensures forall i :: 0 <= i < |r| ==> Witnessed(e, r[i].0, r[i].1)
    decreases |e|
  {
    if |e| == 0 then []
    else
      var init := e[..|e| - 1];
      var last := e[|e| - 1];
      var acc := ParseEntries(init);
      PreserveWitnesses(init, e, acc);
      match ValueOf(last.1)
      case None =>
        NamesAfterEntry(init, e);
        acc
      case Some(v) =>
        var r := Dict.Put(acc, Lower(last.0), v);
        Dict.PutUnique(acc, Lower(last.0), v);
        PutKeys(acc, Lower(last.0), v);
        NamesAfterEntry(init, e);
        assert Witnessed(e, Lower(last.0), v) by {
          assert Lower(e[|e| - 1].0) == Lower(last.0) && ValueOf(e[|e| - 1].1) == Some(v);
        }
        r
  }

  /** A key is present after an assignment iff it was present or is the assigned key. */
  lemma PutKeys(d: Scores, k: string, v: real)
    ensures forall k' :: Dict.HasKey(Dict.Put(d, k, v), k') <==> Dict.HasKey(d, k') || k' == k
  {
    var r := Dict.Put(d, k, v);
    forall k' | Dict.HasKey(d, k') ensures Dict.HasKey(r, k') {
      var i :| 0 <= i < |d| && d[i].0 == k';
      assert r[i].0 == k';
    }
    forall k' | Dict.HasKey(r, k') ensures Dict.HasKey(d, k') || k' == k {
      var i :| 0 <= i < |r| && r[i].0 == k';
      assert r[i] == (k, v) || (i < |d| && r[i] == d[i]);
    }
  }

  /** The scored names of `e` are those of its prefix plus, when scored, the last entry's name. */
  lemma NamesAfterEntry(init: Dict.Dict<Summary>, e: Dict.Dict<Summary>)
    requires |e| > 0 && init == e[..|e| - 1]
    ensures ScoredNames(e) == ScoredNames(init) + (if ValueOf(e[|e| - 1].1).Some? then {Lower(e[|e| - 1].0)} else {})
  {
    forall k | k in ScoredNames(e)
      ensures k in ScoredNames(init) || (ValueOf(e[|e| - 1].1).Some? && k == Lower(e[|e| - 1].0))
    {
      var i :| 0 <= i < |e| && ValueOf(e[i].1).Some? && Lower(e[i].0) == k;
      if i < |init| {
        assert init[i] == e[i];
      }
    }
    forall k | k in ScoredNames(init) ensures k in ScoredNames(e) {
      var i :| 0 <= i < |init| && ValueOf(init[i].1).Some? && Lower(init[i].0) == k;
      assert e[i] == init[i];
    }
  }

  /** Every value witnessed by an entry of the prefix is witnessed by an entry of the whole. */
  lemma PreserveWitnesses(init: Dict.Dict<Summary>, e: Dict.Dict<Summary>, acc: Scores)
    requires |e| > 0 && init == e[..|e| - 1]
    requires forall i :: 0 <= i < |acc| ==> Witnessed(init, acc[i].0, acc[i].1)
    ensures forall i :: 0 <= i < |acc| ==> Witnessed(e, acc[i].0, acc[i].1)
  {
    forall i | 0 <= i < |acc| ensures Witnessed(e, acc[i].0, acc[i].1) {
      var j :| 0 <= j < |init| && Lower(init[j].0) == acc[i].0 && ValueOf(init[j].1) == Some(acc[i].1);
      assert e[j] == init[j];
    }
  }

  /**
   * `parse_response`: the attributes whose summary holds a value, keyed by the
   * lower-cased attribute name; a response without `attributeScores` gives nothing.
   */
  function ParseResponse(resp: Response): (r: Scores)
    ensures resp.attributeScores.None? ==> r == []
    ensures Dict.UniqueKeys(r)
    ensures resp.attributeScores.Some? ==> forall k :: Dict.HasKey(r, k) <==> k in ScoredNames(resp.attributeScores.value)
    ensures resp.attributeScores.Some? ==> forall i :: 0 <= i < |r| ==> Witnessed(resp.attributeScores.value, r[i].0, r[i].1)
  {
    ParseEntries(resp.attributeScores.GetOr([]))
  }

  /**
   * `moderate`: an empty cleaned text gives `{}` without consulting the service;
   * a failed call (`None`) gives `{}`; otherwise the parsed response.
   */
  function Moderate(text: string, analyze: string -> Option<Response>): (r: Scores)
    ensures CleanText(text) == "" ==> r == []
    ensures CleanText(text) != "" && analyze(CleanText(text)).None? ==> r == []
    ensures CleanText(text) != "" && analyze(CleanText(text)).Some? ==> r == ParseResponse(analyze(CleanText(text)).value)
    ensures Dict.UniqueKeys(r)
  {
    var cleaned := CleanText(text);
    if cleaned == "" then []
    else match analyze(cleaned)
      case None => []
      case Some(resp) => ParseResponse(resp)
  }

  /** Blank text never reaches the analysis service: the answer does not depend on it. */
  lemma BlankTextSkipsService(text: string, a1: string -> Option<Response>, a2: string -> Option<Response>)
    requires forall i :: 0 <= i < |text| ==> IsPySpace(text[i])
    ensures Moderate(text, a1) == Moderate(text, a2) == []
  {
  }

  /** `is_unsafe`: some attribute with a known threshold scores at or above it. */
  function IsUnsafe(scores: Scores): (b: bool)
    ensures b <==> exists i :: 0 <= i < |scores| && scores[i].0 in Thresholds && scores[i].1 >= Thresholds[scores[i].0]
    decreases |scores|
  {
    if |scores| == 0 then false
    else
      var (attr, score) := scores[0];
      if attr in Thresholds && score >= Thresholds[attr] then true
      else
        var rest := IsUnsafe(scores[1..]);
        assert forall i :: 1 <= i < |scores| ==> scores[i] == scores[1..][i - 1];
        rest
  }

  /** Attributes without a threshold never make a result unsafe. */
  lemma {:induction false} UnknownAttributesIgnored(scores: Scores, extra: string, score: real)
    requires extra !in Thresholds
    ensures IsUnsafe(scores + [(extra, score)]) == IsUnsafe(scores)
  {
    var s := scores + [(extra, score)];
    if IsUnsafe(s) {
      var i :| 0 <= i < |s| && s[i].0 in Thresholds && s[i].1 >= Thresholds[s[i].0];
      assert i < |scores| && s[i] == scores[i];
    }
    if IsUnsafe(scores) {
      var i :| 0 <= i < |scores| && scores[i].0 in Thresholds && scores[i].1 >= Thresholds[scores[i].0];
      assert s[i] == scores[i];
    }
  }

  /** The summary of a result: the generic message, or a phrase for the dominant attribute. */
  datatype Summarized = Generic | Detected(phrase: string, attribute: string, score: real)

  /** The phrase for a dominant attribute; any other attribute gets the generic fallback. */
  function Phrase(attr: string): string {
    if attr == "toxicity" then "Toxic language detected"
    else if attr == "severe_toxicity" then "Severely toxic language detected"
    else if attr == "sexually_explicit" then "Sexually explicit language detected"
    else if attr == "profanity" then "Profanity detected"
    else "Text flagged due to"
  }

  /**
   * `summarize_result`: the generic message for no scores, otherwise the phrase for
   * the dominant attribute. `dominant` stands for the dominant-score helper, which
   * the helper module does not define.
   */
  function Summarize(scores: Scores, dominant: Scores -> (string, real)): (s: Summarized)
    ensures s.Generic? <==> |scores| == 0
    ensures s.Detected? ==> s.attribute == dominant(scores).0 && s.score == dominant(scores).1
    ensures s.Detected? && s.attribute in Thresholds ==> s.phrase != Phrase("")
    ensures s.Detected? ==> s.phrase == Phrase(s.attribute)
  {
    if |scores| == 0 then Generic
    else
      var (attr, score) := dominant(scores);
      Detected(Phrase(attr), attr, score)
  }

  /** Each thresholded attribute has a phrase of its own, so a detected summary's phrase names its attribute. */
  lemma PhraseNamesAttribute(a: string, b: string)
    requires a in Thresholds && Phrase(a) == Phrase(b)
    ensures a == b
  {
  }

  /**
   * `call_service`: no scores give `({}, False, generic message)`; otherwise the
   * scores, their verdict and their summary.
   */
  function CallService(text: string, analyze: string -> Option<Response>, dominant: Scores -> (string, real))
    : (r: (Scores, bool, Summarized))
    ensures |Moderate(text, analyze)| == 0 ==> r == ([], false, Generic)
    ensures r.0 == Moderate(text, analyze)
    ensures r.1 <==> exists i :: 0 <= i < |r.0| && r.0[i].0 in Thresholds && r.0[i].1 >= Thresholds[r.0[i].0]
    ensures r.2.Generic? <==> |r.0| == 0
  {
    var scores := Moderate(text, analyze);
    if |scores| == 0 then ([], false, Generic)
    else (scores, IsUnsafe(scores), Summarize(scores, dominant))
  }

  /** An unsafe verdict needs a non-blank text and an answer from the service. */
  lemma UnsafeNeedsAnswer(text: string, analyze: string -> Option<Response>, dominant: Scores -> (string, real))
    requires CallService(text, analyze, dominant).1
    ensures CleanText(text) != "" && analyze(CleanText(text)).Some?
  {
  }
}
