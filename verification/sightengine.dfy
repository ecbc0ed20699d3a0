/**
 * The image moderation client: flattening a classification response into
 * scores, the pool-scene damping of suggestive scores, the unsafe verdict
 * against per-class thresholds, and the summary of a result. The remote check
 * is a parameter.
 */
module Sightengine {
  import opened Base
  import opened Text
  import Seqs
  import Dict

  /** Class scores keyed by flattened class name, in insertion order. */
  type Scores = Dict.Dict<real>

  /** Per-class thresholds: a class strictly above its threshold is unsafe. */
  const Thresholds: map<string, real> := map[
    "sexual_activity" := 0.15, "sexual_display" := 0.15, "erotica" := 0.15,
    "suggestive_lingerie" := 0.35, "suggestive_bikini" := 0.35, "suggestive_cleavage" := 0.35,
    "suggestive_other" := 0.35, "gore" := 0.25, "offensive" := 0.30]

  /** The explicit nudity classes copied as they are. */
  const ExplicitNames: seq<string> := ["sexual_activity", "sexual_display", "erotica"]

  const PoolKey := "context_sea_lake_pool"
  const ImageMessage := "Image flagged for review by automated moderation."
  const TextMessage := "Text flagged for review by automated moderation."

  /** The `nudity` object: its numeric classes, `suggestive_classes` and `context` (empty when missing). */
  datatype Nudity = Nudity(classes: Dict.Dict<real>, suggestiveClasses: Dict.Dict<real>, context: Dict.Dict<real>)

  /** A check response: `nudity`, `gore` and `offensive` (empty objects when missing). */
  datatype Response = Response(nudity: Nudity, gore: Dict.Dict<real>, offensive: Dict.Dict<real>)

  /** `scores[dst] = src[key]` when `key in src`. */
  function PutIfPresent(d: Scores, src: Dict.Dict<real>, key: string, dst: string): (r: Scores)
    ensures Dict.KeySet(r) == Dict.KeySet(d) + (if Dict.HasKey(src, key) then {dst} else {})
    ensures Dict.UniqueKeys(d) ==> Dict.UniqueKeys(r)
    ensures Dict.Get(r, dst) == if Dict.HasKey(src, key) then Dict.Get(src, key) else Dict.Get(d, dst)
    ensures forall k :: k != dst ==> Dict.Get(r, k) == Dict.Get(d, k)
  {
    match Dict.Get(src, key)
    case None => d
    case Some(v) =>
      Dict.PutUnique(d, dst, v);
      PutOthersAll(d, dst, v);
      Dict.Put(d, dst, v)
  }

  lemma PutOthersAll(d: Scores, k: string, v: real)
    ensures forall k' :: k' != k ==> Dict.Get(Dict.Put(d, k, v), k') == Dict.Get(d, k')
  {
    forall k' | k' != k ensures Dict.Get(Dict.Put(d, k, v), k') == Dict.Get(d, k') {
      Dict.PutOthers(d, k, v, k');
    }
  }

  /** The keys `prefix + name` for the entries of `e`. */
  function Prefixed(e: Dict.Dict<real>, prefix: string): set<string> {
    set i | 0 <= i < |e| :: prefix + e[i].0
  }

  /** A key that does not start with `prefix` is none of the prefixed keys. */
  lemma NotPrefixed(e: Dict.Dict<real>, prefix: string, k: string)
    requires !StartsWith(k, prefix)
    ensures k !in Prefixed(e, prefix)
  {
    forall i | 0 <= i < |e| ensures prefix + e[i].0 != k {
      assert (prefix + e[i].0)[..|prefix|] == prefix;
    }
  }

  /** The prefixed keys of a non-empty entry list: its first key and those of the rest. */
  lemma PrefixedCons(e: Dict.Dict<real>, prefix: string)
    requires |e| > 0
    ensures Prefixed(e, prefix) == {prefix + e[0].0} + Prefixed(e[1..], prefix)
  {
    forall x | x in Prefixed(e, prefix) ensures x in {prefix + e[0].0} + Prefixed(e[1..], prefix) {
      var i :| 0 <= i < |e| && x == prefix + e[i].0;
      if i > 0 { assert e[1..][i - 1] == e[i]; }
    }
    forall x | x in Prefixed(e[1..], prefix) ensures x in Prefixed(e, prefix) {
      var i :| 0 <= i < |e[1..]| && x == prefix + e[1..][i].0;
      assert e[i + 1] == e[1..][i];
    }
  }

  /** Keys built with the same prefix are equal only when the names are. */
  lemma PrefixInjective(prefix: string, a: string, b: string)
    requires prefix + a == prefix + b
    ensures a == b
  {
    assert a == (prefix + a)[|prefix|..];
    assert b == (prefix + b)[|prefix|..];
  }

  /**
   * `for name, value in e.items(): scores[prefix + name] = value`: every entry of
   * the (duplicate-free) source object is stored under its prefixed key with its value.
   */
  function PutAll(d: Scores, e: Dict.Dict<real>, prefix: string): (r: Scores)
    ensures PutAllPost(d, e, prefix, r)
    ensures Dict.KeySet(r) == Dict.KeySet(d) + Prefixed(e, prefix)
    ensures Dict.UniqueKeys(d) ==> Dict.UniqueKeys(r)
    ensures forall k :: k !in Prefixed(e, prefix) ==> Dict.Get(r, k) == Dict.Get(d, k)
    ensures Dict.UniqueKeys(e) ==> forall i :: 0 <= i < |e| ==> Dict.Get(r, prefix + e[i].0) == Some(e[i].1)
    decreases |e|
  {
    if |e| == 0 then d
    else
      var d' := Dict.Put(d, prefix + e[0].0, e[0].1);
      var r := PutAll(d', e[1..], prefix);
      PutAllCons(d, e, prefix, r);
      r
  }

  /** The four facts `PutAll` promises, bundled so that one step can be proved on its own. */
  ghost predicate PutAllPost(d: Scores, e: Dict.Dict<real>, prefix: string, r: Scores) {
    && Dict.KeySet(r) == Dict.KeySet(d) + Prefixed(e, prefix)
    && (Dict.UniqueKeys(d) ==> Dict.UniqueKeys(r))
    && (forall k :: k !in Prefixed(e, prefix) ==> Dict.Get(r, k) == Dict.Get(d, k))
    && (Dict.UniqueKeys(e) ==> forall i :: 0 <= i < |e| ==> Dict.Get(r, prefix + e[i].0) == Some(e[i].1))
  }

  /** Storing the first entry and then the rest gives the facts for the whole entry list. */
  lemma PutAllCons(d: Scores, e: Dict.Dict<real>, prefix: string, r: Scores)
    requires |e| > 0
    requires PutAllPost(Dict.Put(d, prefix + e[0].0, e[0].1), e[1..], prefix, r)
    ensures PutAllPost(d, e, prefix, r)
  {
    var k0 := prefix + e[0].0;
    var d' := Dict.Put(d, k0, e[0].1);
    Dict.PutUnique(d, k0, e[0].1);
    PutOthersAll(d, k0, e[0].1);
    PrefixedCons(e, prefix);
    if Dict.UniqueKeys(e) {
      assert Dict.UniqueKeys(e[1..]);
      PutAllStep(d', e, prefix, r);
    }
  }

  /** One step of `PutAll`: the first entry's value survives the later, differently named, entries. */
  lemma PutAllStep(d': Scores, e: Dict.Dict<real>, prefix: string, r: Scores)
    requires |e| > 0 && Dict.UniqueKeys(e)
    requires Dict.Get(d', prefix + e[0].0) == Some(e[0].1)
    requires forall k :: k !in Prefixed(e[1..], prefix) ==> Dict.Get(r, k) == Dict.Get(d', k)
    requires forall i :: 0 <= i < |e[1..]| ==> Dict.Get(r, prefix + e[1..][i].0) == Some(e[1..][i].1)
    ensures forall i :: 0 <= i < |e| ==> Dict.Get(r, prefix + e[i].0) == Some(e[i].1)
  {
    var k0 := prefix + e[0].0;
    if k0 in Prefixed(e[1..], prefix) {
      var j :| 0 <= j < |e[1..]| && k0 == prefix + e[1..][j].0;
      PrefixInjective(prefix, e[0].0, e[j + 1].0);
      assert false;
    }
    forall i | 0 < i < |e| ensures Dict.Get(r, prefix + e[i].0) == Some(e[i].1) {
      assert e[1..][i - 1] == e[i];
    }
  }

  /** A key built with one prefix does not start with another prefix of a different first letter. */
  lemma OtherPrefix(p: string, q: string, name: string)
    requires |p| > 0 && |q| > 0 && p[0] != q[0]
    ensures !StartsWith(p + name, q)
  {
    assert (p + name)[0] == p[0];
  }

  /** The explicit classes present in the `nudity` object. */
  function ExplicitPresent(n: Nudity): set<string> {
    set k | k in ExplicitNames && Dict.HasKey(n.classes, k)
  }

  /** The `gore` and `offensive` keys the response provides. */
  function TailKeys(resp: Response): set<string> {
    (if Dict.HasKey(resp.gore, "probability") then {"gore"} else {})
    + (if Dict.HasKey(resp.offensive, "prob") then {"offensive"} else {})
  }

  lemma FixedNamesUnprefixed(k: string)
    requires k in ExplicitNames || k == "gore" || k == "offensive"
    ensures !StartsWith(k, "suggestive_") && !StartsWith(k, "context_")
  {
    assert k[0] != 'c' && k[1] != 'u';
  }

  /** The explicit classes, copied in their fixed order when present. */
  function ExplicitScores(n: Nudity): (r: Scores)
    ensures Dict.UniqueKeys(r)
    ensures Dict.KeySet(r) == ExplicitPresent(n)
    ensures Dict.Get(r, "sexual_activity") == Dict.Get(n.classes, "sexual_activity")
    ensures Dict.Get(r, "sexual_display") == Dict.Get(n.classes, "sexual_display")
    ensures Dict.Get(r, "erotica") == Dict.Get(n.classes, "erotica")
  {
    var empty: Scores := [];
    assert Dict.KeySet(empty) == {};
    var s0 := PutIfPresent(empty, n.classes, "sexual_activity", "sexual_activity");
    var s1 := PutIfPresent(s0, n.classes, "sexual_display", "sexual_display");
    var r := PutIfPresent(s1, n.classes, "erotica", "erotica");
    assert Dict.KeySet(r) == ExplicitPresent(n) by {
      ExplicitPresentCases(n);
    }
    assert Dict.Get(empty, "sexual_activity") == None && Dict.Get(empty, "sexual_display") == None
      && Dict.Get(empty, "erotica") == None;
    assert Dict.Get(r, "sexual_activity") == Dict.Get(n.classes, "sexual_activity") by {
      assert Dict.Get(r, "sexual_activity") == Dict.Get(s1, "sexual_activity") == Dict.Get(s0, "sexual_activity");
    }
    assert Dict.Get(r, "sexual_display") == Dict.Get(n.classes, "sexual_display") by {
      assert Dict.Get(r, "sexual_display") == Dict.Get(s1, "sexual_display");
    }
    r
  }

  lemma ExplicitPresentCases(n: Nudity)
    ensures ExplicitPresent(n) == (if Dict.HasKey(n.classes, "sexual_activity") then {"sexual_activity"} else {})
                                  + (if Dict.HasKey(n.classes, "sexual_display") then {"sexual_display"} else {})
                                  + (if Dict.HasKey(n.classes, "erotica") then {"erotica"} else {})
  {
    assert forall k :: k in ExplicitNames <==> k == "sexual_activity" || k == "sexual_display" || k == "erotica";
  }

  /** The explicit classes followed by the flattened suggestive and context classes. */
  function NudityScores(n: Nudity): (r: Scores)
    ensures Dict.UniqueKeys(r)
    ensures Dict.KeySet(r) == ExplicitPresent(n) + Prefixed(n.suggestiveClasses, "suggestive_") + Prefixed(n.context, "context_")
    ensures forall k :: k in ExplicitNames || k == "gore" || k == "offensive" ==> Dict.Get(r, k) == Dict.Get(ExplicitScores(n), k)
    ensures Dict.UniqueKeys(n.suggestiveClasses) ==> forall i :: 0 <= i < |n.suggestiveClasses| ==>
              Dict.Get(r, "suggestive_" + n.suggestiveClasses[i].0) == Some(n.suggestiveClasses[i].1)
    ensures Dict.UniqueKeys(n.context) ==> forall i :: 0 <= i < |n.context| ==>
              Dict.Get(r, "context_" + n.context[i].0) == Some(n.context[i].1)
  {
    var s2 := ExplicitScores(n);
    var s3 := PutAll(s2, n.suggestiveClasses, "suggestive_");

    forall k | k in ExplicitNames || k == "gore" || k == "offensive"
      ensures k !in Prefixed(n.suggestiveClasses, "suggestive_") && k !in Prefixed(n.context, "context_")
    {
      FixedNamesUnprefixed(k);
      NotPrefixed(n.suggestiveClasses, "suggestive_", k);
      NotPrefixed(n.context, "context_", k);
    }
    var r := PutAll(s3, n.context, "context_");
    ContextKeepsSuggestive(s3, n.context, n.suggestiveClasses, r);
    r
  }

  /** Storing the context classes leaves every suggestive class's value alone. */
  lemma ContextKeepsSuggestive(s3: Scores, ctx: Dict.Dict<real>, sc: Dict.Dict<real>, r: Scores)
    requires PutAllPost(s3, ctx, "context_", r)
    requires Dict.UniqueKeys(sc) ==> forall i :: 0 <= i < |sc| ==> Dict.Get(s3, "suggestive_" + sc[i].0) == Some(sc[i].1)
    ensures Dict.UniqueKeys(sc) ==> forall i :: 0 <= i < |sc| ==> Dict.Get(r, "suggestive_" + sc[i].0) == Some(sc[i].1)
  {
    forall i | 0 <= i < |sc| ensures "suggestive_" + sc[i].0 !in Prefixed(ctx, "context_") {
      OtherPrefix("suggestive_", "context_", sc[i].0);
      NotPrefixed(ctx, "context_", "suggestive_" + sc[i].0);
    }
  }

  /** `gore` from `gore.probability` and then `offensive` from `offensive.prob`, when present. */
  function TailScores(d: Scores, resp: Response): (r: Scores)
    ensures Dict.KeySet(r) == Dict.KeySet(d) + TailKeys(resp)
    ensures Dict.UniqueKeys(d) ==> Dict.UniqueKeys(r)
    ensures Dict.HasKey(resp.gore, "probability") ==> Dict.Get(r, "gore") == Dict.Get(resp.gore, "probability")
    ensures !Dict.HasKey(resp.gore, "probability") ==> Dict.Get(r, "gore") == Dict.Get(d, "gore")
    ensures Dict.HasKey(resp.offensive, "prob") ==> Dict.Get(r, "offensive") == Dict.Get(resp.offensive, "prob")
    ensures !Dict.HasKey(resp.offensive, "prob") ==> Dict.Get(r, "offensive") == Dict.Get(d, "offensive")
  {
    var s5 := PutIfPresent(d, resp.gore, "probability", "gore");
    PutIfPresent(s5, resp.offensive, "prob", "offensive")
  }

  /** The tail assignments leave every other key as it was. */
  lemma TailOther(d: Scores, resp: Response, k: string)
    requires k != "gore" && k != "offensive"
    ensures Dict.Get(TailScores(d, resp), k) == Dict.Get(d, k)
  {
  }

  /** The `gore` and `offensive` assignments leave every prefixed class's value alone. */
  lemma TailKeepsClasses(d: Scores, resp: Response, e: Dict.Dict<real>, prefix: string)
    requires prefix == "suggestive_" || prefix == "context_"
    requires Dict.UniqueKeys(e) ==> forall i :: 0 <= i < |e| ==> Dict.Get(d, prefix + e[i].0) == Some(e[i].1)
    ensures Dict.UniqueKeys(e) ==> forall i :: 0 <= i < |e| ==> Dict.Get(TailScores(d, resp), prefix + e[i].0) == Some(e[i].1)
  {
    forall i | 0 <= i < |e| ensures Dict.Get(TailScores(d, resp), prefix + e[i].0) == Dict.Get(d, prefix + e[i].0) {
      assert (prefix + e[i].0)[0] == prefix[0];
      TailOther(d, resp, prefix + e[i].0);
    }
  }

  /** The nudity part of a response never provides `gore` or `offensive`. */
  lemma NudityLacks(n: Nudity, k: string)
    requires k == "gore" || k == "offensive"
    ensures Dict.Get(NudityScores(n), k) == None
  {
    assert k !in ExplicitPresent(n);
    FixedNamesUnprefixed(k);
    NotPrefixed(n.suggestiveClasses, "suggestive_", k);
    NotPrefixed(n.context, "context_", k);
    assert k !in Dict.KeySet(NudityScores(n));
    Dict.KeySetHasKey(NudityScores(n), k);
  }

  /** The explicit classes survive the flattening of suggestive and context classes. */
  lemma ExplicitKept(n: Nudity, k: string)
    requires k == "sexual_activity" || k == "sexual_display" || k == "erotica"
    ensures Dict.Get(NudityScores(n), k) == Dict.Get(n.classes, k)
  {
    assert k in ExplicitNames;
  }

  /**
   * `parse_response`: the explicit classes present, every suggestive class as
   * `suggestive_<name>`, every context class as `context_<name>`, then `gore` from
   * `gore.probability` and `offensive` from `offensive.prob` when present.
   */
  function ParseResponse(resp: Response): (r: Scores)
    ensures Dict.UniqueKeys(r)
    ensures Dict.KeySet(r) == ExplicitPresent(resp.nudity) + Prefixed(resp.nudity.suggestiveClasses, "suggestive_")
                              + Prefixed(resp.nudity.context, "context_") + TailKeys(resp)
    ensures Dict.Get(r, "sexual_activity") == Dict.Get(resp.nudity.classes, "sexual_activity")
    ensures Dict.Get(r, "sexual_display") == Dict.Get(resp.nudity.classes, "sexual_display")
    ensures Dict.Get(r, "erotica") == Dict.Get(resp.nudity.classes, "erotica")
    ensures Dict.Get(r, "gore") == Dict.Get(resp.gore, "probability")
    ensures Dict.Get(r, "offensive") == Dict.Get(resp.offensive, "prob")
    ensures Dict.UniqueKeys(resp.nudity.suggestiveClasses) ==> forall i :: 0 <= i < |resp.nudity.suggestiveClasses| ==>
              Dict.Get(r, "suggestive_" + resp.nudity.suggestiveClasses[i].0) == Some(resp.nudity.suggestiveClasses[i].1)
    ensures Dict.UniqueKeys(resp.nudity.context) ==> forall i :: 0 <= i < |resp.nudity.context| ==>
              Dict.Get(r, "context_" + resp.nudity.context[i].0) == Some(resp.nudity.context[i].1)
  {
    TailKeepsClasses(NudityScores(resp.nudity), resp, resp.nudity.suggestiveClasses, "suggestive_");
    TailKeepsClasses(NudityScores(resp.nudity), resp, resp.nudity.context, "context_");
    NudityLacks(resp.nudity, "gore");
    NudityLacks(resp.nudity, "offensive");
    ExplicitKept(resp.nudity, "sexual_activity");
    ExplicitKept(resp.nudity, "sexual_display");
    ExplicitKept(resp.nudity, "erotica");
    TailOther(NudityScores(resp.nudity), resp, "sexual_activity");
    TailOther(NudityScores(resp.nudity), resp, "sexual_display");
    TailOther(NudityScores(resp.nudity), resp, "erotica");
    TailScores(NudityScores(resp.nudity), resp)
  }

  /**
   * `moderate`: an empty URL gives `{}` without a check; a failed check (`None`)
   * gives `{}`; otherwise the parsed response.
   */
  function Moderate(url: string, check: string -> Option<Response>): (r: Scores)
    ensures url == "" ==> r == []
    ensures url != "" && check(url).None? ==> r == []
    ensures url != "" && check(url).Some? ==> r == ParseResponse(check(url).value)
    ensures Dict.UniqueKeys(r)
  {
    if url == "" then []
    else match check(url)
      case None => []
      case Some(resp) => ParseResponse(resp)
  }

  /** The classes damped in a pool or beach scene. */
  predicate Damped(key: string) {
    StartsWith(key, "suggestive_bikini") || StartsWith(key, "suggestive_other")
  }

  /** `scores.get("context_sea_lake_pool", 0.0)`. */
  function Pool(scores: Scores): real {
    Dict.GetOr(scores, PoolKey, 0.0)
  }

  /**
   * `apply_context_adjustments`: a copy with the same keys in the same order;
   * when the pool context is at least 0.5 the damped classes are scaled by 0.7.
   */
  function ApplyContextAdjustments(scores: Scores): (r: Scores)
    ensures Dict.Keys(r) == Dict.Keys(scores)
    ensures forall i :: 0 <= i < |r| && !Damped(r[i].0) ==> r[i] == scores[i]
    ensures Pool(scores) < 0.5 ==> r == scores
    ensures Pool(scores) >= 0.5 ==> forall i :: 0 <= i < |r| && Damped(r[i].0) ==> r[i].1 == scores[i].1 * 0.7
  {
    var pool := Pool(scores);
    if pool >= 0.5 then
      seq(|scores|, i requires 0 <= i < |scores| =>
        if Damped(scores[i].0) then (scores[i].0, scores[i].1 * 0.7) else scores[i])
    else scores
  }

  /** Damping never raises a non-negative score. */
  lemma AdjustmentNeverRaises(scores: Scores)
    requires forall i :: 0 <= i < |scores| ==> scores[i].1 >= 0.0
    ensures forall i :: 0 <= i < |scores| ==> ApplyContextAdjustments(scores)[i].1 <= scores[i].1
  {
    var r := ApplyContextAdjustments(scores);
    assert |r| == |Dict.Keys(r)| == |scores|;
  }

  /** Some class with a threshold is strictly above it. */
  predicate Exceeds(d: Scores) {
    exists i :: 0 <= i < |d| && d[i].0 in Thresholds && d[i].1 > Thresholds[d[i].0]
  }

  /** Every class has a threshold and none is above it. */
  predicate AllBelow(d: Scores) {
    forall i :: 0 <= i < |d| ==> d[i].0 in Thresholds && d[i].1 <= Thresholds[d[i].0]
  }

  /**
   * The loop of `is_unsafe` as written: `MODEL_THRESHOLDS[attribute]` raises
   * `KeyError` at the first class without a threshold, unless an earlier class
   * already returned `True`.
   */
  function ScanAsWritten(adjusted: Scores): (r: Result<bool, PyError>)
    ensures r == Ok(true) ==> Exceeds(adjusted)
    ensures r == Ok(false) <==> AllBelow(adjusted)
    ensures r.Err? ==> r.error.KeyError? && r.error.key !in Thresholds && r.error.key in Dict.KeySet(adjusted)
    ensures r.Err? ==> !(exists i :: 0 <= i < |adjusted| && adjusted[i].0 in Thresholds && adjusted[i].1 > Thresholds[adjusted[i].0]
                          && forall j :: 0 <= j < i ==> adjusted[j].0 in Thresholds)
    decreases |adjusted|
  {
    if |adjusted| == 0 then Ok(false)
    else
      var (k, v) := adjusted[0];
      if k !in Thresholds then
        assert adjusted[0].0 in Dict.KeySet(adjusted);
        Err(KeyError(k))
      else if v > Thresholds[k] then Ok(true)
      else
        var rest := adjusted[1..];
        var r := ScanAsWritten(rest);
        assert forall i :: 1 <= i < |adjusted| ==> adjusted[i] == rest[i - 1];
        assert r.Err? ==> r.error.key in Dict.KeySet(adjusted) by {
          if r.Err? {
            var i :| 0 <= i < |rest| && rest[i].0 == r.error.key;
            assert adjusted[i + 1].0 == r.error.key;
          }
        }
        r
  }

  /** `is_unsafe` as written, which fails on any class without a threshold. */
  function IsUnsafeAsWritten(scores: Scores): (r: Result<bool, PyError>)
    ensures r.Ok? ==> r.value == Exceeds(ApplyContextAdjustments(scores))
    ensures r.Err? ==> r.error.KeyError? && r.error.key !in Thresholds && r.error.key in Dict.KeySet(scores)
  {
    var adjusted := ApplyContextAdjustments(scores);
    var r := ScanAsWritten(adjusted);
    assert Dict.KeySet(adjusted) == Dict.KeySet(scores) by {
      assert forall i :: 0 <= i < |adjusted| ==> adjusted[i].0 == Dict.Keys(adjusted)[i] == Dict.Keys(scores)[i];
    }
    r
  }

  /**
   * Any image that is not unsafe but has a class without a threshold (every
   * context class is one) makes the verdict as written fail.
   */
  lemma {:induction false} SafeImageWithContextFails(scores: Scores, k: string)
    requires k in Dict.KeySet(scores) && k !in Thresholds
    requires !IsUnsafe(scores)
    ensures IsUnsafeAsWritten(scores).Err?
  {
    var adjusted := ApplyContextAdjustments(scores);
    var i :| 0 <= i < |scores| && scores[i].0 == k;
    assert adjusted[i].0 == Dict.Keys(adjusted)[i] == Dict.Keys(scores)[i] == k;
    assert !AllBelow(adjusted);
  }

  /** A concrete input: an image whose only class is the pool context. */
  lemma PoolSceneFails()
    ensures IsUnsafeAsWritten([(PoolKey, 0.9)]) == Err(KeyError(PoolKey))
  {
    var s := [(PoolKey, 0.9)];
    assert Dict.GetOr(s, PoolKey, 0.0) == 0.9;
    assert !Damped(PoolKey) by {
      assert PoolKey[1] == 'o';
    }
    assert ApplyContextAdjustments(s) == s;
  }

  /**
   * The loop of `is_unsafe` with the lookup repaired to skip a class without a
   * threshold: return `True` at the first class above its threshold, else `False`.
   */
  function Scan(adjusted: Scores): (b: bool)
    ensures b <==> Exceeds(adjusted)
    decreases |adjusted|
  {
    if |adjusted| == 0 then false
    else
      var (k, v) := adjusted[0];
      if k in Thresholds && v > Thresholds[k] then true
      else
        var rest := adjusted[1..];
        assert forall i :: 1 <= i < |adjusted| ==> adjusted[i] == rest[i - 1];
        Scan(rest)
  }

  /** The evidently intended `is_unsafe`: the repaired loop over the adjusted scores. */
  function IsUnsafe(scores: Scores): (b: bool)
    ensures b <==> Exceeds(ApplyContextAdjustments(scores))
  {
    Scan(ApplyContextAdjustments(scores))
  }

  /** Where the verdict as written answers, it agrees with the intended one. */
  lemma AsWrittenAgreesWhenDefined(scores: Scores)
    requires IsUnsafeAsWritten(scores).Ok?
    ensures IsUnsafeAsWritten(scores).value == IsUnsafe(scores)
  {
  }

  /** Damping can turn an unsafe raw result safe, never the other way round. */
  lemma {:induction false} AdjustedUnsafeIsRawUnsafe(scores: Scores)
    requires forall i :: 0 <= i < |scores| ==> scores[i].1 >= 0.0
    requires IsUnsafe(scores)
    ensures Exceeds(scores)
  {
    var adjusted := ApplyContextAdjustments(scores);
    AdjustmentNeverRaises(scores);
    var i :| 0 <= i < |adjusted| && adjusted[i].0 in Thresholds && adjusted[i].1 > Thresholds[adjusted[i].0];
    assert adjusted[i].0 == Dict.Keys(adjusted)[i] == Dict.Keys(scores)[i] == scores[i].0;
  }

  /** The summary of a result: a fixed message, or a phrase for the dominant class. */
  datatype Summary = Fixed(message: string) | Detected(phrase: string, attribute: string, score: real)

  /** Not a context class. */
  function Meaningful(): ((string, real)) -> bool {
    (e: (string, real)) => !StartsWith(e.0, "context_")
  }

  function Phrase(key: string): string {
    if key in ExplicitNames then "Explicit content detected"
    else if StartsWith(key, "suggestive_") then "Suggestive content detected"
    else if key == "gore" then "Gore detected"
    else if key == "offensive" then "Offensive content detected"
    else "Image flagged due to"
  }

  /**
   * `summarize_result`: the generic image message when there is no class other
   * than context classes; otherwise the phrase for the dominant non-context class.
   * `dominant` stands for the dominant-score helper, which the helper module does
   * not define.
   */
  function Summarize(scores: Scores, dominant: Scores -> (string, real)): (s: Summary)
    ensures s == Fixed(ImageMessage) <==> forall i :: 0 <= i < |scores| ==> StartsWith(scores[i].0, "context_")
    ensures s.Detected? <==> exists i :: 0 <= i < |scores| && !StartsWith(scores[i].0, "context_")
    ensures s.Detected? ==> (s.attribute, s.score) == dominant(Seqs.Filter(scores, Meaningful()))
    ensures s.Detected? ==> s.phrase == Phrase(s.attribute)
  {
    var meaningful := Seqs.Filter(scores, Meaningful());
    if |scores| == 0 || |meaningful| == 0 then Fixed(ImageMessage)
    else
      var (key, score) := dominant(meaningful);
      Detected(Phrase(key), key, score)
  }

  /**
   * `call_service` as written: no scores give `({}, False, <the text message>)`;
   * otherwise the verdict as written, which can fail.
   */
  function CallServiceAsWritten(url: string, check: string -> Option<Response>, dominant: Scores -> (string, real))
    : (r: Result<(Scores, bool, Summary), PyError>)
    ensures |Moderate(url, check)| == 0 ==> r == Ok(([], false, Fixed(TextMessage)))
    ensures r.Err? ==> r.error.KeyError? && r.error.key in Dict.KeySet(Moderate(url, check))
    ensures r.Ok? && |r.value.0| > 0 ==> r.value.0 == Moderate(url, check) && r.value.1 == IsUnsafe(r.value.0)
    ensures r.Ok? && |r.value.0| > 0 ==> r.value.2 == Summarize(r.value.0, dominant)
  {
    var scores := Moderate(url, check);
    if |scores| == 0 then Ok(([], false, Fixed(TextMessage)))
    else match IsUnsafeAsWritten(scores)
      case Err(e) => Err(e)
      case Ok(unsafe) => Ok((scores, unsafe, Summarize(scores, dominant)))
  }

  /** `call_service` with the intended verdict, which never fails. */
  function CallService(url: string, check: string -> Option<Response>, dominant: Scores -> (string, real))
    : (r: (Scores, bool, Summary))
    ensures url == "" ==> r == ([], false, Fixed(TextMessage))
    ensures r.0 == Moderate(url, check)
    ensures r.1 <==> Exceeds(ApplyContextAdjustments(r.0))
    ensures r.2.Detected? ==> |r.0| > 0
    ensures |r.0| == 0 ==> r.2 == Fixed(TextMessage)
    ensures |r.0| > 0 ==> r.2 == Summarize(r.0, dominant)
  {
    var scores := Moderate(url, check);
    if |scores| == 0 then ([], false, Fixed(TextMessage))
    else (scores, IsUnsafe(scores), Summarize(scores, dominant))
  }

  /** Wherever `call_service` as written answers, it answers what the repaired one does. */
  lemma CallServiceAgreesWhenDefined(url: string, check: string -> Option<Response>, dominant: Scores -> (string, real))
    ensures CallServiceAsWritten(url, check, dominant).Ok? ==>
              CallServiceAsWritten(url, check, dominant).value == CallService(url, check, dominant)
  {
    var scores := Moderate(url, check);
    if |scores| > 0 && IsUnsafeAsWritten(scores).Ok? {
      AsWrittenAgreesWhenDefined(scores);
    }
  }
}
