/**
 * `getTimeAgo`: a coarse "N units ago" label for a date. The clock is the
 * parameter `nowMs`; a date that does not parse is `None` (its time is NaN,
 * which fails every comparison).
 */
module FormatTime {
  import opened Base
  import Text

  datatype Unit = Unit(name: string, secs: nat)

  /** The units tried, coarsest first. */
  const Intervals: seq<Unit> := [
    Unit("year", 31536000), Unit("month", 2592000), Unit("day", 86400),
    Unit("hour", 3600), Unit("minute", 60)]

  datatype Label = JustNow | Ago(value: int, unit: Unit)

  /** `Math.floor((Date.now() - d.getTime()) / 1000)`. */
  function ElapsedSeconds(dateMs: int, nowMs: int): (s: int)
    ensures s * 1000 <= nowMs - dateMs < s * 1000 + 1000
  {
    (nowMs - dateMs) / 1000
  }

  /** The units are listed coarsest first, and none is finer than a minute. */
  lemma IntervalsDescend()
    ensures forall a, b :: 0 <= a < b < |Intervals| ==> Intervals[a].secs > Intervals[b].secs
    ensures forall a :: 0 <= a < |Intervals| ==> Intervals[a].secs >= 60
  {
  }

  /** Floor division brackets its dividend. */
  lemma FloorBrackets(a: int, b: int)
    requires b > 0
    ensures (a / b) * b <= a < (a / b + 1) * b
    ensures a / b >= 1 <==> a >= b
  {
  }

  /** The loop over `Intervals` from position `i`: the first unit with a quotient of at least one. */
  function Scan(seconds: int, i: nat): (r: Label)
    requires i <= |Intervals|
    ensures r.Ago? ==> r.unit in Intervals[i..] && r.unit.secs > 0 && r.value == seconds / r.unit.secs >= 1
    ensures r.Ago? ==> forall k :: i <= k < |Intervals| && Intervals[k].secs > r.unit.secs ==>
                         seconds < Intervals[k].secs
    ensures r.JustNow? <==> seconds < Intervals[|Intervals| - 1].secs || i == |Intervals|
    decreases |Intervals| - i
  {
    if i == |Intervals| then JustNow
    else
      var u := Intervals[i];
      IntervalsDescend();
      FloorBrackets(seconds, u.secs);
      var value := seconds / u.secs;
      if value >= 1 then
        assert u == Intervals[i..][0];
        Ago(value, u)
      else
        var r := Scan(seconds, i + 1);
        assert Intervals[i + 1..] == Intervals[i..][1..];
        r
  }

  /** The label for a date; an unparsable date and anything under a minute (also the future) is 'just now'. */
  function Describe(dateMs: Option<int>, nowMs: int): (r: Label)
    ensures dateMs.None? ==> r == JustNow
    ensures dateMs.Some? ==> (r.JustNow? <==> ElapsedSeconds(dateMs.value, nowMs) < 60)
    ensures r.Ago? ==> r.unit in Intervals && r.value >= 1
    ensures r.Ago? ==> var s := ElapsedSeconds(dateMs.value, nowMs);
      r.value * r.unit.secs <= s < (r.value + 1) * r.unit.secs
  {
    match dateMs
    case None => JustNow
    case Some(d) =>
      var seconds := ElapsedSeconds(d, nowMs);
      if seconds < 60 then JustNow
      else
        var r := Scan(seconds, 0);
        if r.Ago? then FloorBrackets(seconds, r.unit.secs); r else r
  }

  /** `${value} ${unit}${value > 1 ? 's' : ''} ago`. */
  function Render(l: Label): (r: string)
    ensures l.JustNow? ==> r == "just now"
    ensures l.Ago? ==> r == Text.IntToString(l.value) + " " + l.unit.name + (if l.value > 1 then "s" else "") + " ago"
  {
    match l
    case JustNow => "just now"
    case Ago(v, u) => Text.IntToString(v) + " " + u.name + (if v > 1 then "s" else "") + " ago"
  }

  function GetTimeAgo(dateMs: Option<int>, nowMs: int): string {
    Render(Describe(dateMs, nowMs))
  }

  /** The coarsest unit that fits is chosen: with one full unit elapsed, no coarser unit fits. */
  lemma CoarsestUnitWins(dateMs: int, nowMs: int)
    requires ElapsedSeconds(dateMs, nowMs) >= 60
    ensures var r := Describe(Some(dateMs), nowMs);
      r.Ago? && forall k :: 0 <= k < |Intervals| && Intervals[k].secs > r.unit.secs ==>
        ElapsedSeconds(dateMs, nowMs) < Intervals[k].secs
  {
    var s := ElapsedSeconds(dateMs, nowMs);
    assert Describe(Some(dateMs), nowMs) == Scan(s, 0);
  }

  /** An hour and a half reads in hours, rounded down; a minute short of an hour reads in minutes. */
  lemma HourBoundary()
    ensures Describe(Some(0), 5400 * 1000) == Ago(1, Unit("hour", 3600))
    ensures Describe(Some(0), 3599 * 1000) == Ago(59, Unit("minute", 60))
  {
    assert ElapsedSeconds(0, 5400 * 1000) == 5400;
    assert 5400 / 31536000 == 0 && 5400 / 2592000 == 0 && 5400 / 86400 == 0 && 5400 / 3600 == 1;
    assert Scan(5400, 3) == Ago(1, Unit("hour", 3600));
    assert Scan(5400, 0) == Scan(5400, 1) == Scan(5400, 2) == Scan(5400, 3);
    assert ElapsedSeconds(0, 3599 * 1000) == 3599;
    assert 3599 / 31536000 == 0 && 3599 / 2592000 == 0 && 3599 / 86400 == 0 && 3599 / 3600 == 0 && 3599 / 60 == 59;
    assert Scan(3599, 4) == Ago(59, Unit("minute", 60));
    assert Scan(3599, 0) == Scan(3599, 1) == Scan(3599, 2) == Scan(3599, 3) == Scan(3599, 4);
  }
}
