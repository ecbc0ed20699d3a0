/**
 * Paged reading in the chapter reader: pages are cut into frames of one or
 * two, right-to-left reading either reverses the frames ('simple') or keeps
 * them and reverses navigation ('mangadex'), and keys, edge clicks and swipes
 * move a clamped frame index.
 */
module ChapterReader {
  import opened Base
  import opened Arith

  /** The reader settings the paging logic reads (defaults 'single', 'ltr', 'mangadex'). */
  datatype Settings = Settings(pageDisplay: string, readingDirection: string, rtlMode: string)

  const DefaultSettings: Settings := Settings("single", "ltr", "mangadex")

  predicate IsRtl(s: Settings) { s.readingDirection == "rtl" }
  predicate IsMangadexRtl(s: Settings) { IsRtl(s) && s.rtlMode == "mangadex" }
  predicate IsSimpleRtl(s: Settings) { IsRtl(s) && s.rtlMode == "simple" }

  /** Only 'simple' right-to-left reverses the display order. */
  predicate ShouldReverse(s: Settings) { IsSimpleRtl(s) }

  /** The two right-to-left flavours never hold together, and neither holds left-to-right. */
  lemma RtlModesExclusive(s: Settings)
    ensures !(IsMangadexRtl(s) && ShouldReverse(s))
    ensures !IsRtl(s) ==> !IsMangadexRtl(s) && !ShouldReverse(s)
  {
  }

  /** Pages per frame: two exactly for the 'double' display. */
  function PerFrame(s: Settings): (n: nat)
    ensures n == 1 || n == 2
    ensures n == 2 <==> s.pageDisplay == "double"
  {
    if s.pageDisplay == "double" then 2 else 1
  }

  /** 'single' and 'double' are paged whatever the `mode` prop says. */
  function EffectiveMode(s: Settings, mode: string): (r: string)
    ensures (s.pageDisplay == "single" || s.pageDisplay == "double") ==> r == "paged"
    ensures !(s.pageDisplay == "single" || s.pageDisplay == "double") ==> r == mode
  {
    if s.pageDisplay == "single" || s.pageDisplay == "double" then "paged" else mode
  }

  function Flatten<T>(frames: seq<seq<T>>): seq<T>
    decreases |frames|
  {
    if |frames| == 0 then [] else frames[0] + Flatten(frames[1..])
  }

  /** Every full pair of neighbouring pages swapped; an odd last page stays. */
  function PairSwapped<T>(pages: seq<T>): (r: seq<T>)
    ensures |r| == |pages|
    decreases |pages|
  {
    if |pages| < 2 then pages else [pages[1], pages[0]] + PairSwapped(pages[2..])
  }

  /** Swapping pairs twice gives the pages back. */
  lemma {:induction false} PairSwappedInvolution<T>(pages: seq<T>)
    ensures PairSwapped(PairSwapped(pages)) == pages
    decreases |pages|
  {
    if |pages| >= 2 {
      var r := PairSwapped(pages);
      assert r[2..] == PairSwapped(pages[2..]);
      PairSwappedInvolution(pages[2..]);
      assert pages == [pages[0], pages[1]] + pages[2..];
    }
  }

  /** The frame as pushed: a full pair is swapped in double-page right-to-left. */
  function Orient<T>(frame: seq<T>, perFrame: nat, rtl: bool): seq<T> {
    if perFrame == 2 && rtl && |frame| == 2 then [frame[1], frame[0]] else frame
  }

  /**
   * `makeFrames(arr, perFrame)`: ceil(n/perFrame) frames, all full but
   * possibly the last, each a slice of the pages (a full pair swapped in
   * double-page right-to-left).
   */
  function MakeFrames<T>(pages: seq<T>, perFrame: nat, rtl: bool): (frames: seq<seq<T>>)
    requires perFrame >= 1
    ensures |frames| == CeilDiv(|pages|, perFrame)
    ensures forall i :: 0 <= i < |frames| ==> 1 <= |frames[i]| <= perFrame
    ensures forall i :: 0 <= i < |frames| - 1 ==> |frames[i]| == perFrame
    decreases |pages|
  {
    if |pages| == 0 then []
    else
      var n := Min(perFrame, |pages|);
      [Orient(pages[..n], perFrame, rtl)] + MakeFrames(pages[n..], perFrame, rtl)
  }

  /** Concatenating the frames gives the pages back, with each full pair swapped in double-page right-to-left. */
  lemma {:induction false} MakeFramesFlatten<T>(pages: seq<T>, perFrame: nat, rtl: bool)
    requires perFrame >= 1
    ensures Flatten(MakeFrames(pages, perFrame, rtl)) == if perFrame == 2 && rtl then PairSwapped(pages) else pages
    decreases |pages|
  {
    if |pages| > 0 {
      var n := Min(perFrame, |pages|);
      var frames := MakeFrames(pages, perFrame, rtl);
      assert frames[1..] == MakeFrames(pages[n..], perFrame, rtl);
      MakeFramesFlatten(pages[n..], perFrame, rtl);
      assert pages == pages[..n] + pages[n..];
    }
  }

  function Reverse<T>(s: seq<T>): (r: seq<T>)
    ensures |r| == |s| && forall i :: 0 <= i < |s| ==> r[i] == s[|s| - 1 - i]
  {
    seq(|s|, i requires 0 <= i < |s| => s[|s| - 1 - i])
  }

  /** The frames in display order: reversed only for 'simple' right-to-left. */
  function DisplayFrames<T>(s: Settings, frames: seq<seq<T>>): (r: seq<seq<T>>)
    ensures |r| == |frames|
    ensures ShouldReverse(s) ==> forall i :: 0 <= i < |frames| ==> r[i] == frames[|frames| - 1 - i]
    ensures !ShouldReverse(s) ==> r == frames
  {
    if ShouldReverse(s) then Reverse(frames) else frames
  }

  /**
   * The initial display index for `frameCount` frames (at least one: the
   * reader returns early without pages). `startIndex` is `None` for an
   * explicit `null`; an omitted prop defaults to 0.
   */
  function NormalizedStart(s: Settings, frameCount: nat, startIndex: Option<int>): (r: int)
    requires frameCount >= 1
    ensures r <= frameCount - 1
    ensures (startIndex.None? || startIndex.value >= 0) ==> 0 <= r
    ensures startIndex == Some(0) ==> r == if IsMangadexRtl(s) || ShouldReverse(s) then frameCount - 1 else 0
    ensures startIndex.None? ==> r == if IsMangadexRtl(s) then frameCount - 1 else 0
    ensures startIndex.Some? && 0 <= startIndex.value < frameCount ==>
      r == if IsMangadexRtl(s) || ShouldReverse(s) then frameCount - 1 - startIndex.value else startIndex.value
    ensures startIndex.Some? && startIndex.value < 0 && !IsMangadexRtl(s) && !ShouldReverse(s) ==> r == startIndex.value
  {
    match startIndex
    case None => if IsMangadexRtl(s) then Max(0, frameCount - 1) else 0
    case Some(start) =>
      if IsMangadexRtl(s) then Max(0, Min(frameCount - 1 - start, frameCount - 1))
      else if !ShouldReverse(s) then Min(start, frameCount - 1)
      else Max(0, Min(frameCount - 1 - start, frameCount - 1))
  }

  /** The logical frame a valid start index shows first: itself, except in 'mangadex' where it is mirrored. */
  lemma StartShowsFrame<T>(s: Settings, frames: seq<seq<T>>, start: int)
    requires 0 <= start < |frames|
    ensures var r := NormalizedStart(s, |frames|, Some(start));
      0 <= r < |frames|
      && DisplayFrames(s, frames)[r] == if IsMangadexRtl(s) then frames[|frames| - 1 - start] else frames[start]
  {
  }

  /** `next`: one frame on, or one back for 'mangadex' right-to-left; clamped. */
  function Next(s: Settings, frameCount: nat, i: int): int {
    if IsMangadexRtl(s) then Max(i - 1, 0) else Min(i + 1, frameCount - 1)
  }

  /** `prev`: the mirror of `next`. */
  function Prev(s: Settings, frameCount: nat, i: int): int {
    if IsMangadexRtl(s) then Min(i + 1, frameCount - 1) else Max(i - 1, 0)
  }

  /** next and prev keep a valid index valid, and undo each other away from the ends. */
  lemma NavigationStaysInRange(s: Settings, frameCount: nat, i: int)
    requires 0 <= i < frameCount
    ensures 0 <= Next(s, frameCount, i) < frameCount && 0 <= Prev(s, frameCount, i) < frameCount
    ensures 0 < i < frameCount - 1 ==> Prev(s, frameCount, Next(s, frameCount, i)) == i
    ensures 0 < i < frameCount - 1 ==> Next(s, frameCount, Prev(s, frameCount, i)) == i
    ensures IsMangadexRtl(s) ==> Next(s, frameCount, i) == Max(i - 1, 0)
  {
  }

  /** The keyboard handler: keys act only in paged mode. */
  function OnKey(s: Settings, mode: string, key: string, frameCount: nat, i: int): int {
    if EffectiveMode(s, mode) != "paged" then i
    else if key == "ArrowRight" || key == "PageDown" then
      (if IsMangadexRtl(s) then Prev(s, frameCount, i) else Next(s, frameCount, i))
    else if key == "ArrowLeft" || key == "PageUp" then
      (if IsMangadexRtl(s) then Next(s, frameCount, i) else Prev(s, frameCount, i))
    else i
  }

  /** Right and left edge clicks behave like ArrowRight and ArrowLeft. */
  function OnEdge(s: Settings, right: bool, frameCount: nat, i: int): int {
    if right then (if IsMangadexRtl(s) then Prev(s, frameCount, i) else Next(s, frameCount, i))
    else (if IsMangadexRtl(s) then Next(s, frameCount, i) else Prev(s, frameCount, i))
  }

  /** In every mode, rightward input raises the display index and leftward input lowers it, clamped. */
  lemma RightwardRaisesLeftwardLowers(s: Settings, mode: string, frameCount: nat, i: int)
    requires frameCount >= 1
    ensures EffectiveMode(s, mode) == "paged" ==>
      OnKey(s, mode, "ArrowRight", frameCount, i) == Min(i + 1, frameCount - 1)
      && OnKey(s, mode, "PageDown", frameCount, i) == Min(i + 1, frameCount - 1)
      && OnKey(s, mode, "ArrowLeft", frameCount, i) == Max(i - 1, 0)
      && OnKey(s, mode, "PageUp", frameCount, i) == Max(i - 1, 0)
    ensures EffectiveMode(s, mode) != "paged" ==> OnKey(s, mode, "ArrowRight", frameCount, i) == i
    ensures OnEdge(s, true, frameCount, i) == Min(i + 1, frameCount - 1)
    ensures OnEdge(s, false, frameCount, i) == Max(i - 1, 0)
  {
  }

  datatype Point = Point(x: int, y: int)

  const SwipeThreshold: int := 50

  /**
   * `onTouchEnd`: a horizontal swipe beyond the threshold turns the page
   * (inverted for right-to-left); a vertical one goes next on an upward swipe.
   * `start` is `None` when no touch began.
   */
  function OnSwipe(s: Settings, mode: string, axis: string, start: Option<Point>, current: Point,
                   frameCount: nat, i: int): int
  {
    if EffectiveMode(s, mode) != "paged" || start.None? then i
    else
      var dx := start.value.x - current.x;
      var dy := start.value.y - current.y;
      if axis == "horizontal" then
        if dx > SwipeThreshold then (if IsRtl(s) then Prev(s, frameCount, i) else Next(s, frameCount, i))
        else if dx < -SwipeThreshold then (if IsRtl(s) then Next(s, frameCount, i) else Prev(s, frameCount, i))
        else i
      else
        if dy > SwipeThreshold then Next(s, frameCount, i)
        else if dy < -SwipeThreshold then Prev(s, frameCount, i)
        else i
  }

  /** Short swipes do nothing, and every swipe keeps a valid index valid. */
  lemma SwipeStaysInRange(s: Settings, mode: string, axis: string, start: Option<Point>, current: Point,
                          frameCount: nat, i: int)
    requires 0 <= i < frameCount
    ensures 0 <= OnSwipe(s, mode, axis, start, current, frameCount, i) < frameCount
    ensures start.Some? && -SwipeThreshold <= start.value.x - current.x <= SwipeThreshold
            && -SwipeThreshold <= start.value.y - current.y <= SwipeThreshold
      ==> OnSwipe(s, mode, axis, start, current, frameCount, i) == i
  {
  }
}
